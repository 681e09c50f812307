/**
  RESP2 replies, the concrete syntax the decoder accepts, and the decoder as a
  function of what it is waiting for and of the bytes in the shared buffer.
*/
module Resp {
  import opened Text

  datatype Reply =
    | Error(text: string)
    | Bulk(text: string)
    | Simple(text: string)
    | Null
    | Integer(value: int)
    | Array(rows: seq<Reply>)

  /** Why decoding stops for good: a thrown `redis_error`, or undefined behaviour of the C++ code. */
  datatype Failure = InvalidType | InvalidDigit | WrongEnding | Undefined

  // ----- one line holding an integer -----

  datatype LineResult = LineOk(value: int) | LineBad(failure: Failure)

  /**
    What a line denotes as a 64-bit integer: an optional minus, then digits.
    The accumulator leaves int64 as soon as the digits read so far exceed
    INT64_MAX, which comes before any later bad character.
   */
  function ParseLine(line: string): LineResult {
    var negative := line != "" && line[0] == '-';
    var ds := if negative then line[1..] else line;
    var k := DigitRun(ds);
    var v := DecimalValue(ds[..k]);
    if v > INT64_MAX then LineBad(Undefined)
    else if k < |ds| then LineBad(InvalidDigit)
    else LineOk(if negative then -v else v)
  }

  datatype LineStep = NoLine | BadLine(failure: Failure) | Line(value: int, rest: string)

  function TakeInt(buf: string): LineStep {
    match FindCrlf(buf)
    case None => NoLine
    case Some(k) =>
      match ParseLine(buf[..k])
      case LineBad(f) => BadLine(f)
      case LineOk(v) => Line(v, buf[k + 2..])
  }

  // ----- the resumable decoder -----

  /** What an unfinished builder still waits for. */
  datatype Pending =
    | PSimple
    | PError
    | PInteger
    | PBulkSize
    | PBulkBody(size: Int32)
    | PArraySize
    | PRows(count: nat, rows: seq<Reply>, current: Option<Pending>)

  datatype Step =
    | Done(reply: Reply, rest: string)
    | More(pending: Pending, rest: string)
    | Fail(failure: Failure)

  /** The builder chosen by a type byte. */
  function CreateBuilder(id: char): Option<Pending> {
    match id
    case '+' => Some(PSimple)
    case '-' => Some(PError)
    case ':' => Some(PInteger)
    case '$' => Some(PBulkSize)
    case '*' => Some(PArraySize)
    case _ => None
  }

  /** `static_cast<std::size_t>(size) + 2`, computed modulo 2^64. */
  function BytesNeeded(size: Int32): (n: nat)
    ensures 0 <= size ==> n == size + 2
    ensures size == -2 ==> n == 0
  {
    (size % TWO_TO_64 + 2) % TWO_TO_64
  }

  function RunText(buf: string, p: Pending, wrap: string -> Reply): Step {
    match FindCrlf(buf)
    case None => More(p, buf)
    case Some(k) => Done(wrap(buf[..k]), buf[k + 2..])
  }

  /**
    The payload of a bulk string. `size`, `size + 1` and `size + 2` are C++ ints,
    so a payload of more than INT32_MAX - 2 bytes overflows while it is checked or erased.
   */
  function RunBody(size: Int32, buf: string): Step {
    if |buf| < BytesNeeded(size) then More(PBulkBody(size), buf)
    else if size < 0 then Fail(Undefined)
    else if buf[size] != '\r' then Fail(WrongEnding)
    else if size + 1 > INT32_MAX then Fail(Undefined)
    else if buf[size + 1] != '\n' then Fail(WrongEnding)
    else if size + 2 > INT32_MAX then Fail(Undefined)
    else Done(Bulk(buf[..size]), buf[size + 2..])
  }

  function Run(p: Pending, buf: string): (r: Step)
    ensures r.Done? ==> |r.rest| < |buf|
    ensures r.More? ==> |r.rest| <= |buf|
    decreases |buf|, p
  {
    match p
    case PSimple => RunText(buf, p, s => Simple(s))
    case PError => RunText(buf, p, s => Error(s))
    case PInteger =>
      (match TakeInt(buf)
       case NoLine => More(p, buf)
       case BadLine(f) => Fail(f)
       case Line(v, rest) => Done(Integer(v), rest))
    case PBulkSize =>
      (match TakeInt(buf)
       case NoLine => More(p, buf)
       case BadLine(f) => Fail(f)
       case Line(v, rest) => if ToInt32(v) == -1 then Done(Null, rest) else RunBody(ToInt32(v), rest))
    case PBulkBody(size) => RunBody(size, buf)
    case PArraySize =>
      (match TakeInt(buf)
       case NoLine => More(p, buf)
       case BadLine(f) => Fail(f)
       case Line(v, rest) =>
         if v < 0 then Done(Null, rest)
         else if v == 0 then Done(Array([]), rest)
         else Run(PRows(v, [], None), rest))
    case PRows(count, rows, current) =>
      if buf == "" then More(p, buf)
      else
        var (c, b) := if current.Some? then (current, buf) else (CreateBuilder(buf[0]), buf[1..]);
        if c.None? then Fail(InvalidType)
        else
          match Run(c.value, b)
          case Fail(f) => Fail(f)
          case More(c', rest) => More(PRows(count, rows, Some(c')), rest)
          case Done(row, rest) =>
            if |rows| + 1 == count then Done(Array(rows + [row]), rest)
            else Run(PRows(count, rows + [row], None), rest)
  }

  /** What follows a step once `more` has been appended to the buffer. */
  function Continue(s: Step, more: string): Step {
    match s
    case Done(r, rest) => Done(r, rest + more)
    case More(p, rest) => Run(p, rest + more)
    case Fail(f) => Fail(f)
  }

  lemma TakeIntExtends(x: string, y: string)
    requires !TakeInt(x).NoLine?
    ensures TakeInt(x).BadLine? ==> TakeInt(x + y) == TakeInt(x)
    ensures TakeInt(x).Line? ==> TakeInt(x + y) == Line(TakeInt(x).value, TakeInt(x).rest + y)
  {
    FindCrlfExtends(x, y);
    var k := FindCrlf(x).value;
    assert (x + y)[..k] == x[..k];
    assert (x + y)[k + 2..] == x[k + 2..] + y;
  }

  lemma RunTextExtends(x: string, y: string, p: Pending, wrap: string -> Reply)
    requires FindCrlf(x).Some?
    ensures RunText(x + y, p, wrap) == Done(RunText(x, p, wrap).reply, RunText(x, p, wrap).rest + y)
  {
    FindCrlfExtends(x, y);
    var k := FindCrlf(x).value;
    assert (x + y)[..k] == x[..k];
    assert (x + y)[k + 2..] == x[k + 2..] + y;
  }

  lemma RunBodyExtends(size: Int32, x: string, y: string)
    ensures RunBody(size, x + y) == Continue(RunBody(size, x), y)
  {
    if RunBody(size, x).Done? {
      assert (x + y)[..size] == x[..size];
      assert (x + y)[size + 2..] == x[size + 2..] + y;
    }
  }

  /** A builder fed in two pieces ends where it ends when fed once. */
  lemma {:induction false} RunResumes(p: Pending, x: string, y: string)
    ensures Run(p, x + y) == Continue(Run(p, x), y)
    decreases |x|, p
  {
    match p
    case PSimple =>
      if FindCrlf(x).Some? { RunTextExtends(x, y, p, s => Simple(s)); }
    case PError =>
      if FindCrlf(x).Some? { RunTextExtends(x, y, p, s => Error(s)); }
    case PInteger =>
      if !TakeInt(x).NoLine? { TakeIntExtends(x, y); }
    case PBulkSize =>
      if !TakeInt(x).NoLine? {
        TakeIntExtends(x, y);
        if TakeInt(x).Line? { RunBodyExtends(ToInt32(TakeInt(x).value), TakeInt(x).rest, y); }
      }
    case PBulkBody(size) =>
      RunBodyExtends(size, x, y);
    case PArraySize =>
      if !TakeInt(x).NoLine? {
        TakeIntExtends(x, y);
        if TakeInt(x).Line? && TakeInt(x).value > 0 {
          RunResumes(PRows(TakeInt(x).value, [], None), TakeInt(x).rest, y);
        }
      }
    case PRows(_, _, _) =>
      RowsResume(p, x, y);
  }

  lemma {:induction false} RowsResume(p: Pending, x: string, y: string)
    requires p.PRows?
    ensures Run(p, x + y) == Continue(Run(p, x), y)
    decreases |x|, p, 0
  {
    if x == "" {
      assert x + y == y;
    } else {
      assert (x + y)[1..] == x[1..] + y;
      var (c, b) := if p.current.Some? then (p.current, x) else (CreateBuilder(x[0]), x[1..]);
      if c.Some? {
        RunResumes(c.value, b, y);
        var s := Run(c.value, b);
        if s.Done? && |p.rows| + 1 != p.count {
          RunResumes(PRows(p.count, p.rows + [s.reply], None), s.rest, y);
        } else if s.More? {
          if s.rest + y == "" {
            assert b + y == b;
          }
        }
      }
    }
  }
}
