/** The reply builders: objects that consume a shared buffer in place and may stop at any byte. */
module Builders {
  import opened Text
  import opened Resp

  /** The `std::string` that a tree of builders consumes from the front. */
  class Buffer {
    var data: string

    constructor (data: string)
      ensures this.data == data
    {
      this.data := data;
    }
  }

  /** What a builder amounts to: still waiting, or holding its reply. */
  datatype View = Waiting(pending: Pending) | Ready(reply: Reply)

  function RunView(v: View, data: string): Step {
    match v
    case Ready(r) => Done(r, data)
    case Waiting(p) => Run(p, data)
  }

  /** A call that failed threw the failure; any other call reached the step's view and unread bytes. */
  predicate Reached(s: Step, failed: Option<Failure>, v: View, data: string) {
    match s
    case Fail(f) => failed == Some(f)
    case Done(r, rest) => failed == None && v == Ready(r) && data == rest
    case More(p, rest) => failed == None && v == Waiting(p) && data == rest
  }

  class IntegerBuilder {
    var nbr: Int64
    var negativeMultiplicator: Int64
    var replyReady: bool
    var reply: Reply

    ghost predicate Valid()
      reads this
    {
      && (!replyReady ==> nbr == 0 && negativeMultiplicator == 1)
      && (negativeMultiplicator == 1 || negativeMultiplicator == -1) && 0 <= nbr
      && (replyReady ==> reply == Integer(negativeMultiplicator * nbr))
    }

    ghost function View(): View
      reads this
    {
      if replyReady then Ready(reply) else Waiting(PInteger)
    }

    constructor ()
      ensures Valid() && View() == Waiting(PInteger)
    {
      nbr, negativeMultiplicator, replyReady, reply := 0, 1, false, Null;
    }

    /** The digit loop over the bytes before the line terminator; the accumulator stays in int64 throughout. */
    method ReadDigits(line: string) returns (failed: Option<Failure>)
      requires Valid() && !replyReady
      modifies this`nbr, this`negativeMultiplicator
      ensures failed.None? ==> ParseLine(line) == LineOk(negativeMultiplicator * nbr)
      ensures failed.None? ==> (negativeMultiplicator == 1 || negativeMultiplicator == -1) && 0 <= nbr
      ensures failed.Some? ==> ParseLine(line) == LineBad(failed.value)
    {
      ghost var off := if line != "" && line[0] == '-' then 1 else 0;
      var i := 0;
      while i < |line|
        invariant 0 <= i <= |line| && 0 <= nbr && (i < off ==> nbr == 0)
        invariant negativeMultiplicator == if 0 < i && off == 1 then -1 else 1
        invariant off <= i ==> HasRead(line, off, i, nbr)
      {
        if i == 0 && negativeMultiplicator == 1 && line[i] == '-' {
          negativeMultiplicator := -1;
        } else if !IsDigit(line[i]) {
          BadDigit(line, off, i, nbr);
          return Some(InvalidDigit);
        } else {
          var digit := DigitValue(line[i]);
          DigitAppended(line, off, i, nbr);
          if nbr * 10 > INT64_MAX || nbr * 10 + digit > INT64_MAX {
            Overflows(line, off, i + 1, nbr * 10 + digit);
            return Some(Undefined);
          }
          nbr := nbr * 10;
          nbr := nbr + digit;
        }
        i := i + 1;
      }
      WholeLine(line, off, nbr);
      return None;
    }

    method Feed(buf: Buffer) returns (failed: Option<Failure>)
      requires Valid()
      modifies this, buf
      ensures failed.None? ==> Valid()
      ensures Reached(RunView(old(View()), old(buf.data)), failed, View(), buf.data)
    {
      failed := None;
      if replyReady { return; }
      var end := FindCrlf(buf.data);
      if end.None? { return; }
      failed := ReadDigits(buf.data[..end.value]);
      if failed.Some? { return; }
      buf.data := buf.data[end.value + 2..];
      reply := Integer(negativeMultiplicator * nbr);
      replyReady := true;
    }

    function GetInteger(): (v: int)
      requires Valid()
      reads this
      ensures replyReady ==> reply == Integer(v)
    {
      negativeMultiplicator * nbr
    }
  }

  /** The characters of `line` between `off` and `i` are digits, and `v` is what they denote. */
  ghost predicate HasRead(line: string, off: nat, i: nat, v: int) {
    off <= i <= |line| && AllDigits(line[off..i]) && v == DecimalValue(line[off..i])
  }

  /** Where the digits of a line start. */
  predicate SignOffset(line: string, off: nat) {
    off == if line != "" && line[0] == '-' then 1 else 0
  }

  lemma DigitAppended(line: string, off: nat, i: nat, v: int)
    requires i < |line| && HasRead(line, off, i, v) && IsDigit(line[i])
    ensures HasRead(line, off, i + 1, v * 10 + DigitValue(line[i]))
  {
    assert line[off..i + 1] == line[off..i] + [line[i]];
    assert line[off..i + 1][..i - off] == line[off..i];
  }

  lemma BadDigit(line: string, off: nat, i: nat, v: int)
    requires SignOffset(line, off) && i < |line| && HasRead(line, off, i, v) && v <= INT64_MAX && !IsDigit(line[i])
    ensures ParseLine(line) == LineBad(InvalidDigit)
  {
    var ds := line[off..];
    assert ds == if off == 1 then line[1..] else line;
    assert ds[..i - off] == line[off..i];
    DigitRunIs(ds, i - off);
  }

  lemma Overflows(line: string, off: nat, i: nat, v: int)
    requires SignOffset(line, off) && HasRead(line, off, i, v) && v > INT64_MAX
    ensures ParseLine(line) == LineBad(Undefined)
  {
    var ds := line[off..];
    assert ds == if off == 1 then line[1..] else line;
    var k := DigitRun(ds);
    assert forall j | 0 <= j < i - off :: IsDigit(line[off..i][j]) && line[off..i][j] == ds[j];
    assert ds[..k][..i - off] == line[off..i];
    DecimalValueMonotone(ds[..k], i - off);
  }

  lemma WholeLine(line: string, off: nat, v: int)
    requires SignOffset(line, off) && HasRead(line, off, |line|, v) && v <= INT64_MAX
    ensures ParseLine(line) == LineOk(if off == 1 then -v else v)
  {
    var ds := line[off..];
    assert ds == if off == 1 then line[1..] else line;
    assert ds[..|ds|] == line[off..|line|];
    DigitRunIs(ds, |ds|);
  }

  class SimpleStringBuilder {
    var str: string
    var replyReady: bool
    var reply: Reply

    ghost predicate Valid()
      reads this
    {
      replyReady ==> reply == Simple(str)
    }

    ghost function View(): View
      reads this
    {
      if replyReady then Ready(reply) else Waiting(PSimple)
    }

    constructor ()
      ensures Valid() && View() == Waiting(PSimple)
    {
      str, replyReady, reply := "", false, Null;
    }

    method Feed(buf: Buffer) returns (failed: Option<Failure>)
      requires Valid()
      modifies this, buf
      ensures Valid()
      ensures Reached(RunView(old(View()), old(buf.data)), failed, View(), buf.data)
    {
      failed := None;
      if replyReady { return; }
      var end := FindCrlf(buf.data);
      if end.None? { return; }
      str := buf.data[..end.value];
      reply := Simple(str);
      buf.data := buf.data[end.value + 2..];
      replyReady := true;
    }
  }

  class ErrorBuilder {
    const stringBuilder: SimpleStringBuilder
    var reply: Reply

    ghost predicate Valid()
      reads this, stringBuilder
    {
      stringBuilder.Valid() && (stringBuilder.replyReady ==> reply == Error(stringBuilder.str))
    }

    ghost function View(): View
      reads this, stringBuilder
    {
      if stringBuilder.replyReady then Ready(reply) else Waiting(PError)
    }

    constructor ()
      ensures Valid() && View() == Waiting(PError) && fresh(stringBuilder)
    {
      stringBuilder := new SimpleStringBuilder();
      reply := Null;
    }

    method Feed(buf: Buffer) returns (failed: Option<Failure>)
      requires Valid()
      modifies this, stringBuilder, buf
      ensures Valid()
      ensures Reached(RunView(old(View()), old(buf.data)), failed, View(), buf.data)
    {
      failed := stringBuilder.Feed(buf);
      if stringBuilder.replyReady {
        reply := Error(stringBuilder.str);
      }
    }
  }

  class BulkStringBuilder {
    const intBuilder: IntegerBuilder
    var strSize: Int32
    var str: string
    var isNull: bool
    var replyReady: bool
    var reply: Reply

    ghost predicate Valid()
      reads this, intBuilder
    {
      && intBuilder.Valid()
      && (!replyReady && intBuilder.replyReady ==> strSize != -1)
      && (!replyReady ==> !isNull)
      && (replyReady ==> reply == if isNull then Null else Bulk(str))
    }

    ghost function View(): View
      reads this, intBuilder
    {
      if replyReady then Ready(reply)
      else if intBuilder.replyReady then Waiting(PBulkBody(strSize))
      else Waiting(PBulkSize)
    }

    constructor ()
      ensures Valid() && View() == Waiting(PBulkSize) && fresh(intBuilder)
    {
      intBuilder := new IntegerBuilder();
      strSize, str, isNull, replyReady, reply := 0, "", false, false, Null;
    }

    method BuildReply()
      modifies this
      ensures replyReady && reply == (if isNull then Null else Bulk(str))
      ensures strSize == old(strSize) && str == old(str) && isNull == old(isNull)
    {
      reply := if isNull then Null else Bulk(str);
      replyReady := true;
    }

    /** Reads the length; a length of -1 completes the null reply at once. */
    method FetchSize(buf: Buffer) returns (fetched: bool, failed: Option<Failure>)
      requires Valid() && !replyReady
      modifies this, intBuilder, buf
      ensures failed.None? ==> Valid() && fetched == intBuilder.replyReady
      ensures failed.None? && !replyReady && fetched ==>
                RunView(old(View()), old(buf.data)) == RunBody(strSize, buf.data)
      ensures failed.Some? || replyReady || !fetched ==>
                Reached(RunView(old(View()), old(buf.data)), failed, View(), buf.data)
    {
      fetched, failed := true, None;
      if intBuilder.replyReady { return; }
      failed := intBuilder.Feed(buf);
      if failed.Some? { return; }
      if !intBuilder.replyReady { return false, None; }
      strSize := ToInt32(intBuilder.GetInteger());
      if strSize == -1 {
        isNull := true;
        BuildReply();
      }
    }

    method FetchStr(buf: Buffer) returns (failed: Option<Failure>)
      requires Valid() && !replyReady && intBuilder.replyReady
      modifies this, buf
      ensures failed.None? ==> Valid()
      ensures Reached(RunBody(old(strSize), old(buf.data)), failed, View(), buf.data)
    {
      failed := None;
      if |buf.data| < BytesNeeded(strSize) { return; }
      if strSize < 0 { return Some(Undefined); }
      if buf.data[strSize] != '\r' { return Some(WrongEnding); }
      if strSize + 1 > INT32_MAX { return Some(Undefined); }
      if buf.data[strSize + 1] != '\n' { return Some(WrongEnding); }
      str := buf.data[..strSize];
      if strSize + 2 > INT32_MAX { return Some(Undefined); }
      buf.data := buf.data[strSize + 2..];
      BuildReply();
    }

    method Feed(buf: Buffer) returns (failed: Option<Failure>)
      requires Valid()
      modifies this, intBuilder, buf
      ensures failed.None? ==> Valid()
      ensures Reached(RunView(old(View()), old(buf.data)), failed, View(), buf.data)
    {
      failed := None;
      if replyReady { return; }
      var fetched;
      fetched, failed := FetchSize(buf);
      if failed.Some? || !fetched || replyReady { return; }
      failed := FetchStr(buf);
    }
  }
}
