/**
  RESP2 as the C++ integers read it: concrete syntax trees, and the two directions
  that tie them to the decoder. Every well-formed tree is decoded to the reply it
  stands for, and whatever the decoder consumed is the text of such trees.
 */
module Grammar {
  import opened Text
  import opened Resp

  datatype Wire =
    | WSimple(text: string)
    | WError(text: string)
    | WInteger(line: string)
    | WBulk(line: string, body: string)
    | WNullBulk(line: string)
    | WNullArray(line: string)
    | WArray(line: string, elems: seq<Wire>)

  const BULK_MAX: nat := INT32_MAX - 2

  function LineValue(line: string): (v: int)
    requires ParseLine(line).LineOk?
  {
    ParseLine(line).value
  }

  predicate IsLine(line: string) { NoCrlf(line) && ParseLine(line).LineOk? }

  /** The trees the decoder accepts. A bulk length is read through a 32-bit conversion. */
  predicate WellFormed(w: Wire) {
    match w
    case WSimple(t) => NoCrlf(t)
    case WError(t) => NoCrlf(t)
    case WInteger(line) => IsLine(line)
    case WBulk(line, body) => IsLine(line) && ToInt32(LineValue(line)) == |body| <= BULK_MAX
    case WNullBulk(line) => IsLine(line) && ToInt32(LineValue(line)) == -1
    case WNullArray(line) => IsLine(line) && LineValue(line) < 0
    case WArray(line, elems) => IsLine(line) && LineValue(line) == |elems| && AllWellFormed(elems)
  }

  predicate AllWellFormed(ws: seq<Wire>) { forall w | w in ws :: WellFormed(w) }

  function Value(w: Wire): Reply
    requires WellFormed(w)
  {
    match w
    case WSimple(t) => Simple(t)
    case WError(t) => Error(t)
    case WInteger(line) => Integer(LineValue(line))
    case WBulk(_, body) => Bulk(body)
    case WNullBulk(_) => Null
    case WNullArray(_) => Null
    case WArray(_, elems) => Array(Values(elems))
  }

  function Values(ws: seq<Wire>): (rs: seq<Reply>)
    requires AllWellFormed(ws)
    ensures |rs| == |ws|
  {
    if ws == [] then [] else [Value(ws[0])] + Values(ws[1..])
  }

  function TypeByte(w: Wire): char {
    match w
    case WSimple(_) => '+'
    case WError(_) => '-'
    case WInteger(_) => ':'
    case WBulk(_, _) => '$'
    case WNullBulk(_) => '$'
    case WNullArray(_) => '*'
    case WArray(_, _) => '*'
  }

  /** The bytes after the type byte. */
  function Payload(w: Wire): string
    decreases w, 0
  {
    match w
    case WSimple(t) => t + CRLF
    case WError(t) => t + CRLF
    case WInteger(line) => line + CRLF
    case WBulk(line, body) => line + CRLF + body + CRLF
    case WNullBulk(line) => line + CRLF
    case WNullArray(line) => line + CRLF
    case WArray(line, elems) => line + CRLF + TextAll(elems)
  }

  function TextOf(w: Wire): string
    decreases w, 1
  {
    [TypeByte(w)] + Payload(w)
  }

  function TextAll(ws: seq<Wire>): string {
    if ws == [] then "" else TextOf(ws[0]) + TextAll(ws[1..])
  }

  lemma {:induction false} TextAllAppend(a: seq<Wire>, b: seq<Wire>)
    ensures TextAll(a + b) == TextAll(a) + TextAll(b)
  {
    if a == [] {
      assert a + b == b;
    } else {
      assert (a + b)[1..] == a[1..] + b;
      TextAllAppend(a[1..], b);
    }
  }

  lemma {:induction false} ValuesAppend(a: seq<Wire>, b: seq<Wire>)
    requires AllWellFormed(a) && AllWellFormed(b)
    ensures AllWellFormed(a + b) && Values(a + b) == Values(a) + Values(b)
  {
    if a == [] {
      assert a + b == b;
    } else {
      assert (a + b)[1..] == a[1..] + b;
      ValuesAppend(a[1..], b);
    }
  }

  // ----- completeness -----

  lemma TakeIntOf(line: string, rest: string)
    requires IsLine(line)
    ensures TakeInt(line + CRLF + rest) == Line(LineValue(line), rest)
  {
    FindCrlfAfter(line, rest);
  }

  lemma RunBodyOf(body: string, rest: string)
    requires |body| <= BULK_MAX
    ensures RunBody(|body|, body + CRLF + rest) == Done(Bulk(body), rest)
  {
    var b := body + CRLF + rest;
    assert b[..|body|] == body;
    assert b[|body| + 2..] == rest;
  }

  lemma DecodesText(t: string, rest: string)
    requires NoCrlf(t)
    ensures Run(PSimple, t + CRLF + rest) == Done(Simple(t), rest)
    ensures Run(PError, t + CRLF + rest) == Done(Error(t), rest)
  {
    FindCrlfAfter(t, rest);
  }

  /** The forms that are one number line. */
  lemma DecodesNumber(line: string, rest: string)
    requires IsLine(line)
    ensures Run(PInteger, line + CRLF + rest) == Done(Integer(LineValue(line)), rest)
    ensures ToInt32(LineValue(line)) == -1 ==> Run(PBulkSize, line + CRLF + rest) == Done(Null, rest)
    ensures LineValue(line) < 0 ==> Run(PArraySize, line + CRLF + rest) == Done(Null, rest)
  {
    TakeIntOf(line, rest);
    hide TakeInt, ParseLine;
  }

  lemma DecodesLeaf(w: Wire, rest: string)
    requires WellFormed(w) && !w.WArray? && !w.WBulk?
    ensures CreateBuilder(TypeByte(w)).Some?
    ensures Run(CreateBuilder(TypeByte(w)).value, Payload(w) + rest) == Done(Value(w), rest)
  {
    hide Run, NoCrlf, ParseLine, LineValue;
    match w
    case WSimple(t) => DecodesText(t, rest);
    case WError(t) => DecodesText(t, rest);
    case WInteger(line) => DecodesNumber(line, rest);
    case WNullBulk(line) => DecodesNumber(line, rest);
    case WNullArray(line) => DecodesNumber(line, rest);
  }

  lemma DecodesBulk(line: string, body: string, rest: string)
    requires WellFormed(WBulk(line, body))
    ensures Run(PBulkSize, line + CRLF + body + CRLF + rest) == Done(Bulk(body), rest)
  {
    assert line + CRLF + body + CRLF + rest == line + CRLF + (body + CRLF + rest);
    TakeIntOf(line, body + CRLF + rest);
    RunBodyOf(body, rest);
  }

  /** A well-formed tree followed by any bytes is decoded to its value, leaving those bytes. */
  lemma {:induction false} DecodesWire(w: Wire, rest: string)
    requires WellFormed(w)
    ensures CreateBuilder(TypeByte(w)).Some?
    ensures Run(CreateBuilder(TypeByte(w)).value, Payload(w) + rest) == Done(Value(w), rest)
    decreases w
  {
    match w
    case WBulk(line, body) => DecodesBulk(line, body, rest);
    case WArray(line, elems) => DecodesArray(line, elems, rest);
    case _ => DecodesLeaf(w, rest);
  }

  lemma {:induction false} DecodesArray(line: string, elems: seq<Wire>, rest: string)
    requires WellFormed(WArray(line, elems))
    ensures Run(PArraySize, line + CRLF + TextAll(elems) + rest) == Done(Array(Values(elems)), rest)
    decreases elems
  {
    var text := TextAll(elems) + rest;
    assert line + CRLF + TextAll(elems) + rest == line + CRLF + text;
    ArrayHeader(line, text);
    if elems == [] {
      assert text == rest;
    } else {
      DecodesRows(LineValue(line), [], elems, rest);
      assert [] + Values(elems) == Values(elems);
    }
  }

  lemma ArrayHeader(line: string, rest: string)
    requires IsLine(line)
    ensures LineValue(line) == 0 ==> Run(PArraySize, line + CRLF + rest) == Done(Array([]), rest)
    ensures LineValue(line) > 0 ==> Run(PArraySize, line + CRLF + rest) == Run(PRows(LineValue(line), [], None), rest)
  {
    TakeIntOf(line, rest);
  }

  lemma TextAllStep(elems: seq<Wire>, rest: string)
    requires elems != []
    ensures var tail := TextAll(elems[1..]) + rest;
            TextAll(elems) + rest == [TypeByte(elems[0])] + (Payload(elems[0]) + tail)
  {}

  lemma {:induction false} DecodesRows(count: nat, rows: seq<Reply>, elems: seq<Wire>, rest: string)
    requires elems != [] && |rows| + |elems| == count && AllWellFormed(elems)
    ensures Run(PRows(count, rows, None), TextAll(elems) + rest) == Done(Array(rows + Values(elems)), rest)
    decreases elems, 0
  {
    var w, tail := elems[0], TextAll(elems[1..]) + rest;
    var buf := TextAll(elems) + rest;
    TextAllStep(elems, rest);
    assert buf[1..] == Payload(w) + tail;
    DecodesWire(w, tail);
    var rows' := rows + [Value(w)];
    assert rows + Values(elems) == rows' + Values(elems[1..]);
    if |elems| == 1 {
      assert tail == rest;
      assert rows + Values(elems) == rows';
    } else {
      DecodesRows(count, rows', elems[1..], rest);
    }
  }

  // ----- soundness -----

  /** A tree that is still being read. */
  datatype Part =
    | QSimple
    | QError
    | QInteger
    | QBulkSize
    | QBulkBody(line: string)
    | QArraySize
    | QRows(line: string, elems: seq<Wire>, current: Option<Part>)

  predicate PartWellFormed(q: Part) {
    match q
    case QBulkBody(line) => IsLine(line) && ToInt32(LineValue(line)) != -1
    case QRows(line, elems, current) =>
      IsLine(line) && |elems| < LineValue(line) && AllWellFormed(elems)
      && (current.Some? ==> PartWellFormed(current.value))
    case _ => true
  }

  /** The decoder state that has read this much of a tree. */
  function PartPending(q: Part): Pending
    requires PartWellFormed(q)
  {
    match q
    case QSimple => PSimple
    case QError => PError
    case QInteger => PInteger
    case QBulkSize => PBulkSize
    case QBulkBody(line) => PBulkBody(ToInt32(LineValue(line)))
    case QArraySize => PArraySize
    case QRows(line, elems, current) =>
      PRows(LineValue(line), Values(elems), if current.Some? then Some(PartPending(current.value)) else None)
  }

  /** The bytes read so far, after the type byte. */
  function PartPayload(q: Part): string
    decreases q, 0
  {
    match q
    case QBulkBody(line) => line + CRLF
    case QRows(line, elems, current) =>
      line + CRLF + TextAll(elems) + (if current.Some? then PartText(current.value) else "")
    case _ => ""
  }

  function PartByte(q: Part): char {
    match q
    case QSimple => '+'
    case QError => '-'
    case QInteger => ':'
    case QBulkSize => '$'
    case QBulkBody(_) => '$'
    case QArraySize => '*'
    case QRows(_, _, _) => '*'
  }

  function PartText(q: Part): string
    decreases q, 1
  {
    [PartByte(q)] + PartPayload(q)
  }

  function NewPart(id: char): (q: Option<Part>)
    ensures q.Some? <==> CreateBuilder(id).Some?
    ensures q.Some? ==> PartWellFormed(q.value) && PartPending(q.value) == CreateBuilder(id).value
    ensures q.Some? ==> PartText(q.value) == [id]
  {
    match id
    case '+' => Some(QSimple)
    case '-' => Some(QError)
    case ':' => Some(QInteger)
    case '$' => Some(QBulkSize)
    case '*' => Some(QArraySize)
    case _ => None
  }

  lemma LineTaken(buf: string)
    requires TakeInt(buf).Line?
    ensures var k := FindCrlf(buf).value;
            IsLine(buf[..k]) && LineValue(buf[..k]) == TakeInt(buf).value
            && buf == buf[..k] + CRLF + TakeInt(buf).rest
  {}

  /** The outcome of a step, with the tree it completed or the part it extended. */
  predicate Accounts(q: Part, buf: string, s: Step, w: Wire, q': Part)
    requires PartWellFormed(q)
  {
    match s
    case Done(r, rest) => WellFormed(w) && Value(w) == r && PartText(q) + buf == TextOf(w) + rest
    case More(p, rest) => PartWellFormed(q') && PartPending(q') == p && PartText(q) + buf == PartText(q') + rest
    case Fail(_) => true
  }

  lemma TextRead(buf: string, id: char)
    requires FindCrlf(buf).Some?
    ensures var k := FindCrlf(buf).value; NoCrlf(buf[..k]) && [id] + buf == [id] + (buf[..k] + CRLF) + buf[k + 2..]
  {}

  /** A complete number line: the line, its value, and the bytes it leaves. */
  lemma LineRead(buf: string, id: char) returns (line: string, rest: string)
    requires TakeInt(buf).Line?
    ensures IsLine(line) && TakeInt(buf) == Line(LineValue(line), rest)
    ensures [id] + buf == [id] + (line + CRLF) + rest
  {
    LineTaken(buf);
    TextRead(buf, id);
    line, rest := buf[..FindCrlf(buf).value], TakeInt(buf).rest;
  }

  lemma BodyRead(line: string, buf: string) returns (w: Wire, q': Part)
    requires IsLine(line) && ToInt32(LineValue(line)) != -1
    ensures Accounts(QBulkBody(line), buf, RunBody(ToInt32(LineValue(line)), buf), w, q')
  {
    var q := QBulkBody(line);
    w, q' := WSimple(""), q;
    var n := ToInt32(LineValue(line));
    if RunBody(n, buf).Done? {
      w := WBulk(line, buf[..n]);
      assert buf == buf[..n] + CRLF + buf[n + 2..];
      assert PartText(q) + buf == TextOf(w) + buf[n + 2..];
    }
  }

  lemma BulkRead(buf: string) returns (w: Wire, q': Part)
    ensures Accounts(QBulkSize, buf, Run(PBulkSize, buf), w, q')
  {
    w, q' := WSimple(""), QBulkSize;
    if TakeInt(buf).Line? {
      var line, rest := LineRead(buf, '$');
      hide TakeInt, ParseLine, NoCrlf, RunBody;
      if ToInt32(LineValue(line)) == -1 {
        w := WNullBulk(line);
        assert TextOf(w) == ['$'] + (line + CRLF);
      } else {
        assert PartText(QBulkSize) + buf == PartText(QBulkBody(line)) + rest;
        w, q' := BodyRead(line, rest);
      }
    }
  }

  /**
    Every byte consumed belongs to the tree read so far; a completed tree is
    well formed and has the delivered value.
   */
  lemma {:induction false} RunAccounts(q: Part, buf: string) returns (w: Wire, q': Part)
    requires PartWellFormed(q)
    ensures Accounts(q, buf, Run(PartPending(q), buf), w, q')
    decreases |buf|, q, 1
  {
    w, q' := WSimple(""), q;
    match q
    case QSimple =>
      if FindCrlf(buf).Some? { w := WSimple(buf[..FindCrlf(buf).value]); TextRead(buf, '+'); }
    case QError =>
      if FindCrlf(buf).Some? { w := WError(buf[..FindCrlf(buf).value]); TextRead(buf, '-'); }
    case QInteger =>
      if TakeInt(buf).Line? { w := WInteger(buf[..FindCrlf(buf).value]); TextRead(buf, ':'); }
    case QBulkSize => w, q' := BulkRead(buf);
    case QBulkBody(line) => w, q' := BodyRead(line, buf);
    case QArraySize => w, q' := ArrayAccounts(buf);
    case QRows(_, _, _) => w, q' := RowsAccount(q, buf);
  }

  lemma {:induction false} ArrayAccounts(buf: string) returns (w: Wire, q': Part)
    ensures Accounts(QArraySize, buf, Run(PArraySize, buf), w, q')
    decreases |buf|, QArraySize, 0
  {
    w, q' := WSimple(""), QArraySize;
    if TakeInt(buf).Line? {
      var line, rest := LineRead(buf, '*');
      hide TakeInt, ParseLine, NoCrlf, TextAll, Payload, Values;
      assert PartText(QArraySize) + buf == "*" + (line + CRLF) + rest;
      if LineValue(line) <= 0 {
        w := EmptyArrayRead(line);
      } else {
        var q1 := RowsStarted(line, rest);
        hide PartText, PartPayload, TextOf;
        w, q' := RunAccounts(q1, rest);
      }
    }
  }

  lemma EmptyArrayRead(line: string) returns (w: Wire)
    requires IsLine(line) && LineValue(line) <= 0
    ensures WellFormed(w) && TextOf(w) == "*" + (line + CRLF)
    ensures Value(w) == if LineValue(line) < 0 then Null else Array([])
  {
    w := if LineValue(line) < 0 then WNullArray(line) else WArray(line, []);
    assert Payload(w) == line + CRLF;
  }

  lemma RowsStarted(line: string, rest: string) returns (q: Part)
    requires IsLine(line) && LineValue(line) > 0
    ensures q == QRows(line, [], None) && PartWellFormed(q)
    ensures PartPending(q) == PRows(LineValue(line), [], None)
    ensures PartText(q) + rest == "*" + (line + CRLF) + rest
  {
    q := QRows(line, [], None);
    assert PartPayload(q) == line + CRLF;
  }

  /** What the part `q` reads before its current row. */
  function RowsHead(q: Part): string
    requires q.QRows?
  {
    [PartByte(q)] + q.line + CRLF + TextAll(q.elems)
  }

  lemma RowsText(q: Part, rest: string)
    requires q.QRows?
    ensures q.current.None? ==> PartText(q) + rest == RowsHead(q) + rest
    ensures q.current.Some? ==> PartText(q) + rest == RowsHead(q) + (PartText(q.current.value) + rest)
  {
    if q.current.Some? {
      assert PartText(q) == RowsHead(q) + PartText(q.current.value);
    } else {
      assert PartText(q) == RowsHead(q);
    }
  }

  /** Appending a completed row to an array part. */
  lemma RowAppended(q: Part, e: Wire, rest: string)
    requires q.QRows? && PartWellFormed(q) && WellFormed(e)
    ensures AllWellFormed(q.elems + [e])
    ensures Values(q.elems + [e]) == Values(q.elems) + [Value(e)]
    ensures RowsHead(QRows(q.line, q.elems + [e], None)) + rest == RowsHead(q) + (TextOf(e) + rest)
    ensures TextOf(WArray(q.line, q.elems + [e])) == RowsHead(QRows(q.line, q.elems + [e], None))
  {
    TreeAppended(q.elems, e);
    var head := [PartByte(q)] + q.line + CRLF;
    Assoc(head, TextAll(q.elems), TextOf(e));
    Assoc(RowsHead(q), TextOf(e), rest);
    Assoc([PartByte(q)], q.line + CRLF, TextAll(q.elems + [e]));
    Assoc([PartByte(q)], q.line, CRLF);
  }

  lemma TreeAppended(ws: seq<Wire>, w: Wire)
    requires AllWellFormed(ws) && WellFormed(w)
    ensures AllWellFormed(ws + [w]) && Values(ws + [w]) == Values(ws) + [Value(w)]
    ensures TextAll(ws + [w]) == TextAll(ws) + TextOf(w)
  {
    TextAllAppend(ws, [w]);
    ValuesAppend(ws, [w]);
    assert Values([w]) == [Value(w)];
    assert TextAll([w]) == TextOf(w);
  }

  lemma {:induction false} RowsAccount(q: Part, buf: string) returns (w: Wire, q': Part)
    requires q.QRows? && PartWellFormed(q)
    ensures Accounts(q, buf, Run(PartPending(q), buf), w, q')
    decreases |buf|, q, 0
  {
    hide TextAll, Payload, TextOf, PartText, PartPayload, PartByte, RowsHead, Values, ParseLine, NoCrlf;
    w, q' := WSimple(""), q;
    if buf != "" {
      var (c, b) := if q.current.Some? then (q.current, buf) else (NewPart(buf[0]), buf[1..]);
      if c.Some? {
        RowCurrent(q, buf, c.value, b);
        var e, c' := RunAccounts(c.value, b);
        var s := Run(PartPending(c.value), b);
        if s.More? {
          q' := RowSuspended(q, buf, c', s.rest);
        } else if s.Done? {
          var q1 := RowFinished(q, buf, e, s.rest);
          if |q1.elems| == LineValue(q.line) {
            w := WArray(q.line, q1.elems);
          } else {
            w, q' := RunAccounts(q1, s.rest);
          }
        }
      }
    }
  }

  /** The row to be fed next, with the bytes it is fed. */
  lemma RowCurrent(q: Part, buf: string, c: Part, b: string)
    requires q.QRows? && buf != ""
    requires if q.current.Some? then c == q.current.value && b == buf else NewPart(buf[0]) == Some(c) && b == buf[1..]
    ensures PartText(q) + buf == RowsHead(q) + (PartText(c) + b)
  {
    RowsText(q, buf);
    if q.current.None? { assert [buf[0]] + buf[1..] == buf; }
  }

  lemma RowSuspended(q: Part, buf: string, c: Part, rest: string) returns (q': Part)
    requires q.QRows? && PartWellFormed(q) && PartWellFormed(c)
    requires PartText(q) + buf == RowsHead(q) + (PartText(c) + rest)
    ensures q' == QRows(q.line, q.elems, Some(c)) && PartWellFormed(q')
    ensures PartPending(q') == PRows(LineValue(q.line), Values(q.elems), Some(PartPending(c)))
    ensures PartText(q) + buf == PartText(q') + rest
  {
    q' := QRows(q.line, q.elems, Some(c));
    RowsText(q', rest);
  }

  lemma RowFinished(q: Part, buf: string, e: Wire, rest: string) returns (q1: Part)
    requires q.QRows? && PartWellFormed(q) && WellFormed(e)
    requires PartText(q) + buf == RowsHead(q) + (TextOf(e) + rest)
    ensures q1 == QRows(q.line, q.elems + [e], None) && AllWellFormed(q1.elems)
    ensures Values(q1.elems) == Values(q.elems) + [Value(e)]
    ensures PartText(q) + buf == PartText(q1) + rest
    ensures PartText(q) + buf == TextOf(WArray(q.line, q1.elems)) + rest
  {
    q1 := QRows(q.line, q.elems + [e], None);
    RowAppended(q, e, rest);
    RowsText(q1, rest);
  }
}
