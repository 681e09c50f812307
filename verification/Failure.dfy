/**
  When decoding fails, said of the bytes alone: a stream is hopeless when, after
  whole replies and part of one more, it goes on in a way no reply can.
 */
module Failures {
  import opened Text
  import opened Resp
  import opened Grammar
  import opened Encoding
  import D = Decoder

  predicate KnownType(c: char) { c in "+-:$*" }

  /** The longest run of digits at the start of `s` is its first `k` characters. */
  predicate LeadingDigits(s: string, k: nat) {
    k <= |s| && AllDigits(s[..k]) && (k < |s| ==> !IsDigit(s[k]))
  }

  /** The digits of a line, after an optional minus. */
  function DigitsOf(line: string): string { if line != "" && line[0] == '-' then line[1..] else line }

  /**
    The line is not a number, of which `k` are the leading digits: they exceed
    int64, or something that is not a digit follows them.
   */
  predicate NotANumber(line: string, k: nat, f: Failure) {
    && LeadingDigits(DigitsOf(line), k)
    && f == (if DecimalValue(DigitsOf(line)[..k]) > INT64_MAX then Undefined else InvalidDigit)
    && (DecimalValue(DigitsOf(line)[..k]) > INT64_MAX || k < |DigitsOf(line)|)
  }

  predicate StartsWithLine(buf: string, line: string) {
    NoCrlf(line) && |line| + 2 <= |buf| && buf[..|line| + 2] == line + CRLF
  }

  /** A terminated line at the start of `buf` that is not a number. */
  ghost predicate BadNumber(buf: string, f: Failure) {
    exists line, k :: StartsWithLine(buf, line) && NotANumber(line, k, f)
  }

  /**
    A payload of `size` bytes that is all there, with the two bytes after it, and is
    not followed by CRLF; or one whose size overflows an int while it is handled.
   */
  predicate BadPayload(size: int, buf: string, f: Failure) {
    if size < -2 then |buf| >= TWO_TO_64 + size + 2 && f == Undefined
    else if size < 0 then f == Undefined
    else
      && |buf| >= size + 2
      && if buf[size] != '\r' then f == WrongEnding
         else if size == INT32_MAX then f == Undefined
         else if buf[size + 1] != '\n' then f == WrongEnding
         else size > BULK_MAX && f == Undefined
  }

  /** After the tree in progress `q`, if any, the bytes `unread` are the start of no reply. */
  ghost predicate Hopeless(q: Option<Part>, unread: string, f: Failure)
    requires q.Some? ==> PartWellFormed(q.value)
    decreases q
  {
    match q
    case None => unread != "" && !KnownType(unread[0]) && f == InvalidType
    case Some(QSimple) => false
    case Some(QError) => false
    case Some(QInteger) => BadNumber(unread, f)
    case Some(QBulkSize) => BadNumber(unread, f)
    case Some(QArraySize) => BadNumber(unread, f)
    case Some(QBulkBody(line)) => BadPayload(ToInt32(LineValue(line)), unread, f)
    case Some(QRows(_, _, current)) => Hopeless(current, unread, f)
  }

  // ----- the conditions and the decoder -----

  lemma TypeKnown(c: char)
    ensures KnownType(c) <==> CreateBuilder(c).Some?
  {}

  lemma LineFails(line: string, k: nat, f: Failure)
    requires LeadingDigits(DigitsOf(line), k)
    ensures ParseLine(line) == LineBad(f) <==> NotANumber(line, k, f)
  {
    DigitRunIs(DigitsOf(line), k);
  }

  lemma NumberFails(buf: string, f: Failure)
    ensures TakeInt(buf) == BadLine(f) <==> BadNumber(buf, f)
  {
    if TakeInt(buf) == BadLine(f) {
      var line := buf[..FindCrlf(buf).value];
      assert StartsWithLine(buf, line);
      LineFails(line, DigitRun(DigitsOf(line)), f);
    }
    if BadNumber(buf, f) {
      var line, k :| StartsWithLine(buf, line) && NotANumber(line, k, f);
      assert buf == line + CRLF + buf[|line| + 2..];
      FindCrlfAfter(line, buf[|line| + 2..]);
      LineFails(line, k, f);
    }
  }

  lemma PayloadFails(size: Int32, buf: string, f: Failure)
    requires size != -1
    ensures RunBody(size, buf) == Fail(f) <==> BadPayload(size, buf, f)
  {}

  // ----- a builder that fails has met a hopeless point -----

  lemma {:induction false} RunFails(q: Part, buf: string, f: Failure) returns (q': Part, rest: string)
    requires PartWellFormed(q) && Run(PartPending(q), buf) == Fail(f)
    ensures PartWellFormed(q') && PartText(q) + buf == PartText(q') + rest && Hopeless(Some(q'), rest, f)
    decreases |buf|, q, 1
  {
    q', rest := q, buf;
    match q
    case QInteger => NumberFails(buf, f);
    case QBulkSize => q', rest := BulkFails(buf, f);
    case QBulkBody(line) => PayloadFails(ToInt32(LineValue(line)), buf, f);
    case QArraySize => q', rest := ArrayFails(buf, f);
    case QRows(_, _, _) => q', rest := RowsFail(q, buf, f);
  }

  lemma BulkFails(buf: string, f: Failure) returns (q': Part, rest: string)
    requires Run(PBulkSize, buf) == Fail(f)
    ensures PartWellFormed(q') && PartText(QBulkSize) + buf == PartText(q') + rest && Hopeless(Some(q'), rest, f)
  {
    q', rest := QBulkSize, buf;
    if TakeInt(buf).Line? {
      var line;
      line, rest := LineRead(buf, '$');
      hide TakeInt, ParseLine, NoCrlf, RunBody, BadPayload;
      q' := QBulkBody(line);
      PayloadFails(ToInt32(LineValue(line)), rest, f);
    } else {
      NumberFails(buf, f);
    }
  }

  lemma {:induction false} ArrayFails(buf: string, f: Failure) returns (q': Part, rest: string)
    requires Run(PArraySize, buf) == Fail(f)
    ensures PartWellFormed(q') && PartText(QArraySize) + buf == PartText(q') + rest && Hopeless(Some(q'), rest, f)
    decreases |buf|, QArraySize, 0
  {
    q', rest := QArraySize, buf;
    if TakeInt(buf).Line? {
      var line, after := LineRead(buf, '*');
      hide TakeInt, ParseLine, NoCrlf, TextAll, Payload, Values, Hopeless;
      assert PartText(QArraySize) + buf == "*" + (line + CRLF) + after;
      var q1 := RowsStarted(line, after);
      hide PartText, PartPayload;
      q', rest := RunFails(q1, after, f);
    } else {
      NumberFails(buf, f);
    }
  }

  lemma {:induction false} RowsFail(q: Part, buf: string, f: Failure) returns (q': Part, rest: string)
    requires q.QRows? && PartWellFormed(q) && Run(PartPending(q), buf) == Fail(f)
    ensures PartWellFormed(q') && PartText(q) + buf == PartText(q') + rest && Hopeless(Some(q'), rest, f)
    decreases |buf|, q, 0
  {
    hide TextAll, Payload, TextOf, PartText, PartPayload, PartByte, RowsHead, Values, ParseLine, NoCrlf;
    q', rest := q, buf;
    TypeKnown(buf[0]);
    var (c, b) := if q.current.Some? then (q.current, buf) else (NewPart(buf[0]), buf[1..]);
    if c.Some? {
      RowCurrent(q, buf, c.value, b);
      var s := Run(PartPending(c.value), b);
      if s.Fail? {
        var c', rest' := RunFails(c.value, b, f);
        q' := RowSuspended(q, buf, c', rest');
        rest := rest';
      } else if s.Done? {
        var e, _ := RunAccounts(c.value, b);
        var q1 := RowFinished(q, buf, e, s.rest);
        q', rest := RunFails(q1, s.rest, f);
      }
    }
  }

  // ----- a hopeless point makes the decoder fail -----

  /** Rows that do not fill the array are read one after the other. */
  lemma {:induction false} RowsPartial(count: nat, rows: seq<Reply>, elems: seq<Wire>, rest: string)
    requires |rows| + |elems| < count && AllWellFormed(elems)
    ensures Run(PRows(count, rows, None), TextAll(elems) + rest) == Run(PRows(count, rows + Values(elems), None), rest)
    decreases elems
  {
    hide Run, TextAll, Payload, Values, Value, WellFormed;
    if elems == [] {
      NoRows(rows, rest);
    } else {
      var tail := TextAll(elems[1..]) + rest;
      TextAllStep(elems, rest);
      ValuesStep(rows, elems);
      RowTaken(count, rows, elems[0], TextAll(elems) + rest, tail);
      RowsPartial(count, rows + [Value(elems[0])], elems[1..], rest);
    }
  }

  lemma NoRows(rows: seq<Reply>, rest: string)
    ensures TextAll([]) + rest == rest && rows + Values([]) == rows
  {}

  lemma ValuesStep(rows: seq<Reply>, elems: seq<Wire>)
    requires elems != [] && AllWellFormed(elems)
    ensures WellFormed(elems[0]) && AllWellFormed(elems[1..])
    ensures rows + Values(elems) == rows + [Value(elems[0])] + Values(elems[1..])
  {
    AssocReplies(rows, [Value(elems[0])], Values(elems[1..]));
  }

  lemma AssocReplies(a: seq<Reply>, b: seq<Reply>, c: seq<Reply>)
    ensures a + b + c == a + (b + c)
  {}

  lemma RowTaken(count: nat, rows: seq<Reply>, w: Wire, buf: string, tail: string)
    requires |rows| + 1 < count && WellFormed(w) && buf == [TypeByte(w)] + (Payload(w) + tail)
    ensures Run(PRows(count, rows, None), buf) == Run(PRows(count, rows + [Value(w)], None), tail)
  {
    assert buf[1..] == Payload(w) + tail;
    DecodesWire(w, tail);
    hide Payload, WellFormed, TypeByte;
  }

  /** The parts that wait for a number. */
  lemma NumberPartFails(q: Part, unread: string, f: Failure)
    requires q.QInteger? || q.QBulkSize? || q.QArraySize?
    requires BadNumber(unread, f)
    ensures PartText(q) + unread != "" && RunFresh(PartText(q) + unread) == Fail(f)
  {
    NumberFails(unread, f);
    assert (PartText(q) + unread)[1..] == unread;
  }

  lemma BodyPartFails(line: string, unread: string, f: Failure)
    requires PartWellFormed(QBulkBody(line)) && BadPayload(ToInt32(LineValue(line)), unread, f)
    ensures PartText(QBulkBody(line)) + unread != "" && RunFresh(PartText(QBulkBody(line)) + unread) == Fail(f)
  {
    var buf := PartText(QBulkBody(line)) + unread;
    BodyBytes(line, unread);
    SizeThenBody(line, unread);
    hide Run, RunBody, BadPayload, ParseLine, NoCrlf;
    PayloadFails(ToInt32(LineValue(line)), unread, f);
  }

  lemma BodyBytes(line: string, unread: string)
    ensures var buf := PartText(QBulkBody(line)) + unread;
            buf != "" && buf[0] == '$' && buf[1..] == line + CRLF + unread
  {
    Assoc(['$'], line + CRLF, unread);
    assert PartText(QBulkBody(line)) == ['$'] + (line + CRLF);
    hide PartText;
    assert (['$'] + (line + CRLF + unread))[1..] == line + CRLF + unread;
  }

  lemma SizeThenBody(line: string, unread: string)
    requires IsLine(line) && ToInt32(LineValue(line)) != -1
    ensures Run(PBulkSize, line + CRLF + unread) == RunBody(ToInt32(LineValue(line)), unread)
  {
    TakeIntOf(line, unread);
    hide TakeInt, ParseLine, NoCrlf, RunBody;
  }

  lemma {:induction false} HopelessFails(q: Part, unread: string, f: Failure)
    requires PartWellFormed(q) && Hopeless(Some(q), unread, f)
    ensures PartText(q) + unread != "" && RunFresh(PartText(q) + unread) == Fail(f)
    decreases q
  {
    hide RunFresh, Run, PartText, BadNumber, BadPayload, Values, TextAll;
    match q
    case QInteger => NumberPartFails(q, unread, f);
    case QBulkSize => NumberPartFails(q, unread, f);
    case QArraySize => NumberPartFails(q, unread, f);
    case QBulkBody(line) => BodyPartFails(line, unread, f);
    case QRows(line, elems, current) =>
      RestFails(current, unread, f);
      RowsBefore(line, elems, current, unread);
      RowFails(LineValue(line), Values(elems), D.Prefix(current) + unread, f);
  }

  lemma {:induction false} RestFails(current: Option<Part>, unread: string, f: Failure)
    requires (current.Some? ==> PartWellFormed(current.value)) && Hopeless(current, unread, f)
    ensures D.Prefix(current) + unread != "" && RunFresh(D.Prefix(current) + unread) == Fail(f)
    decreases current
  {
    match current
    case None =>
      assert D.Prefix(current) + unread == unread;
      TypeKnown(unread[0]);
    case Some(c) => HopelessFails(c, unread, f);
  }

  /** The decoder after the text of the rows that are complete. */
  lemma RowsBefore(line: string, elems: seq<Wire>, current: Option<Part>, unread: string)
    requires PartWellFormed(QRows(line, elems, current))
    ensures var buf := PartText(QRows(line, elems, current)) + unread;
            && buf != ""
            && RunFresh(buf) == Run(PRows(LineValue(line), Values(elems), None), D.Prefix(current) + unread)
  {
    var after := TextAll(elems) + (D.Prefix(current) + unread);
    RowsBytes(line, elems, current, unread);
    AfterType(PartText(QRows(line, elems, current)) + unread, line + CRLF + after);
    hide TextAll, PartText, RunFresh, ParseLine, NoCrlf;
    ArrayHeader(line, after);
    RowsPartial(LineValue(line), [], elems, D.Prefix(current) + unread);
    assert [] + Values(elems) == Values(elems);
  }

  lemma Regroup(a: string, b: string, c: string, d: string, e: string, u: string)
    ensures a + (b + c + d + e) + u == a + (b + c + (d + (e + u)))
  {
    Assoc(a, b + c + d + e, u);
    Assoc(b + c + d, e, u);
    Assoc(b + c, d, e + u);
  }

  lemma RowsBytes(line: string, elems: seq<Wire>, current: Option<Part>, unread: string)
    ensures PartText(QRows(line, elems, current)) + unread
            == ['*'] + (line + CRLF + (TextAll(elems) + (D.Prefix(current) + unread)))
  {
    Regroup(['*'], line, CRLF, TextAll(elems), D.Prefix(current), unread);
    PayloadIs(line, elems, current);
    hide TextAll, PartPayload, D.Prefix;
  }

  lemma PayloadIs(line: string, elems: seq<Wire>, current: Option<Part>)
    ensures PartPayload(QRows(line, elems, current)) == line + CRLF + TextAll(elems) + D.Prefix(current)
  {}

  lemma AfterType(buf: string, after: string)
    requires buf == ['*'] + after
    ensures RunFresh(buf) == Run(PArraySize, after)
  {
    assert buf[1..] == after;
  }

  lemma RowFails(count: nat, rows: seq<Reply>, rest: string, f: Failure)
    requires rest != "" && RunFresh(rest) == Fail(f)
    ensures Run(PRows(count, rows, None), rest) == Fail(f)
  {}

  // ----- streams -----

  /** After the texts of `ws`, and of part of one more reply, the stream goes on in a way no reply can. */
  ghost predicate HopelessAfter(bytes: string, ws: seq<Wire>, f: Failure) {
    exists q: Option<Part>, unread: string ::
      && (q.Some? ==> PartWellFormed(q.value))
      && bytes == TextAll(ws) + (D.Prefix(q) + unread) && Hopeless(q, unread, f)
  }

  lemma {:induction false} DrainFails(ws: seq<Wire>, buffer: string, replies: seq<Reply>, f: Failure)
      returns (ws': seq<Wire>)
    requires AllWellFormed(ws) && D.Drain(Values(ws), None, buffer) == D.Dead(replies, f)
    ensures AllWellFormed(ws') && Values(ws') == replies && HopelessAfter(TextAll(ws) + buffer, ws', f)
    decreases |buffer|
  {
    ws' := ws;
    TypeKnown(buffer[0]);
    var s := RunFresh(buffer);
    if NewPart(buffer[0]).None? {
      assert D.Prefix(None) + buffer == buffer && Hopeless(None, buffer, f);
    } else {
      var q := NewPart(buffer[0]).value;
      assert PartText(q) + buffer[1..] == buffer;
      if s.Fail? {
        var q', rest := RunFails(q, buffer[1..], f);
        assert D.Prefix(Some(q')) + rest == buffer;
      } else if s.Done? {
        var w, _ := RunAccounts(q, buffer[1..]);
        TreeAppended(ws, w);
        Assoc(TextAll(ws), TextOf(w), s.rest);
        ws' := DrainFails(ws + [w], s.rest, replies, f);
      }
    }
  }

  lemma HopelessDrains(bytes: string, ws: seq<Wire>, f: Failure)
    ensures AllWellFormed(ws) && HopelessAfter(bytes, ws, f) ==> D.Feed(D.START, bytes) == D.Dead(Values(ws), f)
  {
    if AllWellFormed(ws) && HopelessAfter(bytes, ws, f) {
      var q: Option<Part>, unread: string :|
        && (q.Some? ==> PartWellFormed(q.value))
        && bytes == TextAll(ws) + (D.Prefix(q) + unread) && Hopeless(q, unread, f);
      RestFails(q, unread, f);
      D.DecodesTrees([], ws, D.Prefix(q) + unread);
      assert [] + Values(ws) == Values(ws) && "" + bytes == bytes;
    }
  }

  /**
    When decoding fails: however the stream is cut, the decoder has failed with `f`
    after delivering `replies` exactly when the stream consists of texts of these
    replies and then becomes hopeless in the way `f` names.
   */
  lemma FailsExactly(chunks: seq<string>, replies: seq<Reply>, f: Failure)
    ensures D.FeedAll(D.START, chunks) == D.Dead(replies, f) <==>
              exists ws :: AllWellFormed(ws) && Values(ws) == replies && HopelessAfter(D.Concat(chunks), ws, f)
  {
    var bytes := D.Concat(chunks);
    D.ChunkIndependence(D.START, chunks);
    if D.FeedAll(D.START, chunks) == D.Dead(replies, f) {
      assert "" + bytes == bytes && TextAll([]) + bytes == bytes;
      var ws := DrainFails([], bytes, replies, f);
    }
    if ws :| AllWellFormed(ws) && Values(ws) == replies && HopelessAfter(bytes, ws, f) {
      HopelessDrains(bytes, ws, f);
    }
  }

  /** The payload of five bytes is there, and is followed by CR and something else. */
  lemma WrongEndingExample()
    ensures D.Feed(D.START, "$5\r\nhello\ra") == D.Dead([], WrongEnding)
  {
    var q := QBulkBody("5");
    FiveIsLine();
    hide ParseLine, NoCrlf, IsLine, ToInt32, RunFresh;
    assert PartWellFormed(q) && BadPayload(5, "hello\ra", WrongEnding) && Hopeless(Some(q), "hello\ra", WrongEnding);
    FiveText();
    hide Hopeless, TextAll, D.Prefix, D.Feed;
    HopelessDrains("$5\r\nhello\ra", [], WrongEnding);
  }

  lemma FiveIsLine()
    ensures IsLine("5") && LineValue("5") == 5 && ToInt32(5) == 5
  {
    assert "5"[..0] == "" && AllDigits("5") && DecimalValue("5") == 5;
    DigitsAreLine("5");
  }

  lemma FiveText()
    ensures "$5\r\nhello\ra" == TextAll([]) + (D.Prefix(Some(QBulkBody("5"))) + "hello\ra")
    ensures AllWellFormed([]) && Values([]) == []
  {
    assert PartPayload(QBulkBody("5")) == "5\r\n";
  }
}
