/**
  RESP2 as its specification has it, without reference to the decoder, and
  exactly where the decoder accepts more.
 */
module StrictGrammar {
  import opened Text
  import opened Resp
  import opened Grammar
  import opened Encoding
  import D = Decoder

  /** At least one decimal digit. */
  predicate IsNumeral(s: string) { s != "" && AllDigits(s) }

  /** The digits of an integer line, after an optional minus. */
  function Digits(line: string): string { if line != "" && line[0] == '-' then line[1..] else line }

  /** The trees of the specification: lengths and counts are numerals, and -1 is the only null. */
  predicate Strict(w: Wire) {
    match w
    case WSimple(t) => NoCrlf(t)
    case WError(t) => NoCrlf(t)
    case WInteger(line) => IsNumeral(Digits(line))
    case WBulk(line, body) => IsNumeral(line) && DecimalValue(line) == |body|
    case WNullBulk(line) => line == "-1"
    case WNullArray(line) => line == "-1"
    case WArray(line, elems) => IsNumeral(line) && DecimalValue(line) == |elems| && AllStrict(elems)
  }

  predicate AllStrict(ws: seq<Wire>) { forall w | w in ws :: Strict(w) }

  /** What a strict tree stands for. */
  function Meaning(w: Wire): Reply
    requires Strict(w)
  {
    match w
    case WSimple(t) => Simple(t)
    case WError(t) => Error(t)
    case WInteger(line) =>
      Integer(if line[0] == '-' then -DecimalValue(Digits(line)) else DecimalValue(Digits(line)))
    case WBulk(_, body) => Bulk(body)
    case WNullBulk(_) => Null
    case WNullArray(_) => Null
    case WArray(_, elems) => Array(Meanings(elems))
  }

  function Meanings(ws: seq<Wire>): seq<Reply>
    requires AllStrict(ws)
  {
    if ws == [] then [] else [Meaning(ws[0])] + Meanings(ws[1..])
  }

  /** The sizes the C++ integers can hold. */
  predicate Sized(w: Wire) {
    match w
    case WInteger(line) => AllDigits(Digits(line)) ==> DecimalValue(Digits(line)) <= INT64_MAX
    case WBulk(_, body) => |body| <= BULK_MAX
    case WArray(_, elems) => |elems| <= INT64_MAX && AllSized(elems)
    case _ => true
  }

  predicate AllSized(ws: seq<Wire>) { forall w | w in ws :: Sized(w) }

  lemma NumeralLine(line: string)
    requires IsNumeral(line)
    ensures IsLine(line) <==> DecimalValue(line) <= INT64_MAX
    ensures IsLine(line) ==> LineValue(line) == DecimalValue(line)
  {
    DigitsAreLine(line);
  }

  lemma IntegerLine(line: string)
    requires IsNumeral(Digits(line))
    ensures IsLine(line) <==> DecimalValue(Digits(line)) <= INT64_MAX
    ensures IsLine(line) ==>
              LineValue(line) == if line[0] == '-' then -DecimalValue(Digits(line)) else DecimalValue(Digits(line))
  {
    DigitsAreLine(Digits(line));
    if line[0] == '-' { assert line == "-" + Digits(line); }
  }

  /**
    Of the trees of the specification the decoder accepts exactly those whose sizes
    fit, and it gives them the meaning the specification gives them.
   */
  lemma {:induction false} StrictAccepted(w: Wire)
    requires Strict(w)
    ensures WellFormed(w) <==> Sized(w)
    ensures WellFormed(w) ==> Value(w) == Meaning(w)
    decreases w
  {
    match w
    case WInteger(line) => IntegerLine(line);
    case WBulk(line, body) => NumeralLine(line);
    case WNullBulk(line) => NullLine();
    case WNullArray(line) => NullLine();
    case WArray(line, elems) =>
      NumeralLine(line);
      StrictAllAccepted(elems);
    case _ =>
  }

  lemma {:induction false} StrictAllAccepted(ws: seq<Wire>)
    requires AllStrict(ws)
    ensures AllWellFormed(ws) <==> AllSized(ws)
    ensures AllWellFormed(ws) ==> Values(ws) == Meanings(ws)
    decreases ws
  {
    if ws != [] {
      assert forall w | w in ws[1..] :: w in ws;
      assert forall w | w in ws :: w == ws[0] || w in ws[1..];
      StrictAccepted(ws[0]);
      StrictAllAccepted(ws[1..]);
    }
  }

  // ----- what else the decoder accepts -----

  /** A line with no digit at all, which counts as 0. */
  predicate NoDigits(line: string) { line == "" || line == "-" }

  /** The trees the decoder accepts although the specification does not have them. */
  predicate Lenient(w: Wire) {
    match w
    case WInteger(line) => NoDigits(line)
    case WBulk(line, _) => line == "" || line[0] == '-' || (IsLine(line) && LineValue(line) > INT32_MAX)
    case WNullBulk(line) => line != "-1"
    case WNullArray(line) => line != "-1"
    case WArray(line, elems) => line == "" || line[0] == '-' || exists w | w in elems :: Lenient(w)
    case _ => false
  }

  lemma AcceptedLine(line: string)
    requires IsLine(line)
    ensures AllDigits(Digits(line))
    ensures line != "" && line[0] != '-' ==> IsNumeral(line) && LineValue(line) == DecimalValue(line)
  {
    var ds := Digits(line);
    assert ds[..|ds|] == ds;
    if line != "" && line[0] != '-' { DigitsAreLine(line); }
  }

  /** The 32-bit conversion changes a length exactly when it is past the largest int. */
  lemma LengthFits(v: int)
    requires 0 <= v
    ensures ToInt32(v) == v <==> v <= INT32_MAX
  {}

  /** An accepted tree is one of the specification exactly when it has none of the lenient forms in it. */
  lemma {:induction false} StrictExactly(w: Wire)
    requires WellFormed(w)
    ensures Strict(w) <==> !Lenient(w)
    decreases w
  {
    match w
    case WInteger(line) => AcceptedLine(line);
    case WBulk(line, body) =>
      AcceptedLine(line);
      if line != "" && line[0] != '-' { LengthFits(LineValue(line)); }
    case WArray(line, elems) =>
      AcceptedLine(line);
      forall e | e in elems
        ensures Strict(e) <==> !Lenient(e)
      {
        StrictExactly(e);
      }
    case _ =>
  }

  // ----- the decoder against the specification -----

  /** Completeness: any stream of strict trees that fit, cut anywhere, delivers exactly their meanings. */
  lemma DecodesStrict(ws: seq<Wire>, chunks: seq<string>)
    requires AllStrict(ws) && AllSized(ws) && D.Concat(chunks) == TextAll(ws)
    ensures D.FeedAll(D.START, chunks) == D.Live(Meanings(ws), None, "")
  {
    StrictAllAccepted(ws);
    D.ChunkIndependence(D.START, chunks);
    D.DecodesStream(ws);
  }

  /**
    Soundness: what was consumed is the text of accepted trees, whose values were
    delivered; they are trees of the specification, with its meanings, unless one
    of the lenient forms is among them.
   */
  lemma DecoderStrictlySound(chunks: seq<string>)
    ensures exists ws, q, unread ::
              && D.Explains(D.FeedAll(D.START, chunks), D.Concat(chunks), ws, q, unread)
              && (AllStrict(ws) <==> forall w | w in ws :: !Lenient(w))
              && (AllStrict(ws) ==> D.FeedAll(D.START, chunks).replies == Meanings(ws))
  {
    D.DecoderSound(chunks);
    var ws, q, unread :| D.Explains(D.FeedAll(D.START, chunks), D.Concat(chunks), ws, q, unread);
    forall w | w in ws
      ensures Strict(w) <==> !Lenient(w)
    {
      StrictExactly(w);
    }
    if AllStrict(ws) { StrictAllAccepted(ws); }
  }

  // ----- lenient inputs -----

  lemma TreeDecodes(w: Wire, buf: string, rest: string)
    requires WellFormed(w) && buf == [TypeByte(w)] + Payload(w) + rest
    ensures RunFresh(buf) == Done(Value(w), rest)
  {
    assert buf[1..] == Payload(w) + rest;
    DecodesWire(w, rest);
  }

  /** A length of 2^32 + 3 is read as 3. */
  lemma WrappedLength(rest: string)
    ensures RunFresh("$" + (Decimal(TWO_TO_32 + 3) + CRLF + "abc" + CRLF) + rest) == Done(Bulk("abc"), rest)
  {
    var line := Decimal(TWO_TO_32 + 3);
    DigitsAreLine(line);
    assert ToInt32(TWO_TO_32 + 3) == 3;
    hide Decimal, DecimalValue, RunFresh, NoCrlf, ParseLine, AllDigits, ToInt32;
    TreeDecodes(WBulk(line, "abc"), "$" + (line + CRLF + "abc" + CRLF) + rest, rest);
  }

  /** A length of 2^32 - 1 is read as -1, the null string. */
  lemma WrappedNull(rest: string)
    ensures RunFresh("$" + (Decimal(TWO_TO_32 - 1) + CRLF) + rest) == Done(Null, rest)
  {
    var line := Decimal(TWO_TO_32 - 1);
    DigitsAreLine(line);
    assert ToInt32(TWO_TO_32 - 1) == -1;
    hide Decimal, DecimalValue, RunFresh, NoCrlf, ParseLine, AllDigits, ToInt32;
    TreeDecodes(WNullBulk(line), "$" + (line + CRLF) + rest, rest);
  }

  /** A number without digits is read as 0. */
  lemma EmptyNumber(negative: bool, rest: string)
    ensures RunFresh(":" + ((if negative then "-" else "") + CRLF) + rest) == Done(Integer(0), rest)
  {
    var line := if negative then "-" else "";
    assert DigitRun("") == 0 && (negative ==> line[1..] == "");
    assert ParseLine(line) == LineOk(0) && NoCrlf(line);
    hide RunFresh, NoCrlf, ParseLine;
    TreeDecodes(WInteger(line), ":" + (line + CRLF) + rest, rest);
  }
}
