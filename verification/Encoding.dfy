/** The standard RESP2 encoding of a reply, and exactly which replies survive a round trip. */
module Encoding {
  import opened Text
  import opened Resp
  import opened Grammar

  function Encode(r: Reply): string
    decreases r
  {
    match r
    case Simple(t) => "+" + t + CRLF
    case Error(t) => "-" + t + CRLF
    case Integer(v) => ":" + SignedDecimal(v) + CRLF
    case Bulk(t) => "$" + Decimal(|t|) + CRLF + t + CRLF
    case Null => "$-1" + CRLF
    case Array(rows) => "*" + Decimal(|rows|) + CRLF + EncodeAll(rows)
  }

  function EncodeAll(rs: seq<Reply>): string
    decreases rs
  {
    if rs == [] then "" else Encode(rs[0]) + EncodeAll(rs[1..])
  }

  predicate Encodable(r: Reply) {
    match r
    case Simple(t) => NoCrlf(t)
    case Error(t) => NoCrlf(t)
    case Integer(v) => -INT64_MAX <= v <= INT64_MAX
    case Bulk(t) => |t| <= BULK_MAX
    case Null => true
    case Array(rows) => |rows| <= INT64_MAX && AllEncodable(rows)
  }

  predicate AllEncodable(rs: seq<Reply>) { forall r | r in rs :: Encodable(r) }

  lemma DigitsAreLine(ds: string)
    requires AllDigits(ds) && ds != ""
    ensures NoCrlf(ds) && NoCrlf("-" + ds)
    ensures DecimalValue(ds) <= INT64_MAX ==>
              ParseLine(ds) == LineOk(DecimalValue(ds)) && ParseLine("-" + ds) == LineOk(-DecimalValue(ds))
    ensures DecimalValue(ds) > INT64_MAX ==>
              ParseLine(ds) == ParseLine("-" + ds) == LineBad(Undefined)
  {
    assert ds[..|ds|] == ds;
    assert ("-" + ds)[1..] == ds;
    DigitRunIs(ds, |ds|);
    assert forall i | 0 <= i < |ds| :: IsDigit(ds[i]) && ("-" + ds)[i + 1] == ds[i];
  }

  /**
    Integer exactness: an optional minus and at least one digit, leading zeros
    allowed, is read as the exact number if and only if its magnitude fits int64.
   */
  lemma IntegerLineExact(negative: bool, digits: string)
    requires digits != "" && AllDigits(digits)
    ensures var line := (if negative then "-" else "") + digits;
            var v := if negative then -DecimalValue(digits) else DecimalValue(digits);
            NoCrlf(line) && (ParseLine(line) == LineOk(v) <==> -INT64_MAX <= v <= INT64_MAX)
  {
    DigitsAreLine(digits);
    assert "" + digits == digits;
  }

  lemma SignedDecimalLine(v: int)
    ensures NoCrlf(SignedDecimal(v))
    ensures -INT64_MAX <= v <= INT64_MAX ==> ParseLine(SignedDecimal(v)) == LineOk(v)
  {
    DigitsAreLine(Decimal(if v < 0 then -v else v));
  }

  function Canon(r: Reply): Wire
    decreases r
  {
    match r
    case Simple(t) => WSimple(t)
    case Error(t) => WError(t)
    case Integer(v) => WInteger(SignedDecimal(v))
    case Bulk(t) => WBulk(Decimal(|t|), t)
    case Null => WNullBulk("-1")
    case Array(rows) => WArray(Decimal(|rows|), CanonAll(rows))
  }

  function CanonAll(rs: seq<Reply>): (ws: seq<Wire>)
    ensures |ws| == |rs|
    decreases rs
  {
    if rs == [] then [] else [Canon(rs[0])] + CanonAll(rs[1..])
  }

  lemma {:induction false} CanonText(r: Reply)
    ensures TextOf(Canon(r)) == Encode(r)
    decreases r
  {
    match r
    case Array(rows) =>
      CanonTextAll(rows);
      assert Payload(Canon(r)) == Decimal(|rows|) + CRLF + EncodeAll(rows);
    case _ =>
  }

  lemma {:induction false} CanonTextAll(rs: seq<Reply>)
    ensures TextAll(CanonAll(rs)) == EncodeAll(rs)
    decreases rs
  {
    if rs != [] {
      CanonText(rs[0]);
      CanonTextAll(rs[1..]);
      assert CanonAll(rs)[1..] == CanonAll(rs[1..]);
    }
  }

  lemma NullLine()
    ensures NoCrlf("-1") && ParseLine("-1") == LineOk(-1) && ToInt32(-1) == -1
  {
    SignedDecimalLine(-1);
    assert SignedDecimal(-1) == "-1";
  }

  lemma {:induction false} CanonWellFormed(r: Reply)
    requires Encodable(r)
    ensures WellFormed(Canon(r)) && Value(Canon(r)) == r
    decreases r
  {
    match r
    case Array(rows) =>
      SignedDecimalLine(|rows|);
      CanonAllWellFormed(rows);
    case Integer(v) => SignedDecimalLine(v);
    case Bulk(t) => SignedDecimalLine(|t|);
    case Null => NullLine();
    case _ =>
  }

  lemma {:induction false} CanonAllWellFormed(rs: seq<Reply>)
    requires AllEncodable(rs)
    ensures AllWellFormed(CanonAll(rs)) && Values(CanonAll(rs)) == rs
    decreases rs
  {
    if rs != [] {
      CanonWellFormed(rs[0]);
      CanonAllWellFormed(rs[1..]);
    }
  }

  /** Only encodable replies are ever produced. */
  lemma {:induction false} ValueEncodable(w: Wire)
    requires WellFormed(w)
    ensures Encodable(Value(w))
    decreases w
  {
    match w
    case WArray(line, elems) => ValuesEncodable(elems);
    case _ =>
  }

  lemma {:induction false} ValuesEncodable(ws: seq<Wire>)
    requires AllWellFormed(ws)
    ensures AllEncodable(Values(ws))
    decreases ws
  {
    if ws != [] {
      ValueEncodable(ws[0]);
      ValuesEncodable(ws[1..]);
    }
  }

  /** Decoding one reply from a fresh decoder, whose first byte picks the builder. */
  function RunFresh(buf: string): Step
    requires buf != ""
  {
    match CreateBuilder(buf[0])
    case None => Fail(InvalidType)
    case Some(p) => Run(p, buf[1..])
  }

  /**
    Round trip: the encoding of a reply followed by any bytes decodes to that
    reply and leaves those bytes, exactly for the encodable replies.
   */
  lemma RoundTrip(r: Reply, rest: string)
    ensures Encode(r) != ""
    ensures RunFresh(Encode(r) + rest) == Done(r, rest) <==> Encodable(r)
  {
    CanonText(r);
    var buf := Encode(r) + rest;
    if Encodable(r) {
      CanonWellFormed(r);
      assert buf[1..] == Payload(Canon(r)) + rest;
      DecodesWire(Canon(r), rest);
    }
    if RunFresh(buf) == Done(r, rest) {
      var q := NewPart(buf[0]).value;
      var w, _ := RunAccounts(q, buf[1..]);
      ValueEncodable(w);
    }
  }

  /** A null array is an alternative spelling of the null reply. */
  lemma NullArrayDecodes(rest: string)
    ensures RunFresh("*-1" + CRLF + rest) == Done(Null, rest)
  {
    NullLine();
    var w := WNullArray("-1");
    assert ("*-1" + CRLF + rest)[1..] == Payload(w) + rest;
    DecodesWire(w, rest);
  }
}
