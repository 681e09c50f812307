/** Line terminators and decimal numerals, the lexical layer of RESP2. */
module Text {

  datatype Option<+T> = None | Some(value: T)

  const CRLF: string := "\r\n"

  predicate CrlfAt(s: string, i: int) {
    0 <= i && i + 1 < |s| && s[i] == '\r' && s[i + 1] == '\n'
  }

  /** No line terminator starts anywhere in `s`; a lone trailing CR is allowed. */
  predicate NoCrlf(s: string) {
    forall i | 0 <= i < |s| :: !CrlfAt(s, i)
  }

  function FindCrlfFrom(s: string, i: nat): (r: Option<nat>)
    ensures r.Some? ==> i <= r.value && CrlfAt(s, r.value) && forall j | i <= j < r.value :: !CrlfAt(s, j)
    ensures r.None? ==> forall j | i <= j :: !CrlfAt(s, j)
    decreases |s| - i
  {
    if |s| <= i then None
    else if CrlfAt(s, i) then Some(i)
    else FindCrlfFrom(s, i + 1)
  }

  /** The position of the first CRLF: `std::string::find("\r\n")`. */
  function FindCrlf(s: string): (r: Option<nat>)
    ensures r.Some? ==> CrlfAt(s, r.value) && NoCrlf(s[..r.value]) && forall j | 0 <= j < r.value :: !CrlfAt(s, j)
    ensures r.None? ==> forall j | 0 <= j :: !CrlfAt(s, j)
  {
    var r := FindCrlfFrom(s, 0);
    assert r.Some? ==> forall i | 0 <= i < r.value :: CrlfAt(s[..r.value], i) ==> CrlfAt(s, i);
    r
  }

  lemma FindCrlfExtends(x: string, y: string)
    requires FindCrlf(x).Some?
    ensures FindCrlf(x + y) == FindCrlf(x)
  {
    var k := FindCrlf(x).value;
    assert forall j | 0 <= j <= k :: CrlfAt(x + y, j) == CrlfAt(x, j);
    assert CrlfAt(x + y, k);
  }

  lemma FindCrlfAfter(t: string, rest: string)
    requires NoCrlf(t)
    ensures FindCrlf(t + CRLF + rest) == Some(|t|)
    ensures (t + CRLF + rest)[..|t|] == t
    ensures (t + CRLF + rest)[|t| + 2..] == rest
  {
    var s := t + CRLF + rest;
    assert CrlfAt(s, |t|);
    forall j | 0 <= j < |t|
      ensures !CrlfAt(s, j)
    {
      assert !CrlfAt(t, j);
    }
  }

  lemma Assoc(a: string, b: string, c: string)
    ensures a + b + c == a + (b + c)
  {}

  // ----- decimal numerals -----

  predicate IsDigit(c: char) { '0' <= c <= '9' }

  predicate AllDigits(s: string) { forall i | 0 <= i < |s| :: IsDigit(s[i]) }

  function DigitValue(c: char): int { c as int - '0' as int }

  /** The number a digit string denotes; leading zeros are allowed and "" denotes 0. */
  function DecimalValue(s: string): (v: int)
    requires AllDigits(s)
    ensures 0 <= v
  {
    if s == "" then 0 else 10 * DecimalValue(s[..|s| - 1]) + DigitValue(s[|s| - 1])
  }

  /** How many leading characters are digits. */
  function DigitRun(s: string): (k: nat)
    ensures k <= |s| && AllDigits(s[..k])
    ensures k < |s| ==> !IsDigit(s[k])
  {
    if s == "" || !IsDigit(s[0]) then 0
    else
      var k := DigitRun(s[1..]);
      assert s[..k + 1] == [s[0]] + s[1..][..k];
      k + 1
  }

  lemma DigitRunIs(s: string, k: nat)
    requires k <= |s| && AllDigits(s[..k])
    requires k < |s| ==> !IsDigit(s[k])
    ensures DigitRun(s) == k
  {
    var d := DigitRun(s);
    assert forall i | 0 <= i < k :: IsDigit(s[..k][i]) && s[..k][i] == s[i];
    assert forall i | 0 <= i < d :: IsDigit(s[..d][i]) && s[..d][i] == s[i];
  }

  lemma {:induction false} DecimalValueMonotone(s: string, k: nat)
    requires AllDigits(s) && k <= |s|
    ensures AllDigits(s[..k]) && DecimalValue(s[..k]) <= DecimalValue(s)
  {
    if k == |s| {
      assert s[..k] == s;
    } else {
      DecimalValueMonotone(s[..|s| - 1], k);
      assert s[..|s| - 1][..k] == s[..k];
    }
  }

  /** The canonical numeral of `n`: `std::to_string`. */
  function Decimal(n: nat): (s: string)
    ensures s != "" && AllDigits(s) && DecimalValue(s) == n
  {
    var d := [(n % 10) as char + '0'];
    assert DecimalValue(d) == n % 10 by { assert d[..0] == ""; }
    if n < 10 then d
    else
      var s := Decimal(n / 10) + d;
      assert s[..|s| - 1] == Decimal(n / 10);
      s
  }

  function SignedDecimal(v: int): string {
    if v < 0 then "-" + Decimal(-v) else Decimal(v)
  }

  // ----- machine integers -----

  const INT64_MAX: int := 0x7fff_ffff_ffff_ffff
  const INT32_MAX: int := 0x7fff_ffff
  const TWO_TO_32: int := 0x1_0000_0000
  const TWO_TO_64: int := 0x1_0000_0000_0000_0000

  type Int64 = v: int | -0x8000_0000_0000_0000 <= v < 0x8000_0000_0000_0000

  type Int32 = v: int | -0x8000_0000 <= v < 0x8000_0000

  /** Conversion to a 32-bit `int`, which keeps the low 32 bits. */
  function ToInt32(v: int): (r: Int32)
    ensures r % TWO_TO_32 == v % TWO_TO_32
  {
    var u := v % TWO_TO_32;
    if u <= INT32_MAX then u else u - TWO_TO_32
  }
}
