/** Literal coercion of tfx2json.ts (`emitLiteralValue`, lines 330-336) and the
    `Number.parseInt` that `emitIndex` (lines 291-293) applies to index text.
    Numbers are exact: the rounding of `parseInt`/`parseFloat` to IEEE-754
    doubles is not modelled.
 */
module Literals {
  import opened Wrappers
  import opened Json
  import opened Text

  function Pow10(n: nat): (r: nat)
    ensures r >= 1
  {
    if n == 0 then 1 else 10 * Pow10(n - 1)
  }

  /** `text` matches `^\d+\.\d+$`. The first `.` is the only one, since digits
      contain none. */
  predicate IsDecimalText(text: string) {
    match IndexOf(text, ".")
    case None => false
    case Some(k) => k > 0 && AllDigits(text[..k]) && k + 1 <= |text| && AllDigits(text[k + 1..])
  }

  /** The exact value of a `^\d+\.\d+$` numeral. */
  function DecimalValue(text: string): (r: real)
    requires IsDecimalText(text)
    ensures r >= 0.0
  {
    var k := IndexOf(text, ".").value;
    var frac := text[k + 1..];
    DigitsValue(text[..k]) as real + DigitsValue(frac) as real / Pow10(|frac|) as real
  }

  /** `emitLiteralValue`: `null`, then a whole number, then a decimal number,
      then a boolean; anything else (a quoted string among them) stays text. */
  function LiteralValue(text: string): (r: Value)
    ensures r == Null <==> text == "null"
    ensures r.Bool? <==> text == "true" || text == "false"
    ensures r.Bool? ==> (r.b <==> text == "true")
    ensures r.Num? <==> AllDigits(text) || IsDecimalText(text)
    ensures r.Num? ==> r.n.Finite? && r.n.r >= 0.0
    ensures r.Str? ==> r.s == text
    ensures !r.Arr? && !r.Obj?
  {
    if text == "null" then Null
    else if AllDigits(text) then Num(Finite(DigitsValue(text) as real))
    else if IsDecimalText(text) then Num(Finite(DecimalValue(text)))
    else if text == "true" || text == "false" then Bool(text == "true")
    else Str(text)
  }

  /** The numeral of a natural number coerces to that number. */
  lemma LiteralOfNumeral(n: nat)
    ensures LiteralValue(NatToDecimal(n)) == Num(Finite(n as real))
  {
    DecimalRoundTrip(n);
    assert NatToDecimal(n) != "null";
  }

  /** `whole.frac` coerces to the exact decimal fraction. */
  lemma {:induction false} LiteralOfDecimal(whole: nat, frac: string)
    requires AllDigits(frac)
    ensures LiteralValue(NatToDecimal(whole) + "." + frac)
         == Num(Finite(whole as real + DigitsValue(frac) as real / Pow10(|frac|) as real))
  {
    var w := NatToDecimal(whole);
    var t := w + "." + frac;
    assert t[|w|] == '.';
    assert !AllDigits(t);
    assert t[..|w|] == w;
    assert t[|w| + 1..] == frac;
    forall j: nat | j < |w|
      ensures !OccursAt(t, ".", j)
    {
      assert t[j..j + 1] == [w[j]];
    }
    assert OccursAt(t, ".", |w|);
    assert IndexOf(t, ".") == Some(|w|);
    DecimalRoundTrip(whole);
  }

  // Number.parseInt

  /** ECMAScript's StrWhiteSpaceChar: WhiteSpace and LineTerminator. */
  predicate IsStrWhiteSpace(c: char) {
    || c == '\t' || c == '\U{000B}' || c == '\U{000C}' || c == ' ' || c == '\U{00A0}' || c == '\U{FEFF}'
    || c == '\n' || c == '\r' || c == '\U{2028}' || c == '\U{2029}'
    // the rest of Unicode category Zs
    || c == '\U{1680}' || ('\U{2000}' <= c <= '\U{200A}') || c == '\U{202F}' || c == '\U{205F}' || c == '\U{3000}'
  }

  function TrimStart(s: string): (r: string)
    ensures |r| <= |s| && r == s[|s| - |r|..]
    ensures |r| > 0 ==> !IsStrWhiteSpace(r[0])
    ensures forall i :: 0 <= i < |s| - |r| ==> IsStrWhiteSpace(s[i])
  {
    if |s| > 0 && IsStrWhiteSpace(s[0]) then TrimStart(s[1..]) else s
  }

  /** The longest prefix of `s` made of digits of the given radix (10 or 16). */
  function RadixPrefix(s: string, hex: bool): (r: string)
    ensures r <= s
    ensures forall i :: 0 <= i < |r| ==> (if hex then IsHex(r[i]) else IsDigit(r[i]))
    ensures |r| < |s| ==> !(if hex then IsHex(s[|r|]) else IsDigit(s[|r|]))
  {
    if |s| > 0 && (if hex then IsHex(s[0]) else IsDigit(s[0]))
    then [s[0]] + RadixPrefix(s[1..], hex)
    else ""
  }

  function RadixValue(s: string, hex: bool): nat
    requires forall i :: 0 <= i < |s| ==> (if hex then IsHex(s[i]) else IsDigit(s[i]))
  {
    if |s| == 0 then 0
    else
      var d := if hex then HexValue(s[|s| - 1]) else DigitValue(s[|s| - 1]);
      RadixValue(s[..|s| - 1], hex) * (if hex then 16 else 10) + d
  }

  predicate HexPrefixed(u: string) {
    |u| >= 2 && u[0] == '0' && (u[1] == 'x' || u[1] == 'X')
  }

  /** The unsigned part of `parseInt`: base 16 after `0x`/`0X`, else base 10,
      reading the longest run of digits; `None` if there is none. */
  function Magnitude(u: string): (r: Option<nat>)
    ensures |u| > 0 && IsDigit(u[0]) && !HexPrefixed(u) ==> r.Some?
  {
    var hex := HexPrefixed(u);
    var digits := RadixPrefix(if hex then u[2..] else u, hex);
    if |digits| == 0 then None else Some(RadixValue(digits, hex))
  }

  /** `Number.parseInt(s)` with no radix: skip leading white space, read an
      optional sign, then the magnitude; `NaN` if there are no digits. */
  function ParseInt(s: string): (r: Number)
    ensures |s| > 0 && IsDigit(s[0]) && !HexPrefixed(s) ==> r.Finite?
  {
    var t := TrimStart(s);
    var m := if |t| > 0 && (t[0] == '-' || t[0] == '+') then Magnitude(t[1..]) else Magnitude(t);
    match m
    case None => NaN
    case Some(v) => Finite(if |t| > 0 && t[0] == '-' then -(v as real) else v as real)
  }

  /** `parseInt` reads back the numeral of `n`, and of `-n`. */
  lemma ParseIntOfNumeral(n: nat)
    ensures ParseInt(NatToDecimal(n)) == Finite(n as real)
    ensures ParseInt("-" + NatToDecimal(n)) == Finite(-(n as real))
  {
    NumeralUntrimmed(n);
    NegativeNumeralUntrimmed(n);
  }

  lemma NumeralUntrimmed(n: nat)
    ensures TrimStart(NatToDecimal(n)) == NatToDecimal(n)
    ensures ParseInt(NatToDecimal(n)) == Finite(n as real)
  {
    var d := NatToDecimal(n);
    MagnitudeOfNumeral(n);
    assert IsDigit(d[0]);
    assert !IsStrWhiteSpace(d[0]);
  }

  lemma NegativeNumeralUntrimmed(n: nat)
    ensures ParseInt("-" + NatToDecimal(n)) == Finite(-(n as real))
  {
    var d := NatToDecimal(n);
    MagnitudeOfNumeral(n);
    var t := "-" + d;
    assert t[0] == '-' && t[1..] == d;
    assert TrimStart(t) == t;
  }

  lemma MagnitudeOfNumeral(n: nat)
    ensures Magnitude(NatToDecimal(n)) == Some(n)
  {
    var d := NatToDecimal(n);
    DecimalRoundTrip(n);
    RadixPrefixAll(d);
    DigitsAgree(d);
    assert !HexPrefixed(d);
  }

  lemma {:induction false} RadixPrefixAll(d: string)
    requires forall i :: 0 <= i < |d| ==> IsDigit(d[i])
    ensures RadixPrefix(d, false) == d
  {
    if |d| > 0 {
      RadixPrefixAll(d[1..]);
      assert [d[0]] + d[1..] == d;
    }
  }

  lemma {:induction false} DigitsAgree(d: string)
    requires forall i :: 0 <= i < |d| ==> IsDigit(d[i])
    ensures RadixValue(d, false) == DigitsValue(d)
  {
    if |d| > 0 {
      DigitsAgree(d[..|d| - 1]);
    }
  }
}
