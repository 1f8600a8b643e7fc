/** Small shared vocabulary: optional values, results, and the decimal
    rendering and reading of numbers that the scanner, the printer and the
    interpreter's `stringify` share. */
module Common {

  datatype Option<+T> = None | Some(value: T)

  datatype Result<+T, +E> = Ok(value: T) | Err(error: E)

  /** Where the code departs from what it evidently means to do, the model
      carries both readings: the code as written and the intended one. */
  datatype Reading = AsWritten | Intended

  predicate IsDigit(c: char) {
    '0' <= c <= '9'
  }

  predicate AllDigits(s: string) {
    forall i | 0 <= i < |s| :: IsDigit(s[i])
  }

  function DigitChar(d: nat): (c: char)
    requires d < 10
    ensures IsDigit(c) && (c as int) - ('0' as int) == d
  {
    ('0' as int + d) as char
  }

  function DigitValue(c: char): (d: nat)
    requires IsDigit(c)
    ensures d < 10
  {
    (c as int) - ('0' as int)
  }

  /** Decimal text of a natural number, most significant digit first. */
  function NatToString(n: nat): (s: string)
    ensures |s| > 0 && AllDigits(s)
    ensures n < 10 <==> |s| == 1
  {
    if n < 10 then [DigitChar(n)] else NatToString(n / 10) + [DigitChar(n % 10)]
  }

  /** The value of a run of decimal digits (what JavaScript's `parseFloat`
      yields for a digit-only string). */
  function DigitsValue(s: string): nat
    requires AllDigits(s)
  {
    if |s| == 0 then 0 else DigitsValue(s[..|s| - 1]) * 10 + DigitValue(s[|s| - 1])
  }

  /** Rendering a natural number and reading it back is the identity. */
  lemma {:induction false} DigitsValueOfNatToString(n: nat)
    ensures DigitsValue(NatToString(n)) == n
  {
    if n >= 10 {
      var s := NatToString(n);
      assert s[..|s| - 1] == NatToString(n / 10);
      DigitsValueOfNatToString(n / 10);
    }
  }

  function IntToString(i: int): (s: string)
    ensures |s| > 0
    ensures i >= 0 ==> s == NatToString(i)
    ensures i < 0 ==> s == "-" + NatToString(-i)
  {
    if i < 0 then "-" + NatToString(-i) else NatToString(i)
  }

  function Pow10(k: nat): (p: nat)
    ensures p >= 1
  {
    if k == 0 then 1 else 10 * Pow10(k - 1)
  }

  /** At most `n` decimal digits of a fraction in [0, 1), truncated, with
      no trailing zeros when the expansion terminates earlier. */
  function FractionDigits(f: real, n: nat): (s: string)
    requires 0.0 <= f < 1.0
    ensures |s| <= n && AllDigits(s)
    decreases n
  {
    if f == 0.0 || n == 0 then ""
    else
      var scaled := f * 10.0;
      var d := scaled.Floor;
      assert 0 <= d < 10;
      [DigitChar(d)] + FractionDigits(scaled - d as real, n - 1)
  }

  /** Text of a number as the interpreter prints it: integral values
      without a fraction, others with up to 16 fraction digits. */
  function NumberText(r: real): (s: string)
    ensures |s| > 0
    ensures r == r.Floor as real ==> s == IntToString(r.Floor)
  {
    if r < 0.0 then
      var m := -r;
      assert r == r.Floor as real ==> m.Floor == -r.Floor;
      "-" + UnsignedText(m)
    else UnsignedText(r)
  }

  function UnsignedText(r: real): (s: string)
    requires r >= 0.0
    ensures |s| > 0
    ensures r == r.Floor as real ==> s == NatToString(r.Floor)
  {
    var ip := r.Floor;
    NatToString(ip) + (if r == ip as real then "" else "." + FractionDigits(r - ip as real, 16))
  }
}
