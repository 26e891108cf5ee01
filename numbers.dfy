/** Decimal text and numbers: the part of Python's `float(text)` that the
    bin payloads use, and the `:.1f` rendering the sensor publishes with.
    Levels are exact reals here, not binary doubles. */
module Numbers {
  import opened Wrappers
  import opened Strings

  predicate IsDigit(c: char) {
    '0' <= c <= '9'
  }

  predicate AllDigits(s: string) {
    forall k :: 0 <= k < |s| ==> IsDigit(s[k])
  }

  function DigitValue(c: char): nat
    requires IsDigit(c)
  {
    c as int - '0' as int
  }

  function DigitChar(d: nat): (c: char)
    requires d < 10
    ensures IsDigit(c) && DigitValue(c) == d
  {
    ('0' as int + d) as char
  }

  /** The value of a run of decimal digits, most significant first. */
  function DigitsValue(s: string): nat
    requires AllDigits(s)
    decreases |s|
  {
    if s == [] then 0 else DigitsValue(s[..|s| - 1]) * 10 + DigitValue(s[|s| - 1])
  }

  function Pow10(n: nat): (r: nat)
    ensures r >= 1
  {
    if n == 0 then 1 else 10 * Pow10(n - 1)
  }

  /** Python's `str(n)` for a natural number. */
  function ShowNat(n: nat): (s: string)
    ensures |s| >= 1 && AllDigits(s)
  {
    if n < 10 then [DigitChar(n)] else ShowNat(n / 10) + [DigitChar(n % 10)]
  }

  /** Reading back a shown number gives the number. */
  lemma {:induction false} ShowNatRoundTrip(n: nat)
    ensures DigitsValue(ShowNat(n)) == n
  {
    var s := ShowNat(n);
    if n >= 10 {
      ShowNatRoundTrip(n / 10);
      assert s[..|s| - 1] == ShowNat(n / 10);
    }
  }

  /** A four-digit number is shown with four characters. */
  lemma ShowNatFourDigits(n: nat)
    requires 1000 <= n <= 9999
    ensures |ShowNat(n)| == 4
  {
    assert ShowNat(n) == ShowNat(n / 10) + [DigitChar(n % 10)];
    assert ShowNat(n / 10) == ShowNat(n / 100) + [DigitChar(n / 10 % 10)];
    assert ShowNat(n / 100) == ShowNat(n / 1000) + [DigitChar(n / 100 % 10)];
  }

  /** The whitespace Python's `float` ignores around a number (ASCII part). */
  predicate IsSpace(c: char) {
    c == ' ' || c == '\t' || c == '\n' || c == '\r' || c == '\U{0B}' || c == '\U{0C}'
  }

  function TrimStart(s: string): string {
    if s != [] && IsSpace(s[0]) then TrimStart(s[1..]) else s
  }

  function TrimEnd(s: string): string {
    if s != [] && IsSpace(s[|s| - 1]) then TrimEnd(s[..|s| - 1]) else s
  }

  /** Python's `s.strip()` restricted to ASCII whitespace. */
  function Strip(s: string): string {
    TrimEnd(TrimStart(s))
  }

  /** An unsigned decimal: digits, optionally a point and more digits, with
      at least one digit in all. */
  function ParseUnsigned(t: string): Option<real> {
    match IndexOf(t, '.')
    case None =>
      if t != [] && AllDigits(t) then Some(DigitsValue(t) as real) else None
    case Some(i) =>
      var whole, frac := t[..i], t[i + 1..];
      if AllDigits(whole) && AllDigits(frac) && |whole| + |frac| > 0 then
        Some(DigitsValue(whole) as real + DigitsValue(frac) as real / Pow10(|frac|) as real)
      else None
  }

  /** Python's `float(s)` on plain decimal notation: surrounding whitespace is
      ignored and one sign is allowed; anything else is a `ValueError`, here
      `None`. */
  function ParseFloat(s: string): Option<real> {
    var t := Strip(s);
    if t != [] && t[0] == '-' then
      match ParseUnsigned(t[1..])
      case None => None
      case Some(v) => Some(-v)
    else if t != [] && t[0] == '+' then ParseUnsigned(t[1..])
    else ParseUnsigned(t)
  }

  /** The number of tenths `:.1f` shows for `x >= 0`: `x * 10` rounded to the
      nearest integer, ties to even. */
  function Tenths(x: real): (n: nat)
    requires x >= 0.0
    ensures -0.5 <= n as real - x * 10.0 <= 0.5
  {
    var y := x * 10.0;
    var f := y.Floor;
    var rest := y - f as real;
    if rest > 0.5 || (rest == 0.5 && f % 2 == 1) then f + 1 else f
  }

  /** `n` tenths written with one decimal, as `:.1f` writes them. */
  function Fixed1(n: nat): string {
    ShowNat(n / 10) + "." + [DigitChar(n % 10)]
  }

  /** Python's `f"{x:.1f}"`; a negative `x` keeps its sign even when it
      rounds to zero (`-0.0`). */
  function Format1(x: real): string {
    if x < 0.0 then "-" + Fixed1(Tenths(-x)) else Fixed1(Tenths(x))
  }

  /** The number `Format1(x)` denotes: `x` rounded to one decimal. */
  function Rounded1(x: real): (r: real)
    ensures -0.05 <= r - x <= 0.05
  {
    if x < 0.0 then -(Tenths(-x) as real / 10.0) else Tenths(x) as real / 10.0
  }

  lemma NoSpaceNoStrip(t: string)
    requires t != [] && !IsSpace(t[0]) && !IsSpace(t[|t| - 1])
    ensures Strip(t) == t
  {
  }

  lemma {:induction false} ParseFixed1(n: nat)
    ensures ParseUnsigned(Fixed1(n)) == Some(n as real / 10.0)
  {
    var whole, d := ShowNat(n / 10), DigitChar(n % 10);
    var t := Fixed1(n);
    assert '.' !in whole by {
      forall k | 0 <= k < |whole| ensures whole[k] != '.' {
        assert IsDigit(whole[k]);
      }
    }
    assert t == whole + ['.'] + [d];
    IndexOfAfter(whole, '.', [d]);
    assert t[..|whole|] == whole && t[|whole| + 1..] == [d];
    ShowNatRoundTrip(n / 10);
    assert [d][..0] == [];
    assert DigitsValue([d]) == n % 10;
    assert Pow10(1) == 10;
    TenthsSplit(n);
  }

  /** `n` tenths are `n / 10` units and `n % 10` tenths. */
  lemma TenthsSplit(n: nat)
    ensures (n / 10) as real + (n % 10) as real / 10.0 == n as real / 10.0
  {
    assert n == (n / 10) * 10 + n % 10;
  }

  /** What the sensor publishes is read back by `float` as the level rounded
      to one decimal. */
  lemma FormatParse(x: real)
    ensures ParseFloat(Format1(x)) == Some(Rounded1(x))
  {
    var n := if x < 0.0 then Tenths(-x) else Tenths(x);
    var body := Fixed1(n);
    ParseFixed1(n);
    assert body[0] == ShowNat(n / 10)[0];
    assert IsDigit(body[|body| - 1]);
    if x < 0.0 {
      var t := "-" + body;
      assert t[|t| - 1] == body[|body| - 1];
      NoSpaceNoStrip(t);
      assert t[1..] == body;
    } else {
      NoSpaceNoStrip(body);
    }
  }
}
