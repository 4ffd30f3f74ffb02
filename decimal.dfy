/** Exact decimal numbers, standing in for `dec::Decimal` (src/dec.rs), which is
    an `f64` placeholder. A `Decimal` is the numeral as written: `units` scaled
    down by `scale` decimal places, so that nothing is ever rounded by binary
    floating point. Amounts that are summed are kept as `real` (its `Value`). */
module Dec {
  import opened Results
  import Text

  datatype Decimal = Decimal(units: int, scale: nat)

  function Pow10(n: nat): (r: nat)
    ensures r >= 1
  {
    if n == 0 then 1 else 10 * Pow10(n - 1)
  }

  /** The exact number a decimal numeral denotes. */
  function Value(d: Decimal): real
  {
    d.units as real / Pow10(d.scale) as real
  }

  function Abs(x: int): nat
  {
    if x < 0 then -x else x
  }

  predicate IsDigit(c: char)
  {
    '0' <= c <= '9'
  }

  predicate AllDigits(s: string)
  {
    forall k :: 0 <= k < |s| ==> IsDigit(s[k])
  }

  /** The number a string of decimal digits denotes (leading zeros allowed). */
  function DigitsValue(s: string): nat
    requires AllDigits(s)
  {
    if s == [] then 0 else 10 * DigitsValue(s[..|s| - 1]) + (s[|s| - 1] as int - '0' as int)
  }

  function DigitChar(k: nat): (c: char)
    requires k < 10
    ensures IsDigit(c) && c as int - '0' as int == k
  {
    ('0' as int + k) as char
  }

  /** Shortest decimal digits of `n`. */
  function NatToString(n: nat): (s: string)
    ensures 1 <= |s| && AllDigits(s) && DigitsValue(s) == n
  {
    if n < 10 then [DigitChar(n)]
    else
      var s := NatToString(n / 10) + [DigitChar(n % 10)];
      assert s[..|s| - 1] == NatToString(n / 10);
      s
  }

  lemma MulAtLeast(m: int, k: int)
    requires m > 0 && k >= 1
    ensures m * k >= m
  {
    if k > 1 {
      MulAtLeast(m, k - 1);
      assert m * k == m * (k - 1) + m;
    }
  }

  /** Quotient and remainder are the only pair that rebuilds `n`. */
  lemma DivModUnique(n: int, m: int, t: int, v: int)
    requires m > 0 && 0 <= v < m && n == m * t + v
    ensures n / m == t && n % m == v
  {
    var k := t - n / m;
    assert m * k == n % m - v;
    assert m * (-k) == -(m * k);
    if k >= 1 { MulAtLeast(m, k); }
    if k <= -1 { MulAtLeast(m, -k); }
  }

  lemma DivModStep(n: nat, p: nat)
    requires p >= 1
    ensures 10 * ((n / 10) % p) + n % 10 == n % (10 * p)
  {
    var q, r := n / 10, n % 10;
    var t, u := q / p, q % p;
    assert n == (10 * p) * t + (10 * u + r) by {
      assert n == 10 * q + r;
      assert q == p * t + u;
    }
    DivModUnique(n, 10 * p, t, 10 * u + r);
  }

  /** The last `w` decimal digits of `n`, zero-padded (`{:0w}` for `n < 10^w`). */
  function PadDigits(n: nat, w: nat): (s: string)
    ensures |s| == w && AllDigits(s) && DigitsValue(s) == n % Pow10(w)
  {
    if w == 0 then []
    else
      var s := PadDigits(n / 10, w - 1) + [DigitChar(n % 10)];
      assert s[..|s| - 1] == PadDigits(n / 10, w - 1);
      DivModStep(n, Pow10(w - 1));
      s
  }

  /** The units of a numeral whose whole part is `w` and whose `n` fractional digits read `f`. */
  function Shift(w: nat, f: nat, n: nat): nat
  {
    w * Pow10(n) + f
  }

  /** Digits, optionally with one decimal point; at least one digit. */
  function ParseUnsigned(s: string): Option<Decimal>
  {
    var i := Text.IndexOf(s, '.');
    var whole := s[..i];
    var frac := if i < |s| then s[i + 1..] else [];
    if AllDigits(whole) && AllDigits(frac) && (whole != [] || frac != []) then
      AllDigitsAppend(whole, frac);
      Some(Decimal(DigitsValue(whole + frac), |frac|))
    else None
  }

  /** `Decimal::try_from(&str)`: an optional sign, then a decimal numeral. */
  function ParseDecimal(s: string): Option<Decimal>
  {
    if |s| > 0 && (s[0] == '-' || s[0] == '+') then
      match ParseUnsigned(s[1..])
      case None => None
      case Some(d) => Some(if s[0] == '-' then Decimal(-d.units, d.scale) else d)
    else ParseUnsigned(s)
  }

  /** The numeral with exactly its own fractional digits (`Display` without precision). */
  function Show(d: Decimal): string
  {
    (if d.units < 0 then "-" else "") + ShowMagnitude(Abs(d.units), d.scale)
  }

  /** Digits of `m / 10^scale`: the whole part, then `scale` fractional digits. */
  function ShowMagnitude(m: nat, scale: nat): (s: string)
    ensures |s| > 0 && IsDigit(s[0])
  {
    var p := Pow10(scale);
    NatToString(Quot(m, p)) + (if scale == 0 then "" else "." + PadDigits(m % p, scale))
  }

  function Quot(m: nat, p: nat): (q: nat)
    requires p >= 1
  {
    m / p
  }

  /** Show writes nothing but digits, a minus sign and a decimal point. */
  predicate NumeralChars(s: string)
  {
    forall k :: 0 <= k < |s| ==> IsDigit(s[k]) || s[k] == '-' || s[k] == '.'
  }

  lemma ShowChars(d: Decimal)
    ensures NumeralChars(Show(d)) && |Show(d)| >= 1
  {
  }

  /** The parse of a whole part and a fractional part, as ParseUnsigned computes it. */
  lemma ParseParts(s: string, whole: string, frac: string)
    requires AllDigits(whole) && AllDigits(frac) && '.' !in whole && whole != []
    requires s == whole + (if frac == [] then "" else "." + frac)
    ensures AllDigits(whole + frac)
    ensures ParseUnsigned(s) == Some(Decimal(DigitsValue(whole + frac), |frac|))
  {
    var tail := if frac == [] then "" else "." + frac;
    Text.IndexOfAppend(whole, tail, '.');
    AllDigitsAppend(whole, frac);
    if frac != [] {
      Text.AroundJoint(whole, '.', frac);
    } else {
      assert s == whole + [];
    }
  }

  lemma AllDigitsAppend(a: string, b: string)
    requires AllDigits(a) && AllDigits(b)
    ensures AllDigits(a + b)
  {
    forall k | 0 <= k < |a + b| ensures IsDigit((a + b)[k]) {
      if k >= |a| { assert (a + b)[k] == b[k - |a|]; }
    }
  }

  /** Digits written after others shift them left by as many places. */
  lemma {:induction false} DigitsValueAppend(a: string, b: string)
    requires AllDigits(a) && AllDigits(b) && AllDigits(a + b)
    ensures DigitsValue(a + b) == Shift(DigitsValue(a), DigitsValue(b), |b|)
    decreases |b|
  {
    if b == [] {
      assert a + b == a;
    } else {
      var b' := b[..|b| - 1];
      assert (a + b)[..|a + b| - 1] == a + b';
      assert AllDigits(b') && AllDigits(a + b') by {
        forall k | 0 <= k < |b'| ensures IsDigit(b'[k]) { assert b'[k] == b[k]; }
        forall k | 0 <= k < |a + b'| ensures IsDigit((a + b')[k]) { assert (a + b')[k] == (a + b)[k]; }
      }
      DigitsValueAppend(a, b');
      ShiftStep(DigitsValue(a), DigitsValue(b'), b[|b| - 1] as int - '0' as int, |b'|);
    }
  }

  lemma ShiftStep(x: nat, y: nat, d: nat, n: nat)
    ensures 10 * Shift(x, y, n) + d == Shift(x, 10 * y + d, n + 1)
  {
    assert Pow10(n + 1) == 10 * Pow10(n);
    assert 10 * (x * Pow10(n)) == x * (10 * Pow10(n));
  }

  lemma ShiftQuot(m: nat, scale: nat)
    ensures Shift(Quot(m, Pow10(scale)), m % Pow10(scale), scale) == m
  {
  }

  lemma PadDigitsValue(m: nat, scale: nat)
    ensures DigitsValue(PadDigits(m % Pow10(scale), scale)) == m % Pow10(scale)
  {
    var p := Pow10(scale);
    DivModUnique(m % p, p, 0, m % p);
  }

  lemma NoPointInDigits(s: string)
    requires AllDigits(s)
    ensures '.' !in s
  {
    forall k | 0 <= k < |s| ensures s[k] != '.' {
      assert IsDigit(s[k]);
    }
  }

  lemma ParseShowMagnitude(m: nat, scale: nat)
    ensures ParseUnsigned(ShowMagnitude(m, scale)) == Some(Decimal(m, scale))
  {
    var p := Pow10(scale);
    var q := Quot(m, p);
    var whole := NatToString(q);
    var frac := PadDigits(m % p, scale);
    NoPointInDigits(whole);
    assert ShowMagnitude(m, scale) == whole + (if frac == [] then "" else "." + frac);
    ParseParts(ShowMagnitude(m, scale), whole, frac);
    DigitsValueAppend(whole, frac);
    PadDigitsValue(m, scale);
    ShiftQuot(m, scale);
  }

  /** Parsing what Show wrote gives back the same numeral, scale included. */
  lemma ParseShow(d: Decimal)
    ensures ParseDecimal(Show(d)) == Some(d)
  {
    var body := ShowMagnitude(Abs(d.units), d.scale);
    ParseShowMagnitude(Abs(d.units), d.scale);
    SignedNumeral(body);
    if d.units < 0 {
      assert Show(d) == "-" + body;
    } else {
      assert Show(d) == body;
    }
  }

  /** A numeral that starts with a digit reads the same without a sign, and
      negated after a minus sign. */
  lemma SignedNumeral(body: string)
    requires |body| > 0 && IsDigit(body[0])
    ensures ParseDecimal(body) == ParseUnsigned(body)
    ensures ParseDecimal("-" + body) == match ParseUnsigned(body)
                                        case None => None
                                        case Some(d) => Some(Decimal(-d.units, d.scale))
  {
    assert ("-" + body)[1..] == body;
  }

  /** `n / p` to the nearest integer, ties to the even neighbour, as Rust's
      `{:.N}` rounds a value that lies exactly half-way. */
  function DivRound(n: int, p: nat): int
    requires p >= 1
  {
    var f := n / p;
    var r := n % p;
    if 2 * r < p then f
    else if 2 * r > p then f + 1
    else if f % 2 == 0 then f
    else f + 1
  }

  /** DivRound is at most half a unit away, and even when exactly half-way. */
  lemma DivRoundNearest(n: int, p: nat)
    requires p >= 1
    ensures var q := DivRound(n, p);
            && 2 * Abs(n - q * p) <= p
            && (2 * Abs(n - q * p) == p ==> q % 2 == 0)
  {
    var f, r := n / p, n % p;
    assert n - f * p == r;
    assert n - (f + 1) * p == r - p;
  }

  /** The same number with exactly two decimals, rounded when it had more. */
  function Round2(d: Decimal): (r: Decimal)
    ensures r.scale == 2
  {
    if d.scale <= 2 then Decimal(d.units * Pow10(2 - d.scale), 2)
    else Decimal(DivRound(d.units, Pow10(d.scale - 2)), 2)
  }

  /** With at most two decimals nothing is rounded away. */
  lemma Round2Exact(d: Decimal)
    requires d.scale <= 2
    ensures Value(Round2(d)) == Value(d)
  {
    assert Pow10(2) == 100;
    if d.scale == 0 {
      assert Pow10(0) == 1;
    } else if d.scale == 1 {
      assert Pow10(1) == 10;
    }
  }

  /** `{:.2}`: the amount written with exactly two decimals. */
  function Format2(d: Decimal): string
  {
    Show(Round2(d))
  }

  /** Parsing a two-decimal rendering gives back the rounded amount. */
  lemma ParseFormat2(d: Decimal)
    ensures ParseDecimal(Format2(d)) == Some(Round2(d))
    ensures d.scale == 2 ==> Round2(d) == d
  {
    ParseShow(Round2(d));
  }
}
