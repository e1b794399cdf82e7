/**
 * The Java number conversions the decoder leans on: `Integer.parseInt`,
 * `Double.parseDouble` (on the decimal forms the pattern's groups can hold)
 * and `BitUtil.check` on a 32-bit `int`.
 */
module Numbers {
  import opened Wrappers

  /** Java's `int`. */
  newtype int32 = x: int | -0x8000_0000 <= x < 0x8000_0000

  predicate IsDigit(c: char) {
    '0' <= c <= '9'
  }

  predicate IsDigits(s: string) {
    forall i :: 0 <= i < |s| ==> IsDigit(s[i])
  }

  function DigitValue(c: char): (d: nat)
    requires IsDigit(c)
    ensures d < 10
  {
    c as int - '0' as int
  }

  function DigitChar(d: nat): (c: char)
    requires d < 10
    ensures IsDigit(c) && DigitValue(c) == d
  {
    ('0' as int + d) as char
  }

  /** The value of a string of decimal digits, most significant digit first. */
  function DigitsValue(s: string): nat
    requires IsDigits(s)
  {
    if s == [] then 0 else 10 * DigitsValue(s[..|s| - 1]) + DigitValue(s[|s| - 1])
  }

  /** The shortest decimal numeral of `n`, as `Integer.toString` writes it. */
  function Numeral(n: nat): (s: string)
    ensures IsDigits(s) && 1 <= |s|
    ensures s[0] == '0' ==> n == 0
  {
    if n < 10 then [DigitChar(n)] else Numeral(n / 10) + [DigitChar(n % 10)]
  }

  function Pow10(n: nat): (p: nat)
    ensures p >= 1
  {
    if n == 0 then 1 else 10 * Pow10(n - 1)
  }

  /**
   * `Integer.parseInt(s)`: an optional sign and at least one decimal digit,
   * whose value fits in an `int`; anything else is a NumberFormatException (None).
   */
  function ParseInt(s: string): (r: Option<int32>)
    ensures r.Some? ==> (IsDigits(s) && |s| > 0) || (|s| > 1 && (s[0] == '-' || s[0] == '+') && IsDigits(s[1..]))
    ensures IsDigits(s) && |s| > 0 ==> (r.Some? <==> DigitsValue(s) < 0x8000_0000)
    ensures r.Some? && IsDigits(s) ==> r.value as int == DigitsValue(s)
    ensures r.Some? && s[0] == '-' ==> r.value <= 0
    ensures r.Some? && s[0] != '-' ==> r.value >= 0
    ensures |s| > 1 && (s[0] == '-' || s[0] == '+') && IsDigits(s[1..]) ==>
      var v := if s[0] == '-' then -(DigitsValue(s[1..]) as int) else DigitsValue(s[1..]) as int;
      && (r.Some? <==> -0x8000_0000 <= v < 0x8000_0000)
      && (r.Some? ==> r.value as int == v)
  {
    var signed := |s| > 0 && (s[0] == '-' || s[0] == '+');
    var digits := if signed then s[1..] else s;
    if |digits| == 0 || !IsDigits(digits) then None
    else
      var v: int := if signed && s[0] == '-' then -(DigitsValue(digits) as int) else DigitsValue(digits);
      if -0x8000_0000 <= v < 0x8000_0000 then Some(v as int32) else None
  }

  /** The first position of `c` in `s`, or `|s|` when `c` does not occur. */
  function FirstIndex(s: string, c: char): (i: nat)
    ensures i <= |s|
    ensures i < |s| ==> s[i] == c
    ensures forall j :: 0 <= j < i ==> s[j] != c
  {
    if s == [] || s[0] == c then 0 else 1 + FirstIndex(s[1..], c)
  }

  /**
   * `Double.parseDouble(s)` for an optional sign, digits, and an optional
   * '.' followed by digits, with at least one digit; the value is the exact
   * decimal, not its nearest binary64.
   */
  function ParseDouble(s: string): (r: Option<real>)
    ensures r.Some? ==> |s| > 0
    ensures r.Some? && s[0] == '-' ==> r.value <= 0.0
    ensures r.Some? && s[0] != '-' ==> r.value >= 0.0
    ensures IsDigits(s) && |s| > 0 ==> r == Some(DigitsValue(s) as real)
    ensures |s| > 1 && (s[0] == '-' || s[0] == '+') && IsDigits(s[1..]) ==>
      r == Some(if s[0] == '-' then -(DigitsValue(s[1..]) as real) else DigitsValue(s[1..]) as real)
  {
    if |s| > 0 && (s[0] == '-' || s[0] == '+') then
      match ParseMagnitude(s[1..])
      case Some(m) => Some(if s[0] == '-' then -m else m)
      case None => None
    else ParseMagnitude(s)
  }

  /** Unsigned digits with an optional fraction after the first '.'. */
  function ParseMagnitude(body: string): (r: Option<real>)
    ensures r.Some? ==> r.value >= 0.0
    ensures IsDigits(body) && |body| > 0 ==> r == Some(DigitsValue(body) as real)
  {
    var dot := FirstIndex(body, '.');
    var whole := body[..dot];
    var fraction := if dot < |body| then body[dot + 1..] else [];
    assert IsDigits(body) ==> dot == |body| && whole == body && fraction == [];
    if IsDigits(whole) && IsDigits(fraction) && |whole| + |fraction| > 0 then
      Some(DecimalValue(whole, fraction))
    else None
  }

  /** The exact value of the numeral `whole.fraction`. */
  function DecimalValue(whole: string, fraction: string): (v: real)
    requires IsDigits(whole) && IsDigits(fraction)
    ensures v >= 0.0
    ensures fraction == [] ==> v == DigitsValue(whole) as real
  {
    DigitsValue(whole) as real + DigitsValue(fraction) as real / Pow10(|fraction|) as real
  }

  function Pow2(n: nat): (p: nat)
    ensures p >= 1
  {
    if n == 0 then 1 else 2 * Pow2(n - 1)
  }

  /**
   * `BitUtil.check(v, index)`, `(v & (1L << index)) != 0`: bit `index` of
   * the two's-complement word, read by shifting right arithmetically
   * `index` times and looking at the last bit (Dafny's `/` and `%` floor
   * for a positive divisor, as an arithmetic shift does).
   */
  function Check(v: int32, index: nat): (on: bool)
    requires index < 32
    ensures 0 <= v as int < Pow2(index) ==> !on
    ensures Pow2(index) <= v as int < 2 * Pow2(index) ==> on
    ensures -(Pow2(index) as int) <= v as int < 0 ==> on
    decreases index
  {
    if index == 0 then v % 2 == 1 else Check(v / 2, index - 1)
  }

  /** `Check` reads exactly bit `index` of the two's-complement word, for every word. */
  lemma {:induction false} CheckIsBit(v: int32, index: nat)
    requires index < 32
    ensures Check(v, index) <==> BitOf(v as int, index)
    decreases index
  {
    if index > 0 {
      CheckIsBit(v / 2, index - 1);
      DivHalf(v as int, Pow2(index - 1));
    }
  }

  /** Bit `index` of the two's-complement form of `x`: floor(x / 2^index) mod 2. */
  predicate BitOf(x: int, index: nat) {
    (x / Pow2(index)) % 2 == 1
  }

  /** A product with a factor of at least 1 in size is at least the other factor in size. */
  lemma MulSign(k: int, p: int)
    requires p >= 1
    ensures k >= 1 ==> k * p >= p
    ensures k <= -1 ==> k * p <= -p
  {
    if k >= 1 {
      assert k * p == (k - 1) * p + p;
    } else if k <= -1 {
      assert k * p == (k + 1) * p - p;
    }
  }

  /** Floor division is determined by any quotient and in-range remainder. */
  lemma DivUnique(x: int, p: int, a: int, b: int)
    requires p >= 1 && 0 <= b < p && x == a * p + b
    ensures x / p == a
  {
    var q := x / p;
    var m := x % p;
    assert (a - q) * p == m - b;
    MulSign(a - q, p);
  }

  /** Halving, then dividing by p, is dividing by 2p. */
  lemma DivHalf(v: int, p: nat)
    requires p >= 1
    ensures (v / 2) / p == v / (2 * p)
  {
    var q := v / (2 * p);
    var m := v % (2 * p);
    var qp := q * p;
    assert q * (2 * p) == 2 * qp;
    DivUnique(v, 2, qp + m / 2, m % 2);
    DivUnique(v / 2, p, q, m / 2);
  }

  // ---------------------------------------------------------------- lemmas

  lemma {:induction false} DigitsValueAppend(s: string, c: char)
    requires IsDigits(s) && IsDigit(c)
    ensures IsDigits(s + [c])
    ensures DigitsValue(s + [c]) == 10 * DigitsValue(s) + DigitValue(c)
  {
    assert (s + [c])[..|s|] == s;
  }

  /** Reading back the numeral of `n` gives `n`. */
  lemma {:induction false} NumeralValue(n: nat)
    ensures DigitsValue(Numeral(n)) == n
  {
    if n >= 10 {
      NumeralValue(n / 10);
      DigitsValueAppend(Numeral(n / 10), DigitChar(n % 10));
    } else {
      assert Numeral(n)[..0] == [];
    }
  }

  /** `Integer.parseInt(Integer.toString(n)) == n` for every `int` n, negative ones included. */
  lemma ParseIntNumeral(n: int32)
    ensures n >= 0 ==> ParseInt(Numeral(n as nat)) == Some(n)
    ensures n < 0 ==> ParseInt("-" + Numeral(-(n as int))) == Some(n)
  {
    if n >= 0 {
      NumeralValue(n as nat);
    } else {
      var s := "-" + Numeral(-(n as int));
      NumeralValue(-(n as int));
      assert s[1..] == Numeral(-(n as int));
    }
  }

  /** A lone sign is not a number: the `-?d*` groups can hold exactly that. */
  lemma ParseIntBareSign()
    ensures ParseInt("-") == None && ParseInt("") == None
    ensures ParseDouble("-") == None && ParseDouble("") == None
  {
  }

  lemma {:induction false} FirstIndexAfterDigits(whole: string, rest: string)
    requires IsDigits(whole) && |rest| > 0 && rest[0] == '.'
    ensures FirstIndex(whole + rest, '.') == |whole|
  {
    var s := whole + rest;
    assert s[|whole|] == '.';
  }

  lemma MagnitudeOfDecimal(whole: string, fraction: string)
    requires IsDigits(whole) && IsDigits(fraction) && |whole| > 0
    ensures ParseMagnitude(whole + ("." + fraction))
         == Some(DecimalValue(whole, fraction))
  {
    var s := whole + ("." + fraction);
    FirstIndexAfterDigits(whole, "." + fraction);
    assert s[..|whole|] == whole;
    assert s[|whole| + 1..] == fraction;
  }

  /** A `d+.d+` group (speed, course) always parses, to its exact decimal value. */
  lemma ParseDoubleDecimal(whole: string, fraction: string)
    requires IsDigits(whole) && IsDigits(fraction) && |whole| > 0
    ensures ParseDouble(whole + "." + fraction)
         == Some(DecimalValue(whole, fraction))
  {
    var s := whole + ("." + fraction);
    assert s == whole + "." + fraction;
    assert IsDigit(s[0]);
    MagnitudeOfDecimal(whole, fraction);
  }

  /** Words whose difference is a multiple of 2^n agree on bits 0 .. n - 1. */
  lemma {:induction false} CheckAgrees(v: int32, w: int32, index: nat, n: nat, t: int)
    requires index < n <= 32
    requires v as int - w as int == Pow2(n) * t
    ensures Check(v, index) == Check(w, index)
    decreases index
  {
    var p := Pow2(n - 1);
    var x := p * t;
    assert Pow2(n) == 2 * p;
    assert Pow2(n) * t == 2 * x;
    assert (v / 2) as int - (w / 2) as int == x;
    if index > 0 {
      CheckAgrees(v / 2, w / 2, index - 1, n - 1, t);
    }
  }

  /** Bits 9 and above never decide bits 0 .. 8. */
  lemma CheckLowBits(v: int32, w: int32, index: nat)
    requires v as int % 512 == w as int % 512
    requires index < 9
    ensures Check(v, index) == Check(w, index)
  {
    assert Pow2(9) == 512;
    CheckAgrees(v, w, index, 9, v as int / 512 - w as int / 512);
  }
}
