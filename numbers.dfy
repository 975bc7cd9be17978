/** Integer formatting and rounding as the analyzer's Python code performs them:
    `str(n)` / f-string interpolation of a non-negative integer, and the
    built-in `round`, which rounds half-way cases to the even neighbour. */
module Numbers {

  function DigitChar(d: nat): (c: char)
    requires d < 10
    ensures '0' <= c <= '9'
  {
    ('0' as int + d) as char
  }

  /** `str(n)` for a non-negative integer: its decimal digits, most significant first. */
  function NatToString(n: nat): (s: string)
    ensures s != []
    ensures forall i :: 0 <= i < |s| ==> '0' <= s[i] <= '9'
    ensures s[0] == '0' ==> n == 0
    decreases n
  {
    if n < 10 then [DigitChar(n)] else NatToString(n / 10) + [DigitChar(n % 10)]
  }

  /** The number a string of decimal digits denotes. */
  function DigitsValue(s: string): nat
    requires forall i :: 0 <= i < |s| ==> '0' <= s[i] <= '9'
  {
    if s == [] then 0
    else DigitsValue(s[..|s| - 1]) * 10 + (s[|s| - 1] as int - '0' as int)
  }

  /** Reading back the digits `str(n)` writes gives `n`: the rendering loses nothing. */
  lemma {:induction false} NatToStringRoundTrip(n: nat)
    ensures DigitsValue(NatToString(n)) == n
    decreases n
  {
    var s := NatToString(n);
    if n >= 10 {
      NatToStringRoundTrip(n / 10);
      assert s[..|s| - 1] == NatToString(n / 10);
    }
  }

  /** Distinct numbers are rendered as distinct strings. */
  lemma NatToStringInjective(m: nat, n: nat)
    requires NatToString(m) == NatToString(n)
    ensures m == n
  {
    NatToStringRoundTrip(m);
    NatToStringRoundTrip(n);
  }

  /** Python's `round(num / den)` on the exact quotient: the nearest integer, and
      of two equally near integers the even one. */
  function RoundHalfEven(num: int, den: int): (r: int)
    requires den > 0
    ensures IsRoundedHalfEven(num, den, r)
  {
    var q, rem := num / den, num % den;
    assert num == q * den + rem;
    if 2 * rem < den then q
    else if 2 * rem > den then q + 1
    else if q % 2 == 0 then q
    else q + 1
  }

  /** `r` is a nearest integer to `num / den`, the even one on a tie. */
  predicate IsRoundedHalfEven(num: int, den: int, r: int)
    requires den > 0
  {
    var e := num - r * den;
    -den <= 2 * e <= den && (2 * e == den || 2 * e == -den ==> r % 2 == 0)
  }

  lemma MulGap(lo: int, hi: int, c: int)
    requires lo < hi && c > 0
    ensures hi * c - lo * c >= c
    ensures hi * c - lo * c == c ==> hi == lo + 1
  {
    var d := hi - lo;
    assert hi * c - lo * c == d * c;
    if d >= 2 {
      assert d * c == (d - 1) * c + c;
      assert (d - 1) * c >= c;
    }
  }

  lemma {:induction false} RoundedHalfEvenUnique(num: int, den: int, r: int, r': int)
    requires den > 0
    requires IsRoundedHalfEven(num, den, r) && IsRoundedHalfEven(num, den, r')
    ensures r == r'
  {
    if r != r' {
      var lo, hi := if r < r' then r else r', if r < r' then r' else r;
      assert IsRoundedHalfEven(num, den, lo) && IsRoundedHalfEven(num, den, hi);
      MulGap(lo, hi, den);
    }
  }

  /** The two properties in `RoundHalfEven`'s contract leave no choice. */
  lemma RoundHalfEvenUnique(num: int, den: int, r: int)
    requires den > 0
    requires IsRoundedHalfEven(num, den, r)
    ensures r == RoundHalfEven(num, den)
  {
    RoundedHalfEvenUnique(num, den, r, RoundHalfEven(num, den));
  }

  lemma {:induction false} RoundedHalfEvenMonotonic(a: int, b: int, den: int, ra: int, rb: int)
    requires den > 0 && a <= b
    requires IsRoundedHalfEven(a, den, ra) && IsRoundedHalfEven(b, den, rb)
    ensures ra <= rb
  {
    if ra > rb {
      MulGap(rb, ra, den);
    }
  }

  /** Rounding never decreases when the numerator grows. */
  lemma RoundHalfEvenMonotonic(a: int, b: int, den: int)
    requires den > 0 && a <= b
    ensures RoundHalfEven(a, den) <= RoundHalfEven(b, den)
  {
    RoundedHalfEvenMonotonic(a, b, den, RoundHalfEven(a, den), RoundHalfEven(b, den));
  }

  /** A rounded percentage `round(100 * part / whole)` with `part <= whole` lies in [0, 100]. */
  lemma PercentInRange(part: nat, whole: nat)
    requires 0 < whole && part <= whole
    ensures 0 <= RoundHalfEven(100 * part, whole) <= 100
  {
    RoundHalfEvenMonotonic(0, 100 * part, whole);
    RoundHalfEvenMonotonic(100 * part, 100 * whole, whole);
    RoundHalfEvenUnique(0, whole, 0);
    assert IsRoundedHalfEven(100 * whole, whole, 100);
    RoundHalfEvenUnique(100 * whole, whole, 100);
  }
}
