/** JavaScript Numbers as far as amounts need them: the non-negative integers that a double holds, and the
    rounding of a numeral to the nearest of them, ties to an even significand. */
module Numbers {

  /** Significands have 53 bits. */
  const SIGNIFICANDS: nat := 0x20_0000_0000_0000

  function Pow2(k: nat): (p: nat)
    ensures p >= 1
  {
    if k == 0 then 1 else 2 * Pow2(k - 1)
  }

  /** n is a double, leaving the largest exponent aside. */
  ghost predicate IsDouble(n: nat) {
    exists m: nat, k: nat :: IsScaled(n, m, k)
  }

  predicate IsScaled(n: nat, m: nat, k: nat) {
    m < SIGNIFICANDS && n == m * Pow2(k)
  }

  // ----- Splitting off the bits that do not fit -----

  function Exponent(v: nat): nat {
    if v < SIGNIFICANDS then 0 else 1 + Exponent(v / 2)
  }

  function Significand(v: nat): nat {
    if v < SIGNIFICANDS then v else Significand(v / 2)
  }

  function Tail(v: nat): nat {
    if v < SIGNIFICANDS then 0 else 2 * Tail(v / 2) + v % 2
  }

  /** The nearest double, ties to even, with exponents unbounded. */
  function Round(v: nat): nat {
    var m, u, t := Significand(v), Pow2(Exponent(v)), Tail(v);
    if 2 * t < u || (2 * t == u && m % 2 == 0) then m * u else (m + 1) * u
  }

  lemma {:induction false} SplitIsExact(v: nat)
    ensures v == Significand(v) * Pow2(Exponent(v)) + Tail(v)
    ensures Significand(v) < SIGNIFICANDS && Tail(v) < Pow2(Exponent(v))
    ensures Exponent(v) > 0 ==> Significand(v) >= SIGNIFICANDS / 2
  {
    if v >= SIGNIFICANDS {
      SplitIsExact(v / 2);
      var m, p := Significand(v), Pow2(Exponent(v / 2));
      assert m * (2 * p) == 2 * (m * p);
    }
  }

  lemma Halves(m: nat, p: nat, t: nat)
    requires p >= 1
    ensures (m * (2 * p) + t) / 2 == m * p + t / 2 && m * (2 * p) + t >= 2 * m
  {
    assert m * (2 * p) == 2 * (m * p);
    AtLeast(m, p);
  }

  /** There is only one such split. */
  lemma {:induction false} SplitUnique(x: nat, m: nat, e: nat, t: nat)
    requires x == m * Pow2(e) + t && t < Pow2(e) && m < SIGNIFICANDS && (e == 0 || m >= SIGNIFICANDS / 2)
    ensures Significand(x) == m && Exponent(x) == e && Tail(x) == t
  {
    if e > 0 {
      Halves(m, Pow2(e - 1), t);
      SplitUnique(x / 2, m, e - 1, t / 2);
      SameParity(m, Pow2(e - 1), t);
    }
  }

  lemma SameParity(m: nat, p: nat, t: nat)
    ensures (m * (2 * p) + t) % 2 == t % 2
  {
    assert m * (2 * p) == 2 * (m * p);
  }

  lemma AtLeast(m: nat, p: nat)
    requires p >= 1
    ensures m * p >= m
  {
    assert m * p == m * (p - 1) + m;
  }

  lemma {:induction false} DoubleHasNoTail(n: nat, m: nat, k: nat)
    requires IsScaled(n, m, k)
    ensures Tail(n) == 0
    decreases k
  {
    if n >= SIGNIFICANDS {
      assert k > 0;
      assert n == 2 * (m * Pow2(k - 1));
      DoubleHasNoTail(n / 2, m, k - 1);
    }
  }

  // ----- Rounding -----

  lemma RoundIsDouble(v: nat)
    ensures IsDouble(Round(v))
  {
    SplitIsExact(v);
    var m, e := Significand(v), Exponent(v);
    if Round(v) == m * Pow2(e) {
      assert IsScaled(Round(v), m, e);
    } else if m + 1 < SIGNIFICANDS {
      assert IsScaled(Round(v), m + 1, e);
    } else {
      assert (m + 1) * Pow2(e) == (SIGNIFICANDS / 2) * (2 * Pow2(e));
      assert IsScaled(Round(v), SIGNIFICANDS / 2, e + 1);
    }
  }

  /** A number is its own rounding exactly when it is a double. */
  lemma RoundKeepsDoubles(n: nat)
    ensures Round(n) == n <==> IsDouble(n)
  {
    SplitIsExact(n);
    if IsDouble(n) {
      var m: nat, k: nat :| IsScaled(n, m, k);
      DoubleHasNoTail(n, m, k);
    } else {
      RoundIsDouble(n);
    }
  }

  lemma UpTo53Bits(n: nat)
    requires n <= SIGNIFICANDS
    ensures IsDouble(n)
  {
    if n < SIGNIFICANDS {
      assert IsScaled(n, n, 0);
    } else {
      assert IsScaled(n, SIGNIFICANDS / 2, 1);
    }
  }

  /** No double lies strictly between the two candidates for v. */
  lemma NothingBetween(v: nat, d: nat)
    requires IsDouble(d)
    ensures var m, u := Significand(v), Pow2(Exponent(v));
            m * u <= v < (m + 1) * u && (d <= m * u || d >= (m + 1) * u)
  {
    SplitIsExact(v);
    var m, e := Significand(v), Exponent(v);
    var u := Pow2(e);
    hide Pow2, Significand, Exponent, Tail;
    assert (m + 1) * u == m * u + u;
    if m * u < d < (m + 1) * u {
      SplitUnique(d, m, e, d - m * u);
      var j: nat, k: nat :| IsScaled(d, j, k);
      DoubleHasNoTail(d, j, k);
    }
  }

  function Distance(a: nat, b: nat): nat {
    if a < b then b - a else a - b
  }

  /** No double is nearer. */
  lemma RoundIsNearest(v: nat, d: nat)
    requires IsDouble(d)
    ensures Distance(Round(v), v) <= Distance(d, v)
  {
    NothingBetween(v, d);
    SplitIsExact(v);
  }

  /** Halfway between two doubles the one with the even significand is taken. */
  lemma TiesToEven(v: nat)
    requires 2 * Tail(v) == Pow2(Exponent(v))
    ensures exists q: nat :: Round(v) == 2 * q * Pow2(Exponent(v))
  {
    var m, u := Significand(v), Pow2(Exponent(v));
    var q := if m % 2 == 0 then m / 2 else (m + 1) / 2;
    assert Round(v) == 2 * q * u;
  }

  // ----- Overflow -----

  lemma {:induction false} PowSum(a: nat, b: nat)
    ensures Pow2(a + b) == Pow2(a) * Pow2(b)
  {
    if b > 0 {
      PowSum(a, b - 1);
      assert Pow2(a) * (2 * Pow2(b - 1)) == 2 * (Pow2(a) * Pow2(b - 1));
    }
  }

  lemma SignificandsIsPower()
    ensures Pow2(53) == SIGNIFICANDS
  {
    assert Pow2(10) == 1024;
    PowSum(10, 10);
    PowSum(20, 20);
    PowSum(40, 10);
    PowSum(50, 3);
    assert Pow2(3) == 8;
  }

  /** With exponents up to e the largest double is (2^53 - 1) * 2^e; rounding leaves this range from halfway
      to the next power of two. */
  lemma RoundsOut(v: nat, e: nat)
    requires e >= 1
    ensures Round(v) < Pow2(e + 53) <==> v < Pow2(e + 53) - Pow2(e - 1)
  {
    var p := Pow2(e - 1);
    var top := (SIGNIFICANDS - 1) * Pow2(e);
    TopOfRange(e);
    SplitIsExact(v);
    if top <= v < Pow2(e + 53) {
      SplitUnique(v, SIGNIFICANDS - 1, e, v - top);
    } else if v < top {
      assert IsScaled(top, SIGNIFICANDS - 1, e);
      NothingBetween(v, top);
    } else {
      assert IsScaled(Pow2(e + 53), 1, e + 53);
      NothingBetween(v, Pow2(e + 53));
    }
  }

  lemma TopOfRange(e: nat)
    requires e >= 1
    ensures Pow2(e + 53) == (SIGNIFICANDS - 1) * Pow2(e) + Pow2(e) && Pow2(e) == 2 * Pow2(e - 1)
    ensures Pow2(e + 53) - Pow2(e - 1) > SIGNIFICANDS
  {
    PowSum(53, e);
    SignificandsIsPower();
    AtLeast(SIGNIFICANDS - 1, Pow2(e - 1));
  }

  const LARGEST_EXPONENT: nat := 971

  /** What Number makes of digits that denote v: beyond the largest double it is Infinity. */
  datatype Number = Finite(value: nat) | Infinity

  function ToNumber(v: nat): Number {
    if Round(v) < Pow2(LARGEST_EXPONENT + 53) then Finite(Round(v)) else Infinity
  }

  /** Digits from 2^1024 - 2^970 on denote Infinity. */
  function Overflow(): nat {
    TopOfRange(LARGEST_EXPONENT);
    Pow2(LARGEST_EXPONENT + 53) - Pow2(LARGEST_EXPONENT - 1)
  }

  lemma InfinityFrom(v: nat)
    ensures ToNumber(v) == Infinity <==> v >= Overflow()
    ensures Overflow() == Pow2(1024) - Pow2(970)
    ensures v <= SIGNIFICANDS ==> v < Overflow()
  {
    hide Pow2;
    RoundsOut(v, LARGEST_EXPONENT);
    TopOfRange(LARGEST_EXPONENT);
  }
}
