// What the bits of a score stand for, and that ranks compare as the numbers do.
module Floats {
  import opened Ordering
  import opened Powers

  const FRACTION: nat := 0x10_0000_0000_0000

  // A non-negative float64 in units of the smallest positive one: 52 bits of
  // fraction below 11 bits of exponent, with an implicit leading one unless the
  // exponent is zero. Infinity is read as one more power of two.
  function Magnitude(m: nat): nat {
    var exponent, fraction := m / FRACTION, m % FRACTION;
    if exponent == 0 then fraction else (FRACTION + fraction) * Pow2(exponent - 1)
  }

  function Value(s: Score): int {
    var m: int := Magnitude(if s < SIGN then s else s - SIGN);
    if s < SIGN then m else -m
  }

  lemma {:induction false} Scales(a: nat, b: nat, c: nat)
    requires a < b && c > 0
    ensures a * c < b * c
  {
  }

  // Magnitudes in the same range of exponents.
  lemma {:induction false} SameExponent(e: nat, f: nat, g: nat)
    requires f < g < FRACTION
    ensures Magnitude(e * FRACTION + f) < Magnitude(e * FRACTION + g)
  {
    assert (e * FRACTION + f) / FRACTION == e && (e * FRACTION + f) % FRACTION == f;
    assert (e * FRACTION + g) / FRACTION == e && (e * FRACTION + g) % FRACTION == g;
    if e > 0 {
      Scales(FRACTION + f, FRACTION + g, Pow2(e - 1));
    }
  }

  // A number below a power of two and one that reaches it.
  lemma {:induction false} OtherExponent(d: nat, e: nat, f: nat, g: nat)
    requires d < e && f < FRACTION && g < FRACTION
    ensures Magnitude(d * FRACTION + f) < Magnitude(e * FRACTION + g)
  {
    assert (d * FRACTION + f) / FRACTION == d && (d * FRACTION + f) % FRACTION == f;
    assert (e * FRACTION + g) / FRACTION == e && (e * FRACTION + g) % FRACTION == g;
    Reaches(e, g);
    if d > 0 {
      Scales(FRACTION + f, 2 * FRACTION, Pow2(d - 1));
      Pow2Doubles(d - 1, e - 1);
      assert 2 * FRACTION * Pow2(d - 1) == FRACTION * (2 * Pow2(d - 1));
      AtMost(2 * Pow2(d - 1), Pow2(e - 1));
    }
  }

  lemma {:induction false} AtMost(a: nat, b: nat)
    requires a <= b
    ensures FRACTION * a <= FRACTION * b
  {
  }

  lemma {:induction false} Reaches(e: nat, g: nat)
    requires e > 0
    ensures (FRACTION + g) * Pow2(e - 1) >= FRACTION * Pow2(e - 1) >= FRACTION
  {
    AtMost(1, Pow2(e - 1));
    assert (FRACTION + g) * Pow2(e - 1) == FRACTION * Pow2(e - 1) + g * Pow2(e - 1);
  }

  lemma {:induction false} MagnitudeGrows(a: nat, b: nat)
    requires a < b
    ensures Magnitude(a) < Magnitude(b)
  {
    var d, e := a / FRACTION, b / FRACTION;
    assert a == d * FRACTION + a % FRACTION && b == e * FRACTION + b % FRACTION;
    if d == e {
      SameExponent(d, a % FRACTION, b % FRACTION);
    } else {
      OtherExponent(d, e, a % FRACTION, b % FRACTION);
    }
  }

  // Ranks compare as the numbers do that the bits stand for.
  lemma {:induction false} RankIsValue(a: Score, b: Score)
    ensures Rank(a) < Rank(b) <==> Value(a) < Value(b)
    ensures Rank(a) == Rank(b) <==> Value(a) == Value(b)
  {
    var m, n := if a < SIGN then a else a - SIGN, if b < SIGN then b else b - SIGN;
    assert Magnitude(0) == 0;
    if m > 0 {
      MagnitudeGrows(0, m);
    }
    if n > 0 {
      MagnitudeGrows(0, n);
    }
    if m < n {
      MagnitudeGrows(m, n);
    } else if n < m {
      MagnitudeGrows(n, m);
    }
  }
}
