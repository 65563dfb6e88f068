// Which stripe a key lives in, and the wrapping byte counter.
module Striping {
  import opened Powers

  // A 32-bit hash.
  type Hash = x: nat | x < 0x1_0000_0000

  // ------------------------------------------------------------ powers of two

  ghost predicate PowerOfTwo(n: nat) {
    exists k :: Pow2(k) == n
  }

  // Doubling from one reaches the least power of two that is not below n.
  method NextPowerOfTwo(n: nat) returns (p: nat)
    ensures PowerOfTwo(p) && p >= n
    ensures forall k :: Pow2(k) >= n ==> p <= Pow2(k)
  {
    p := 1;
    ghost var e := 0;
    while p < n
      invariant p == Pow2(e)
      invariant forall k :: 0 <= k < e ==> Pow2(k) < n
      decreases n - p
    {
      p := p * 2;
      e := e + 1;
      assert p == Pow2(e);
    }
    forall k | Pow2(k) >= n
      ensures p <= Pow2(k)
    {
      Pow2Grows(e, k);
    }
  }

  // ----------------------------------------------------------- the bit mask

  // Bitwise and, digit by digit.
  function And(a: nat, b: nat): nat {
    if a == 0 || b == 0 then 0 else (a % 2) * (b % 2) + 2 * And(a / 2, b / 2)
  }

  lemma {:induction false} HalfModulo(a: nat, m: nat)
    requires m > 0
    ensures a % (2 * m) == a % 2 + 2 * ((a / 2) % m)
  {
    var q, r := (a / 2) / m, (a / 2) % m;
    assert a == 2 * (m * q + r) + a % 2;
    assert a == (2 * m) * q + (a % 2 + 2 * r);
    Remainder(a, 2 * m, q, a % 2 + 2 * r);
  }

  lemma {:induction false} AtLeastOnce(m: nat, x: nat)
    requires x >= 1
    ensures m * x >= m
  {
    assert m * x == m + m * (x - 1);
  }

  lemma {:induction false} QuotientUnique(m: nat, q: nat, r: nat, p: nat, s: nat)
    requires m * q + r == m * p + s && r < m && s < m
    ensures q == p && r == s
  {
    if q > p {
      AtLeastOnce(m, q - p);
    } else if q < p {
      AtLeastOnce(m, p - q);
    }
  }

  lemma {:induction false} Remainder(a: nat, m: nat, q: nat, r: nat)
    requires a == m * q + r && r < m
    ensures a % m == r
  {
    QuotientUnique(m, q, r, a / m, a % m);
  }

  // Masking with one less than a power of two is taking the remainder.
  lemma {:induction false} MaskIsModulo(a: nat, k: nat)
    ensures And(a, Pow2(k) - 1) == a % Pow2(k)
    decreases k
  {
    if k > 0 {
      var m := Pow2(k - 1);
      MaskIsModulo(a / 2, k - 1);
      HalfModulo(a, m);
      assert (2 * m - 1) % 2 == 1 && (2 * m - 1) / 2 == m - 1;
    }
  }

  // ------------------------------------------------------- the byte counter

  const WORD: int := 0x1_0000_0000_0000_0000

  type Word = x: nat | x < WORD

  function AddUsed(used: Word, n: nat): Word {
    (used + n % WORD) % WORD
  }

  // Adds the two's complement of n.
  function SubUsed(used: Word, n: nat): Word {
    (used + (WORD - n % WORD) % WORD) % WORD
  }

  function AdjustUsed(used: Word, before: nat, after: nat): Word {
    if after >= before then AddUsed(used, after - before) else SubUsed(used, before - after)
  }

  // A sum below the width is not wrapped.
  lemma {:induction false} Unwrapped(total: nat)
    requires total < WORD
    ensures total % WORD == total
  {
    Remainder(total, WORD, 0, total);
  }

  lemma {:induction false} AddFollows(total: nat, n: nat)
    ensures AddUsed(total % WORD, n) == (total + n) % WORD
  {
    var q, r := total / WORD, total % WORD;
    var p, s := n / WORD, n % WORD;
    var carry := if r + s < WORD then 0 else 1;
    assert total + n == WORD * (q + p + carry) + (r + s - WORD * carry);
    Remainder(total + n, WORD, q + p + carry, r + s - WORD * carry);
    Remainder(r + s, WORD, carry, r + s - WORD * carry);
  }

  lemma {:induction false} SubFollows(total: nat, n: nat)
    requires n <= total
    ensures SubUsed(total % WORD, n) == (total - n) % WORD
  {
    var back := (WORD - n % WORD) % WORD;
    if n % WORD == 0 {
      Remainder(WORD, WORD, 1, 0);
    } else {
      Remainder(WORD - n % WORD, WORD, 0, WORD - n % WORD);
    }
    AddFollows(total - n, n);
    AddFollows(total, back);
    var rest := (total - n) % WORD;
    var q := n / WORD + (if n % WORD == 0 then 0 else 1);
    assert n + back == WORD * q;
    assert total + back == (total - n) + WORD * q;
    assert total - n == WORD * ((total - n) / WORD) + rest;
    Remainder(total + back, WORD, (total - n) / WORD + q, rest);
    Remainder(back, WORD, 0, back);
  }

  // The counter follows the exact sum modulo its width, even where an
  // intermediate difference wraps.
  lemma {:induction false} AdjustFollows(total: nat, before: nat, after: nat)
    requires before <= total
    ensures AdjustUsed(total % WORD, before, after) == (total - before + after) % WORD
  {
    if after >= before {
      AddFollows(total, after - before);
    } else {
      SubFollows(total, before - after);
    }
  }
}
