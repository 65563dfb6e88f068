// Byte strings with the order Go gives them, and float64 scores with the order
// the comparison operators give them. Every sorted structure in the system
// (skip-list nodes, node identifiers, peers) is ordered by one of the two.
module Ordering {
  type Byte = x: int | 0 <= x < 256

  // A Go string or []byte.
  type Bytes = seq<Byte>

  // Lexicographic comparison of byte strings: Go's `a < b` on strings.
  predicate Lex(a: Bytes, b: Bytes)
    decreases |a|
  {
    if a == [] then b != []
    else if b == [] then false
    else a[0] < b[0] || (a[0] == b[0] && Lex(a[1..], b[1..]))
  }

  lemma {:induction false} LexIrreflexive(a: Bytes)
    ensures !Lex(a, a)
    decreases |a|
  {
    if a != [] {
      LexIrreflexive(a[1..]);
    }
  }

  lemma {:induction false} LexTransitive(a: Bytes, b: Bytes, c: Bytes)
    requires Lex(a, b) && Lex(b, c)
    ensures Lex(a, c)
    decreases |a|
  {
    if a != [] && a[0] == b[0] && b[0] == c[0] {
      LexTransitive(a[1..], b[1..], c[1..]);
    }
  }

  lemma {:induction false} LexTotal(a: Bytes, b: Bytes)
    ensures Lex(a, b) || a == b || Lex(b, a)
    decreases |a|
  {
    if a != [] && b != [] && a[0] == b[0] {
      LexTotal(a[1..], b[1..]);
      assert a == [a[0]] + a[1..] && b == [b[0]] + b[1..];
    }
  }

  lemma LexAsymmetric(a: Bytes, b: Bytes)
    requires Lex(a, b)
    ensures !Lex(b, a) && a != b
  {
    LexIrreflexive(a);
    if Lex(b, a) {
      LexTransitive(a, b, a);
    }
  }

  // One string comes before another if it is a proper beginning of it, or is
  // smaller at the first place where they differ.
  lemma {:induction false} LexExactly(a: Bytes, b: Bytes)
    ensures Lex(a, b) <==> exists i: nat :: Parted(a, b, i)
    decreases |a|
  {
    if a == [] || b == [] {
      if a == [] && b != [] {
        assert Parted(a, b, 0);
      }
    } else if a[0] != b[0] {
      if a[0] < b[0] {
        assert Parted(a, b, 0);
      }
    } else {
      LexExactly(a[1..], b[1..]);
      if i: nat :| Parted(a[1..], b[1..], i) {
        PartedTail(a, b, i + 1);
      }
      if i: nat :| Parted(a, b, i) {
        PartedTail(a, b, i);
      }
    }
  }

  ghost predicate Parted(a: Bytes, b: Bytes, i: nat) {
    i <= |a| && i < |b| && a[..i] == b[..i] && (i == |a| || a[i] < b[i])
  }

  lemma {:induction false} PartedTail(a: Bytes, b: Bytes, i: nat)
    requires a != [] && b != [] && a[0] == b[0]
    ensures Parted(a, b, i) ==> i > 0
    ensures i > 0 ==> (Parted(a, b, i) <==> Parted(a[1..], b[1..], i - 1))
  {
    if i > 0 && i <= |a| && i < |b| {
      assert a[..i] == [a[0]] + a[1..][..i - 1] && b[..i] == [b[0]] + b[1..][..i - 1];
      if a[..i] == b[..i] {
        assert a[..i][1..] == b[..i][1..];
        assert a[..i][1..] == a[1..][..i - 1] && b[..i][1..] == b[1..][..i - 1];
      }
    }
  }

  // ---------------------------------------------------------------- scores

  const SIGN: int := 0x8000_0000_0000_0000
  const INFINITY: int := 0x7FF0_0000_0000_0000

  // The 64 bits of a float64 that is not a NaN: sign bit, then the magnitude,
  // whose largest admissible pattern is infinity.
  type Score = b: nat | b <= INFINITY || SIGN <= b <= SIGN + INFINITY

  // Sign-magnitude reading of the bits. On non-NaN values `<` and `==` of
  // float64 are exactly `<` and `==` of this integer; both zeros read as 0.
  function Rank(s: Score): (r: int)
    ensures -INFINITY <= r <= INFINITY
  {
    if s < SIGN then s else -(s - SIGN)
  }
}
