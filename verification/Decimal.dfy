// Base-10 integers as byte strings: what the engine writes, and the one form
// it reads back.
module Decimal {
  import opened Options
  import opened Ordering

  const MAX_INT64: int := 0x7FFF_FFFF_FFFF_FFFF
  const MIN_INT64: int := -MAX_INT64 - 1

  const ZERO: Byte := 48
  const MINUS: Byte := 45

  predicate IsDigit(b: Byte) {
    ZERO <= b <= ZERO + 9
  }

  predicate AllDigits(b: Bytes) {
    forall i :: 0 <= i < |b| ==> IsDigit(b[i])
  }

  // The number a string of digits stands for.
  function Number(b: Bytes): nat
    requires AllDigits(b)
  {
    if b == [] then 0 else 10 * Number(b[..|b| - 1]) + (b[|b| - 1] - ZERO)
  }

  function Digits(n: nat): (r: Bytes)
    ensures r != [] && AllDigits(r) && Number(r) == n
    ensures n > 0 ==> r[0] != ZERO
    ensures n == 0 ==> r == [ZERO]
  {
    if n < 10 then
      var r: Bytes := [ZERO + n];
      assert r[..|r| - 1] == [];
      r
    else
      var front := Digits(n / 10);
      var r := front + [ZERO + n % 10];
      assert r[..|r| - 1] == front;
      r
  }

  function Format(n: int): (r: Bytes)
    ensures r != []
  {
    if n < 0 then [MINUS] + Digits(-n) else Digits(n)
  }

  // parseInt64: "0", or an optional minus, a non-zero digit and more digits,
  // within the range of int64.
  function Parse(b: Bytes): (r: Option<int>)
    ensures r.Some? ==> MIN_INT64 <= r.value <= MAX_INT64
  {
    if b == [] then None
    else if b == [ZERO] then Some(0)
    else
      var i := if b[0] == MINUS then 1 else 0;
      if |b| == i || b[i] == ZERO || !AllDigits(b[i..]) then None
      else
        var n: int := Number(b[i..]);
        var v := if i == 1 then -n else n;
        if MIN_INT64 <= v <= MAX_INT64 then Some(v) else None
  }

  lemma {:induction false} LeadingDigit(b: Bytes)
    requires AllDigits(b) && b != [] && b[0] != ZERO
    ensures Number(b) > 0
    decreases |b|
  {
    if |b| > 1 {
      LeadingDigit(b[..|b| - 1]);
    }
  }

  // A number has one form without leading zeros.
  lemma {:induction false} DigitsUnique(b: Bytes)
    requires AllDigits(b) && b != [] && b[0] != ZERO
    ensures Digits(Number(b)) == b
    decreases |b|
  {
    var front, last := b[..|b| - 1], b[|b| - 1] - ZERO;
    LeadingDigit(b);
    if front == [] {
      assert b == [ZERO + last] && Number(front) == 0;
    } else {
      DigitsUnique(front);
      LeadingDigit(front);
      var n := Number(front);
      assert Number(b) == 10 * n + last && (10 * n + last) / 10 == n && (10 * n + last) % 10 == last;
      assert b == front + [ZERO + last];
    }
  }

  // The engine reads exactly what it writes: every int64 in its one form.
  lemma {:induction false} ParsesExactly(b: Bytes, v: int)
    ensures Parse(b) == Some(v) <==> MIN_INT64 <= v <= MAX_INT64 && b == Format(v)
  {
    if Parse(b) == Some(v) && b != [ZERO] {
      var i := if b[0] == MINUS then 1 else 0;
      DigitsUnique(b[i..]);
      LeadingDigit(b[i..]);
      assert b == b[..i] + b[i..];
    }
    if MIN_INT64 <= v <= MAX_INT64 && b == Format(v) && v != 0 {
      var i := if v < 0 then 1 else 0;
      var n := if v < 0 then -v else v;
      assert b[i..] == Digits(n) && b[i] == Digits(n)[0];
      assert v < 0 || IsDigit(b[0]);
    }
  }
}
