// Lines and numbers of the Redis serialization protocol, version 2.
module Wire {
  import opened Options
  import opened Ordering
  import opened Decimal

  const CR: Byte := 13
  const LF: Byte := 10
  const SPACE: Byte := 32
  const PLUS: Byte := 43
  const CRLF: Bytes := [CR, LF]

  // The position of the first line feed.
  function LfAt(b: Bytes): (r: Option<nat>)
    ensures r.Some? ==> r.value < |b|
  {
    if b == [] then None
    else if b[0] == LF then Some(0)
    else
      var r := LfAt(b[1..]);
      if r.None? then None else Some(r.value + 1)
  }

  lemma {:induction false} Associate(a: Bytes, b: Bytes, c: Bytes)
    ensures (a + b) + c == a + (b + c)
  {
  }

  ghost predicate OneLine(text: Bytes) {
    LF !in text
  }

  lemma {:induction false} LfAfter(text: Bytes, rest: Bytes)
    requires OneLine(text)
    ensures LfAt(text + [LF] + rest) == Some(|text|)
    decreases |text|
  {
    if text != [] {
      assert (text + [LF] + rest)[1..] == text[1..] + [LF] + rest;
      LfAfter(text[1..], rest);
    }
  }

  // strconv.Atoi on a 64-bit machine: an optional sign and digits.
  function Atoi(b: Bytes): (r: Option<int>)
    ensures r.Some? ==> MIN_INT64 <= r.value <= MAX_INT64
  {
    if b == [] then None
    else
      var digits := if b[0] == MINUS || b[0] == PLUS then b[1..] else b;
      if digits == [] || !AllDigits(digits) then None
      else
        var n: int := Number(digits);
        var v := if b[0] == MINUS then -n else n;
        if MIN_INT64 <= v <= MAX_INT64 then Some(v) else None
  }

  lemma {:induction false} AtoiReads(n: int)
    requires MIN_INT64 <= n <= MAX_INT64
    ensures Atoi(Format(n)) == Some(n) && OneLine(Format(n))
  {
    if n < 0 {
      var d := Digits(-n);
      assert ([MINUS] + d)[1..] == d;
    } else {
      assert IsDigit(Digits(n)[0]);
    }
  }

  lemma {:induction false} DigitsShort(n: nat)
    requires n < 1_0000_0000
    ensures |Digits(n)| <= 8
  {
    DigitsBelow(n, 8, 1_0000_0000);
  }

  function Pow10(k: nat): nat {
    if k == 0 then 1 else 10 * Pow10(k - 1)
  }

  lemma {:induction false} DigitsBelow(n: nat, k: nat, bound: nat)
    requires 1 <= k <= 8 && n < bound == Pow10(k)
    ensures |Digits(n)| <= k
    decreases k
  {
    if k > 1 && n >= 10 {
      DigitsBelow(n / 10, k - 1, Pow10(k - 1));
    }
  }

  // A line as the proxy reads it: at least three bytes up to the line feed,
  // the last two of which are dropped.
  function ReadLine(b: Bytes): (r: Option<(Byte, Bytes, Bytes)>)
    ensures r.Some? ==> |r.value.2| < |b|
  {
    var at := LfAt(b);
    if at.None? || at.value < 2 then None
    else Some((b[0], b[1..at.value - 1], b[at.value + 1..]))
  }

  lemma {:induction false} LineReads(prefix: Byte, text: Bytes, rest: Bytes)
    requires OneLine(text) && prefix != LF
    ensures ReadLine([prefix] + text + CRLF + rest) == Some((prefix, text, rest))
  {
    var b := [prefix] + text + CRLF + rest;
    var line := [prefix] + text + [CR];
    assert b == line + [LF] + rest;
    LfAfter(line, rest);
    assert b[1..|line| - 1] == text && b[|line| + 1..] == rest;
  }
}
