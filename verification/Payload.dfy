// The binary payloads of lists and sorted sets in a snapshot: a 32-bit count,
// then length-prefixed elements, each after its score where there is one.
module Payloads {
  import opened Options
  import opened Ordering
  import opened SkipLists
  import ZSets

  // --------------------------------------------------------- big-endian words

  function Pow256(k: nat): (r: nat)
    ensures r >= 1
  {
    if k == 0 then 1 else 256 * Pow256(k - 1)
  }

  function BigEndian(n: nat, k: nat): (r: Bytes)
    ensures |r| == k
  {
    if k == 0 then [] else BigEndian(n / 256, k - 1) + [n % 256]
  }

  function Word(b: Bytes): nat {
    if b == [] then 0 else 256 * Word(b[..|b| - 1]) + b[|b| - 1]
  }

  lemma {:induction false} WordBounded(b: Bytes)
    ensures Word(b) < Pow256(|b|)
    decreases |b|
  {
    if b != [] {
      WordBounded(b[..|b| - 1]);
    }
  }

  // Words and byte strings of one length stand for each other.
  lemma {:induction false} WordOfBigEndian(n: nat, k: nat)
    requires n < Pow256(k)
    ensures Word(BigEndian(n, k)) == n
  {
    if k > 0 {
      var r := BigEndian(n, k);
      assert r[..k - 1] == BigEndian(n / 256, k - 1);
      WordOfBigEndian(n / 256, k - 1);
    }
  }

  lemma {:induction false} BigEndianOfWord(b: Bytes)
    ensures BigEndian(Word(b), |b|) == b
    decreases |b|
  {
    if b != [] {
      var front, last := b[..|b| - 1], b[|b| - 1];
      BigEndianOfWord(front);
      assert (256 * Word(front) + last) / 256 == Word(front) && (256 * Word(front) + last) % 256 == last;
      assert b == front + [last];
    }
  }

  lemma Pow256Values()
    ensures Pow256(4) == 0x1_0000_0000 && Pow256(8) == 0x1_0000_0000_0000_0000
  {
    assert Pow256(1) == 256 && Pow256(2) == 0x1_0000 && Pow256(3) == 0x100_0000;
    assert Pow256(5) == 0x100_0000_0000 && Pow256(6) == 0x1_0000_0000_0000 && Pow256(7) == 0x100_0000_0000_0000;
  }

  const LIMIT32: nat := 0x1_0000_0000

  lemma {:induction false} Word32(n: nat)
    requires n < LIMIT32
    ensures Word(BigEndian(n, 4)) == n
  {
    Pow256Values();
    WordOfBigEndian(n, 4);
  }

  lemma {:induction false} Bytes32(b: Bytes)
    requires |b| == 4
    ensures BigEndian(Word(b), 4) == b && Word(b) < LIMIT32
  {
    Pow256Values();
    WordBounded(b);
    BigEndianOfWord(b);
  }

  // ------------------------------------------------------------------ fields

  // An element: a head of fixed width, and a body with its length before it.
  datatype Field = Field(head: Bytes, body: Bytes)

  function Encoded(f: Field): Bytes {
    f.head + BigEndian(|f.body|, 4) + f.body
  }

  function EncodedAll(fs: seq<Field>): Bytes {
    if fs == [] then [] else Encoded(fs[0]) + EncodedAll(fs[1..])
  }

  function Payload(fs: seq<Field>): Bytes {
    BigEndian(|fs|, 4) + EncodedAll(fs)
  }

  ghost predicate FieldFits(w: nat, f: Field) {
    |f.head| == w && |f.body| < LIMIT32
  }

  ghost predicate Fits(w: nat, fs: seq<Field>) {
    forall i :: 0 <= i < |fs| ==> FieldFits(w, fs[i])
  }

  // Reading the body at the very end of the input fails, even if it is empty.
  function ReadField(w: nat, b: Bytes): Option<(Field, Bytes)> {
    if |b| < w + 4 then None
    else
      var length, rest := Word(b[w..w + 4]), b[w + 4..];
      if length > |rest| || rest == [] then None else Some((Field(b[..w], rest[..length]), rest[length..]))
  }

  function ReadFields(w: nat, b: Bytes, n: nat): Option<(seq<Field>, Bytes)>
    decreases n
  {
    if n == 0 then Some(([], b))
    else
      var first := ReadField(w, b);
      if first.None? then None
      else
        var more := ReadFields(w, first.value.1, n - 1);
        if more.None? then None else Some(([first.value.0] + more.value.0, more.value.1))
  }

  function ReadPayload(w: nat, raw: Bytes): Option<seq<Field>> {
    if |raw| < 4 then None
    else
      var count, rest := Word(raw[..4]), raw[4..];
      if count > |rest| / (w + 4) then None
      else
        var got := ReadFields(w, rest, count);
        if got.None? || got.value.1 != [] then None else Some(got.value.0)
  }

  lemma {:induction false} EncodedParts(f: Field, t: Bytes)
    ensures var b, w := Encoded(f) + t, |f.head|;
      && |b| == w + 4 + |f.body| + |t| && b[..w] == f.head && b[w..w + 4] == BigEndian(|f.body|, 4)
      && b[w + 4..] == f.body + t
  {
    var b, w := Encoded(f) + t, |f.head|;
    assert b == f.head + (BigEndian(|f.body|, 4) + (f.body + t));
    assert b[w..] == BigEndian(|f.body|, 4) + (f.body + t);
  }

  lemma {:induction false} ReadsWritten(w: nat, f: Field, t: Bytes)
    requires FieldFits(w, f)
    ensures ReadField(w, Encoded(f) + t) == if f.body + t == [] then None else Some((f, t))
  {
    EncodedParts(f, t);
    Word32(|f.body|);
    assert (f.body + t)[..|f.body|] == f.body && (f.body + t)[|f.body|..] == t;
  }

  lemma {:induction false} WrittenAsRead(w: nat, b: Bytes)
    requires ReadField(w, b).Some?
    ensures var (f, t) := ReadField(w, b).value;
      FieldFits(w, f) && b == Encoded(f) + t && f.body + t != []
  {
    var (f, t) := ReadField(w, b).value;
    Bytes32(b[w..w + 4]);
    assert b[w + 4..] == f.body + t;
    assert b == b[..w] + b[w..w + 4] + b[w + 4..];
  }

  // Nothing is read at the end of the input.
  ghost predicate EndsWell(fs: seq<Field>, t: Bytes) {
    fs == [] || t != [] || fs[|fs| - 1].body != []
  }

  lemma {:induction false} SomethingEncoded(fs: seq<Field>)
    ensures EncodedAll(fs) == [] <==> fs == []
  {
    if fs != [] {
      assert |Encoded(fs[0])| >= 4;
    }
  }

  lemma {:induction false} EncodedFirst(fs: seq<Field>, t: Bytes)
    requires fs != []
    ensures EncodedAll(fs) + t == Encoded(fs[0]) + (EncodedAll(fs[1..]) + t)
  {
  }

  lemma {:induction false} ReadFirst(w: nat, b: Bytes, n: nat, f: Field, rest: Bytes)
    requires n > 0 && ReadField(w, b) == Some((f, rest))
    ensures ReadFields(w, b, n) ==
      if ReadFields(w, rest, n - 1).None? then None
      else Some(([f] + ReadFields(w, rest, n - 1).value.0, ReadFields(w, rest, n - 1).value.1))
  {
  }

  lemma {:induction false} FieldsWritten(w: nat, fs: seq<Field>, t: Bytes)
    requires Fits(w, fs)
    ensures ReadFields(w, EncodedAll(fs) + t, |fs|) == if EndsWell(fs, t) then Some((fs, t)) else None
    decreases |fs|
  {
    if fs == [] {
      assert EncodedAll(fs) + t == t;
    } else {
      var b, rest := EncodedAll(fs) + t, EncodedAll(fs[1..]) + t;
      EncodedFirst(fs, t);
      ReadsWritten(w, fs[0], rest);
      SomethingEncoded(fs[1..]);
      if fs[0].body + rest != [] {
        FieldsWritten(w, fs[1..], t);
        ReadFirst(w, b, |fs|, fs[0], rest);
        assert fs == [fs[0]] + fs[1..];
        assert fs[1..] == [] ==> rest == t;
      }
    }
  }

  lemma {:induction false} FieldBefore(w: nat, f: Field, fs: seq<Field>, t: Bytes)
    requires FieldFits(w, f) && Fits(w, fs) && EndsWell(fs, t) && f.body + (EncodedAll(fs) + t) != []
    ensures var all := [f] + fs;
      Fits(w, all) && EncodedAll(all) + t == Encoded(f) + (EncodedAll(fs) + t) && EndsWell(all, t)
  {
    var all := [f] + fs;
    assert all[1..] == fs && all[0] == f;
    assert fs != [] ==> all[|all| - 1] == fs[|fs| - 1];
  }

  lemma {:induction false} FieldsRead(w: nat, b: Bytes, n: nat)
    requires ReadFields(w, b, n).Some?
    ensures var (fs, t) := ReadFields(w, b, n).value;
      |fs| == n && Fits(w, fs) && b == EncodedAll(fs) + t && EndsWell(fs, t)
    decreases n
  {
    if n > 0 {
      var (f, t1) := ReadField(w, b).value;
      WrittenAsRead(w, b);
      FieldsRead(w, t1, n - 1);
      var (fs, t) := ReadFields(w, t1, n - 1).value;
      FieldBefore(w, f, fs, t);
    }
  }

  lemma {:induction false} LongEnough(w: nat, fs: seq<Field>)
    requires Fits(w, fs)
    ensures |EncodedAll(fs)| >= 4 * |fs|
    ensures w == 8 ==> |EncodedAll(fs)| >= 12 * |fs|
    decreases |fs|
  {
    if fs != [] {
      LongEnough(w, fs[1..]);
      assert |Encoded(fs[0])| >= w + 4;
    }
  }

  lemma {:induction false} PayloadRead(w: nat, raw: Bytes)
    requires ReadPayload(w, raw).Some?
    ensures var fs := ReadPayload(w, raw).value;
      |fs| < LIMIT32 && Fits(w, fs) && raw == Payload(fs) && EndsWell(fs, [])
  {
    Bytes32(raw[..4]);
    FieldsRead(w, raw[4..], Word(raw[..4]));
    var fs := ReadPayload(w, raw).value;
    assert raw == raw[..4] + raw[4..];
    assert EncodedAll(fs) + [] == EncodedAll(fs);
  }

  lemma {:induction false} PayloadWritten(w: nat, fs: seq<Field>)
    requires (w == 0 || w == 8) && |fs| < LIMIT32 && Fits(w, fs)
    ensures ReadPayload(w, Payload(fs)) == if EndsWell(fs, []) then Some(fs) else None
  {
    var raw := Payload(fs);
    assert raw[..4] == BigEndian(|fs|, 4) && raw[4..] == EncodedAll(fs);
    assert EncodedAll(fs) + [] == EncodedAll(fs);
    Word32(|fs|);
    LongEnough(w, fs);
    FieldsWritten(w, fs, []);
  }

  // A payload is read back exactly when it is the encoding of its elements and
  // the last of them has a body: nothing else is accepted, and an encoding
  // that ends in an empty body is refused.
  lemma {:induction false} ReadsExactly(w: nat, raw: Bytes, fs: seq<Field>)
    requires w == 0 || w == 8
    ensures ReadPayload(w, raw) == Some(fs) <==>
      |fs| < LIMIT32 && Fits(w, fs) && raw == Payload(fs) && EndsWell(fs, [])
  {
    if ReadPayload(w, raw) == Some(fs) {
      PayloadRead(w, raw);
    }
    if |fs| < LIMIT32 && Fits(w, fs) && raw == Payload(fs) {
      PayloadWritten(w, fs);
    }
  }

  // ------------------------------------------------------------------- lists

  function ListFields(items: seq<Bytes>): (r: seq<Field>)
    ensures |r| == |items| && forall i :: 0 <= i < |items| ==> r[i] == Field([], items[i])
  {
    seq(|items|, i requires 0 <= i < |items| => Field([], items[i]))
  }

  function Bodies(fs: seq<Field>): (r: seq<Bytes>)
    ensures |r| == |fs| && forall i :: 0 <= i < |fs| ==> r[i] == fs[i].body
  {
    seq(|fs|, i requires 0 <= i < |fs| => fs[i].body)
  }

  function EncodeList(items: seq<Bytes>): Option<Bytes> {
    if |items| < LIMIT32 && forall i :: 0 <= i < |items| ==> |items[i]| < LIMIT32 then Some(Payload(ListFields(items))) else None
  }

  function DecodeList(raw: Bytes): Option<seq<Bytes>> {
    var fs := ReadPayload(0, raw);
    if fs.None? then None else Some(Bodies(fs.value))
  }

  // A list comes back from its payload exactly when it is empty or does not
  // end in an empty element.
  lemma {:induction false} ListRoundTrip(items: seq<Bytes>, raw: Bytes)
    ensures DecodeList(raw) == Some(items) <==> EncodeList(items) == Some(raw) && (items == [] || items[|items| - 1] != [])
  {
    var fs := ListFields(items);
    ReadsExactly(0, raw, fs);
    if DecodeList(raw) == Some(items) {
      var got := ReadPayload(0, raw).value;
      ReadsExactly(0, raw, got);
      assert forall i :: 0 <= i < |got| ==> got[i] == Field([], items[i]);
      assert got == fs;
      assert forall i :: 0 <= i < |items| ==> FieldFits(0, fs[i]);
    }
    assert Bodies(fs) == items;
  }

  lemma {:induction false} ListComesBack(items: seq<Bytes>)
    requires EncodeList(items).Some?
    ensures DecodeList(EncodeList(items).value) == if items == [] || items[|items| - 1] != [] then Some(items) else None
  {
    var fs := ListFields(items);
    assert forall i :: 0 <= i < |fs| ==> FieldFits(0, fs[i]);
    PayloadWritten(0, fs);
    assert Bodies(fs) == items;
  }

  // ------------------------------------------------------------- sorted sets

  function ScoreFields(entries: seq<Entry>): (r: seq<Field>)
    ensures |r| == |entries|
    ensures forall i :: 0 <= i < |entries| ==> r[i] == Field(BigEndian(entries[i].score, 8), entries[i].member)
  {
    seq(|entries|, i requires 0 <= i < |entries| => Field(BigEndian(entries[i].score, 8), entries[i].member))
  }

  // The bits of a float64 that is not a NaN.
  predicate IsScore(n: nat) {
    n <= INFINITY || SIGN <= n <= SIGN + INFINITY
  }

  predicate AllScores(fs: seq<Field>) {
    forall i :: 0 <= i < |fs| ==> IsScore(Word(fs[i].head))
  }

  function Scored(fs: seq<Field>): (r: seq<Entry>)
    requires AllScores(fs)
    ensures |r| == |fs| && forall i :: 0 <= i < |fs| ==> r[i] == Entry(Word(fs[i].head), fs[i].body)
  {
    seq(|fs|, i requires 0 <= i < |fs| => Entry(Word(fs[i].head), fs[i].body))
  }

  function EncodeZSet(entries: seq<Entry>): Option<Bytes> {
    if |entries| < LIMIT32 && forall i :: 0 <= i < |entries| ==> |entries[i].member| < LIMIT32
    then Some(Payload(ScoreFields(entries))) else None
  }

  // The entries a payload holds; decoding adds them to an empty set in turn.
  function ReadEntries(raw: Bytes): Option<seq<Entry>> {
    var fs := ReadPayload(8, raw);
    if fs.None? || !AllScores(fs.value) then None else Some(Scored(fs.value))
  }

  function DecodeZSet(raw: Bytes): Option<ZSets.Index> {
    var entries := ReadEntries(raw);
    if entries.None? then None else Some(ZSets.PutAll(map[], entries.value))
  }

  lemma {:induction false} ScoreWord(s: Score)
    ensures Word(BigEndian(s, 8)) == s
  {
    Pow256Values();
    WordOfBigEndian(s, 8);
  }

  lemma {:induction false} ScoreFieldsBack(entries: seq<Entry>)
    ensures AllScores(ScoreFields(entries)) && Scored(ScoreFields(entries)) == entries
  {
    var fs := ScoreFields(entries);
    forall i | 0 <= i < |entries|
      ensures Word(fs[i].head) == entries[i].score && fs[i].body == entries[i].member
    {
      ScoreWord(entries[i].score);
    }
  }

  lemma {:induction false} FieldsOfScored(fs: seq<Field>)
    requires AllScores(fs) && Fits(8, fs)
    ensures ScoreFields(Scored(fs)) == fs
  {
    forall i | 0 <= i < |fs|
      ensures ScoreFields(Scored(fs))[i] == fs[i]
    {
      BigEndianOfWord(fs[i].head);
    }
  }

  lemma {:induction false} EntriesComeBack(entries: seq<Entry>)
    requires EncodeZSet(entries).Some?
    ensures ReadEntries(EncodeZSet(entries).value) ==
      if entries == [] || entries[|entries| - 1].member != [] then Some(entries) else None
  {
    var fs := ScoreFields(entries);
    assert forall i :: 0 <= i < |fs| ==> FieldFits(8, fs[i]);
    PayloadWritten(8, fs);
    ScoreFieldsBack(entries);
  }

  lemma {:induction false} EntriesAsRead(raw: Bytes)
    requires ReadEntries(raw).Some?
    ensures var entries := ReadEntries(raw).value;
      EncodeZSet(entries) == Some(raw) && (entries == [] || entries[|entries| - 1].member != [])
  {
    var got := ReadPayload(8, raw).value;
    PayloadRead(8, raw);
    FieldsOfScored(got);
    assert forall i :: 0 <= i < |got| ==> FieldFits(8, got[i]);
  }

  // The same for entries with scores; NaN patterns are refused.
  lemma {:induction false} EntriesRoundTrip(entries: seq<Entry>, raw: Bytes)
    ensures ReadEntries(raw) == Some(entries) <==>
      EncodeZSet(entries) == Some(raw) && (entries == [] || entries[|entries| - 1].member != [])
  {
    if ReadEntries(raw) == Some(entries) {
      EntriesAsRead(raw);
    }
    if EncodeZSet(entries) == Some(raw) {
      EntriesComeBack(entries);
    }
  }

  lemma {:induction false} AddingRebuilds(entries: seq<Entry>, n: nat, i: nat)
    requires StrictlySorted(entries) && i < n <= |entries|
    requires forall j, k :: 0 <= j < k < |entries| ==> entries[j].member != entries[k].member
    ensures var r := ZSets.PutAll(map[], entries[..n]);
      entries[i].member in r && r[entries[i].member] == entries[i].score
  {
    var e := entries[n - 1];
    ZSets.PutAllStep(map[], entries, n - 1);
    if i < n - 1 {
      AddingRebuilds(entries, n - 1, i);
    } else {
      ZSets.PutAllKeys(map[], entries[..n - 1]);
    }
  }

  lemma {:induction false} MembersDiffer(index: ZSets.Index, entries: seq<Entry>, j: nat, k: nat)
    requires ZSets.Agree(index, entries) && StrictlySorted(entries) && j < k < |entries|
    ensures entries[j].member != entries[k].member
  {
    BeforeTotal(entries[j], entries[k]);
  }

  lemma {:induction false} RebuildsScore(index: ZSets.Index, entries: seq<Entry>, m: Bytes)
    requires ZSets.Agree(index, entries) && StrictlySorted(entries) && m in index
    ensures m in ZSets.PutAll(map[], entries) && ZSets.PutAll(map[], entries)[m] == index[m]
  {
    forall j, k | 0 <= j < k < |entries|
      ensures entries[j].member != entries[k].member
    {
      MembersDiffer(index, entries, j, k);
    }
    var i :| 0 <= i < |entries| && entries[i] == Entry(index[m], m);
    AddingRebuilds(entries, |entries|, i);
    assert entries[..|entries|] == entries;
  }

  // Adding the members of a sorted set one by one rebuilds its index.
  lemma {:induction false} RebuildsIndex(index: ZSets.Index, entries: seq<Entry>)
    requires ZSets.Agree(index, entries) && StrictlySorted(entries)
    ensures ZSets.PutAll(map[], entries) == index
  {
    var r := ZSets.PutAll(map[], entries);
    forall m | m in index
      ensures m in r && r[m] == index[m]
    {
      RebuildsScore(index, entries, m);
    }
    forall m | m in r
      ensures m in index
    {
      ZSets.PutAllKeys(map[], entries);
    }
  }

  // A sorted set comes back from the payload of its ordered members exactly
  // when it is empty or its last member is not the empty string.
  lemma {:induction false} ZSetRoundTrip(index: ZSets.Index, entries: seq<Entry>, raw: Bytes)
    requires ZSets.Agree(index, entries) && StrictlySorted(entries) && EncodeZSet(entries) == Some(raw)
    ensures DecodeZSet(raw) == if entries == [] || entries[|entries| - 1].member != [] then Some(index) else None
  {
    EntriesComeBack(entries);
    RebuildsIndex(index, entries);
  }

  // ------------------------------------------------------ the reader loops

  // What a loop has read so far, before what is still to come.
  ghost function Joined(fs: seq<Field>, got: Option<(seq<Field>, Bytes)>): Option<(seq<Field>, Bytes)> {
    if got.None? then None else Some((fs + got.value.0, got.value.1))
  }

  lemma {:induction false} BodiesStep(fs: seq<Field>, f: Field)
    ensures Bodies(fs + [f]) == Bodies(fs) + [f.body]
  {
  }

  lemma {:induction false} JoinedFirst(got: Option<(seq<Field>, Bytes)>)
    ensures Joined([], got) == got
  {
    if got.Some? {
      assert [] + got.value.0 == got.value.0;
    }
  }

  // Reading n fields from b has come to fs, with m fields to be read from t.
  ghost predicate Reading(w: nat, b: Bytes, n: nat, fs: seq<Field>, t: Bytes, m: nat) {
    ReadFields(w, b, n) == Joined(fs, ReadFields(w, t, m))
  }

  lemma {:induction false} ReadingStep(w: nat, b: Bytes, n: nat, fs: seq<Field>, t: Bytes, m: nat, f: Field, rest: Bytes)
    requires Reading(w, b, n, fs, t, m) && m > 0 && ReadField(w, t) == Some((f, rest))
    ensures Reading(w, b, n, fs + [f], rest, m - 1)
  {
    var more := ReadFields(w, rest, m - 1);
    if more.Some? {
      assert fs + ([f] + more.value.0) == (fs + [f]) + more.value.0;
    }
  }

  lemma {:induction false} ReadingEnds(w: nat, b: Bytes, n: nat, fs: seq<Field>, t: Bytes)
    requires Reading(w, b, n, fs, t, 0)
    ensures ReadFields(w, b, n) == Some((fs, t))
  {
    assert fs + [] == fs;
  }

  // Reads a length and that many bytes from position pos.
  method ReadLengthPrefixed(raw: Bytes, pos: nat) returns (value: Option<Bytes>, next: nat)
    requires pos <= |raw|
    ensures next <= |raw|
    ensures value.None? ==> ReadField(0, raw[pos..]).None?
    ensures value.Some? ==> ReadField(0, raw[pos..]) == Some((Field([], value.value), raw[next..]))
  {
    if |raw| - pos < 4 {
      return None, pos;
    }
    var length := Word(raw[pos..pos + 4]);
    next := pos + 4;
    assert raw[pos..][0..4] == raw[pos..pos + 4] && raw[pos..][4..] == raw[next..];
    if length > |raw| - next {
      return None, pos;
    }
    if next >= |raw| {
      return None, pos;
    }
    value := Some(raw[next..next + length]);
    assert raw[next..][..length] == raw[next..next + length] && raw[next..][length..] == raw[next + length..];
    next := next + length;
  }

  lemma {:induction false} ReadingStops(w: nat, b: Bytes, n: nat, fs: seq<Field>, t: Bytes, m: nat)
    requires Reading(w, b, n, fs, t, m) && m > 0 && ReadField(w, t).None?
    ensures ReadFields(w, b, n).None?
  {
  }

  // Reads count elements from position 4.
  method ReadItems(raw: Bytes, count: nat) returns (items: Option<seq<Bytes>>, pos: nat, ghost fs: seq<Field>)
    requires |raw| >= 4
    ensures pos <= |raw|
    ensures items.None? ==> ReadFields(0, raw[4..], count).None?
    ensures items.Some? ==> ReadFields(0, raw[4..], count) == Some((fs, raw[pos..])) && items.value == Bodies(fs)
  {
    pos := 4;
    var got: seq<Bytes> := [];
    fs := [];
    JoinedFirst(ReadFields(0, raw[4..], count));
    var i := 0;
    while i < count
      invariant 0 <= i <= count && 0 <= pos <= |raw| && got == Bodies(fs)
      invariant Reading(0, raw[4..], count, fs, raw[pos..], count - i)
    {
      var item, next := ReadLengthPrefixed(raw, pos);
      if item.None? {
        ReadingStops(0, raw[4..], count, fs, raw[pos..], count - i);
        return None, pos, fs;
      }
      ghost var f := Field([], item.value);
      ReadingStep(0, raw[4..], count, fs, raw[pos..], count - i, f, raw[next..]);
      BodiesStep(fs, f);
      got := got + [item.value];
      fs := fs + [f];
      pos := next;
      i := i + 1;
    }
    ReadingEnds(0, raw[4..], count, fs, raw[pos..]);
    return Some(got), pos, fs;
  }

  method DecodeListValue(raw: Bytes) returns (r: Option<seq<Bytes>>)
    ensures r == DecodeList(raw)
  {
    if |raw| < 4 {
      return None;
    }
    var count := Word(raw[..4]);
    if count > (|raw| - 4) / 4 {
      return None;
    }
    var items, pos, fs := ReadItems(raw, count);
    if items.None? || |raw| - pos != 0 {
      return None;
    }
    return items;
  }

  // The payload is written up to field i.
  ghost predicate Writing(out: Bytes, fs: seq<Field>, i: nat)
    requires i <= |fs|
  {
    out + EncodedAll(fs[i..]) == Payload(fs)
  }

  lemma {:induction false} WritingStep(out: Bytes, fs: seq<Field>, i: nat)
    requires i < |fs| && Writing(out, fs, i)
    ensures Writing(out + fs[i].head + BigEndian(|fs[i].body|, 4) + fs[i].body, fs, i + 1)
  {
    assert fs[i..][0] == fs[i] && fs[i..][1..] == fs[i + 1..];
    var rest := EncodedAll(fs[i + 1..]);
    assert out + (Encoded(fs[i]) + rest) == (out + fs[i].head + BigEndian(|fs[i].body|, 4) + fs[i].body) + rest;
  }

  lemma {:induction false} WritingEnds(out: Bytes, fs: seq<Field>)
    requires Writing(out, fs, |fs|)
    ensures out == Payload(fs)
  {
    assert out + [] == out;
  }

  // Writes the count and then every element.
  method EncodeListValue(items: seq<Bytes>) returns (r: Option<Bytes>)
    ensures r == EncodeList(items)
  {
    if |items| >= LIMIT32 {
      return None;
    }
    var out := BigEndian(|items|, 4);
    for i := 0 to |items|
      invariant forall j :: 0 <= j < i ==> |items[j]| < LIMIT32
      invariant Writing(out, ListFields(items), i)
    {
      if |items[i]| >= LIMIT32 {
        return None;
      }
      WritingStep(out, ListFields(items), i);
      assert out + [] == out;
      out := out + BigEndian(|items[i]|, 4) + items[i];
    }
    WritingEnds(out, ListFields(items));
    return Some(out);
  }

  // Nothing usable: no field, or one whose score is a NaN.
  ghost predicate Unusable(b: Bytes) {
    ReadField(8, b).Some? ==> !IsScore(Word(ReadField(8, b).value.0.head))
  }

  // Reads a score and a member from position pos.
  method ReadScored(raw: Bytes, pos: nat) returns (e: Option<Entry>, next: nat, ghost f: Field)
    requires pos <= |raw|
    ensures next <= |raw|
    ensures e.None? ==> Unusable(raw[pos..])
    ensures e.Some? ==>
      && ReadField(8, raw[pos..]) == Some((f, raw[next..])) && IsScore(Word(f.head))
      && e.value == Entry(Word(f.head), f.body)
  {
    f := Field([], []);
    if |raw| - pos < 8 {
      return None, pos, f;
    }
    assert raw[pos..][8..] == raw[pos + 8..] && raw[pos..][..8] == raw[pos..pos + 8];
    var bits := Word(raw[pos..pos + 8]);
    ScoreThenMember(raw[pos..]);
    if !IsScore(bits) {
      return None, pos, f;
    }
    var member, after := ReadLengthPrefixed(raw, pos + 8);
    if member.None? {
      return None, pos, f;
    }
    return Some(Entry(bits, member.value)), after, Field(raw[pos..pos + 8], member.value);
  }

  lemma {:induction false} ScoreThenMember(b: Bytes)
    requires |b| >= 8
    ensures ReadField(8, b) ==
      if ReadField(0, b[8..]).None? then None
      else Some((Field(b[..8], ReadField(0, b[8..]).value.0.body), ReadField(0, b[8..]).value.1))
  {
    if |b| >= 12 {
      assert b[8..][0..4] == b[8..12] && b[8..][4..] == b[12..];
    }
  }

  // A loop that stops at a field it cannot use has no result.
  ghost predicate Usable(got: Option<(seq<Field>, Bytes)>) {
    got.Some? && AllScores(got.value.0)
  }

  lemma {:induction false} UnusableStops(b: Bytes, n: nat, fs: seq<Field>, t: Bytes, m: nat)
    requires Reading(8, b, n, fs, t, m) && m > 0 && Unusable(t)
    ensures !Usable(ReadFields(8, b, n))
  {
    if ReadFields(8, t, m).Some? {
      var f, more := ReadField(8, t).value.0, ReadFields(8, t, m).value.0;
      assert (fs + more)[|fs|] == f;
    }
  }

  // The index that adding these fields in turn builds.
  ghost predicate Builds(index: ZSets.Index, fs: seq<Field>) {
    AllScores(fs) && index == ZSets.PutAll(map[], Scored(fs))
  }

  lemma {:induction false} BuildsStep(index: ZSets.Index, fs: seq<Field>, f: Field)
    requires Builds(index, fs) && IsScore(Word(f.head))
    ensures Builds(ZSets.Put(index, Word(f.head), f.body), fs + [f])
  {
    var all := Scored(fs + [f]);
    assert all[..|fs|] == Scored(fs);
  }

  // Reads one more member and adds it.
  method AddMember(raw: Bytes, pos: nat, built: ZSets.Index, ghost count: nat, ghost fs: seq<Field>, ghost left: nat)
    returns (index: Option<ZSets.Index>, next: nat, ghost more: seq<Field>)
    requires 4 <= |raw| && pos <= |raw| && left > 0 && Builds(built, fs) && Reading(8, raw[4..], count, fs, raw[pos..], left)
    ensures next <= |raw|
    ensures index.None? ==> !Usable(ReadFields(8, raw[4..], count))
    ensures index.Some? ==> Builds(index.value, more) && Reading(8, raw[4..], count, more, raw[next..], left - 1)
  {
    var e, after, f := ReadScored(raw, pos);
    if e.None? {
      UnusableStops(raw[4..], count, fs, raw[pos..], left);
      return None, pos, fs;
    }
    ReadingStep(8, raw[4..], count, fs, raw[pos..], left, f, raw[after..]);
    BuildsStep(built, fs, f);
    return Some(ZSets.Put(built, e.value.score, e.value.member)), after, fs + [f];
  }

  // Reads count members from position 4 and adds them one by one.
  method ReadMembers(raw: Bytes, count: nat) returns (index: Option<ZSets.Index>, pos: nat, ghost fs: seq<Field>)
    requires |raw| >= 4
    ensures pos <= |raw|
    ensures index.None? ==> !Usable(ReadFields(8, raw[4..], count))
    ensures index.Some? ==> ReadFields(8, raw[4..], count) == Some((fs, raw[pos..])) && Builds(index.value, fs)
  {
    pos := 4;
    index := Some(map[]);
    fs := [];
    JoinedFirst(ReadFields(8, raw[4..], count));
    var i := 0;
    while i < count
      invariant 0 <= i <= count && 0 <= pos <= |raw| && index.Some? && Builds(index.value, fs)
      invariant Reading(8, raw[4..], count, fs, raw[pos..], count - i)
    {
      index, pos, fs := AddMember(raw, pos, index.value, count, fs, count - i);
      if index.None? {
        return;
      }
      i := i + 1;
    }
    ReadingEnds(8, raw[4..], count, fs, raw[pos..]);
  }

  method DecodeZSetValue(raw: Bytes) returns (r: Option<ZSets.Index>)
    ensures r == DecodeZSet(raw)
  {
    if |raw| < 4 {
      return None;
    }
    var count := Word(raw[..4]);
    if count > (|raw| - 4) / 12 {
      return None;
    }
    var index, pos, fs := ReadMembers(raw, count);
    if index.None? || |raw| - pos != 0 {
      return None;
    }
    return index;
  }

  method EncodeZSetValue(entries: seq<Entry>) returns (r: Option<Bytes>)
    ensures r == EncodeZSet(entries)
  {
    if |entries| >= LIMIT32 {
      return None;
    }
    var out := BigEndian(|entries|, 4);
    for i := 0 to |entries|
      invariant forall j :: 0 <= j < i ==> |entries[j].member| < LIMIT32
      invariant Writing(out, ScoreFields(entries), i)
    {
      var e := entries[i];
      if |e.member| >= LIMIT32 {
        return None;
      }
      WritingStep(out, ScoreFields(entries), i);
      out := out + BigEndian(e.score, 8) + BigEndian(|e.member|, 4) + e.member;
    }
    WritingEnds(out, ScoreFields(entries));
    return Some(out);
  }
}
