// The skip list behind sorted sets: nodes with up to 32 forward pointers and
// one backward pointer, relinked in place. Random levels are a parameter.
module SkipLists {
  import opened Ordering
  import opened Floats

  const MAX_LEVEL: nat := 32

  datatype Entry = Entry(score: Score, member: Bytes)

  // The order of the list: by score, ties by member.
  predicate Before(a: Entry, b: Entry) {
    Rank(a.score) < Rank(b.score) || (Rank(a.score) == Rank(b.score) && Lex(a.member, b.member))
  }

  // What Delete calls a match: scores that compare equal and the same member.
  predicate Same(a: Entry, b: Entry) {
    Rank(a.score) == Rank(b.score) && a.member == b.member
  }

  lemma BeforeTransitive(a: Entry, b: Entry, c: Entry)
    requires Before(a, b) && Before(b, c)
    ensures Before(a, c)
  {
    if Rank(a.score) == Rank(b.score) == Rank(c.score) {
      LexTransitive(a.member, b.member, c.member);
    }
  }

  lemma BeforeTotal(a: Entry, b: Entry)
    ensures Before(a, b) || Same(a, b) || Before(b, a)
    ensures !(Before(a, b) && Before(b, a)) && !(Before(a, b) && Same(a, b))
  {
    LexTotal(a.member, b.member);
    LexIrreflexive(a.member);
    if Lex(a.member, b.member) {
      LexAsymmetric(a.member, b.member);
    }
  }

  // The order is that of the numbers the scores stand for, and then of the bytes
  // of the members.
  lemma {:induction false} BeforeIsByValue(a: Entry, b: Entry)
    ensures Before(a, b) <==>
      Value(a.score) < Value(b.score) || (Value(a.score) == Value(b.score) && exists i: nat :: Parted(a.member, b.member, i))
    ensures Same(a, b) <==> Value(a.score) == Value(b.score) && a.member == b.member
  {
    RankIsValue(a.score, b.score);
    LexExactly(a.member, b.member);
  }

  // ------------------------------------------------- sequences of entries

  // No entry comes before an earlier one; equal entries may repeat.
  ghost predicate Sorted(s: seq<Entry>) {
    forall i, j :: 0 <= i < j < |s| ==> !Before(s[j], s[i])
  }

  ghost predicate StrictlySorted(s: seq<Entry>) {
    forall i, j :: 0 <= i < j < |s| ==> Before(s[i], s[j])
  }

  // How many leading entries come before e: where a search for e ends.
  function Cut(s: seq<Entry>, e: Entry): (c: nat)
    ensures c <= |s|
    ensures forall i :: 0 <= i < c ==> Before(s[i], e)
    ensures c < |s| ==> !Before(s[c], e)
    decreases |s|
  {
    if s == [] || !Before(s[0], e) then 0
    else
      var c := 1 + Cut(s[1..], e);
      assert forall i :: 1 <= i < c ==> s[i] == s[1..][i - 1];
      c
  }

  lemma {:induction false} CutSplits(s: seq<Entry>, e: Entry)
    requires Sorted(s)
    ensures forall i :: Cut(s, e) <= i < |s| ==> !Before(s[i], e)
  {
    var c := Cut(s, e);
    forall i | c < i < |s|
      ensures !Before(s[i], e)
    {
      BeforeTotal(s[c], s[i]);
      BeforeTotal(s[c], e);
      if Before(s[i], e) {
        if Before(s[c], s[i]) {
          BeforeTransitive(s[c], s[i], e);
        }
      }
    }
  }

  function InsertAt<T>(s: seq<T>, c: nat, x: T): (r: seq<T>)
    requires c <= |s|
    ensures |r| == |s| + 1 && r[c] == x
  {
    s[..c] + [x] + s[c..]
  }

  function RemoveAt<T>(s: seq<T>, c: nat): (r: seq<T>)
    requires c < |s|
    ensures |r| == |s| - 1
  {
    s[..c] + s[c + 1..]
  }

  lemma {:induction false} SortedAfterInsertion(s: seq<Entry>, e: Entry)
    requires Sorted(s)
    ensures Sorted(InsertAt(s, Cut(s, e), e))
  {
    var c := Cut(s, e);
    var r := InsertAt(s, c, e);
    CutSplits(s, e);
    forall i, j | 0 <= i < j < |r|
      ensures !Before(r[j], r[i])
    {
      if i == c {
        assert r[j] == s[j - 1];
      } else if j == c {
        BeforeTotal(s[i], e);
      }
    }
  }

  // Redis-style inclusive ranks: negative ones count from the end, and both
  // ends are clamped.
  function Slice<T>(s: seq<T>, start: int, stop: int): (r: seq<T>)
    ensures start == 0 && stop == -1 ==> r == s
    ensures forall k :: 0 <= k < |s| && 0 <= start == k == stop ==> r == [s[k]]
  {
    var lo := if start < 0 then start + |s| else start;
    var hi := if stop < 0 then stop + |s| else stop;
    var first := if lo < 0 then 0 else lo;
    var last := if hi >= |s| then |s| - 1 else hi;
    if first > last then [] else s[first..last + 1]
  }

  // An element has two ranks: its position, and its distance from the end as a
  // negative number. A bound is compared with the one of its own sign.
  ghost predicate From(n: nat, k: nat, start: int) {
    if start < 0 then start <= k - n else start <= k
  }

  ghost predicate UpTo(n: nat, k: nat, stop: int) {
    if stop < 0 then k - n <= stop else k <= stop
  }

  // The elements from one rank up to another, in order: no other, none missing.
  ghost predicate Between<T>(s: seq<T>, start: int, stop: int, r: seq<T>) {
    exists a, b :: 0 <= a <= b <= |s| && r == s[a..b] && Covers(|s|, start, stop, a, b)
  }

  ghost predicate Covers(n: nat, start: int, stop: int, a: int, b: int) {
    forall k: nat :: k < n ==> (a <= k < b <==> From(n, k, start) && UpTo(n, k, stop))
  }

  lemma {:induction false} SliceIsBetween<T>(s: seq<T>, start: int, stop: int)
    ensures Between(s, start, stop, Slice(s, start, stop))
  {
    var lo := if start < 0 then start + |s| else start;
    var hi := if stop < 0 then stop + |s| else stop;
    var a := if lo < 0 then 0 else if lo > |s| then |s| else lo;
    var b := if hi >= |s| then |s| else hi + 1;
    if a <= b {
      assert Slice(s, start, stop) == s[a..b] && Covers(|s|, start, stop, a, b);
    } else {
      assert Slice(s, start, stop) == s[0..0] && Covers(|s|, start, stop, 0, 0);
    }
  }

  // In terms of positions: between two of them, everything; a negative rank is
  // the position that far from the end; a start before the first element is the
  // first, a stop beyond the last one the last; and all else is empty.
  lemma {:induction false} SlicePositions<T>(s: seq<T>, start: int, stop: int)
    ensures 0 <= start <= stop < |s| ==> Slice(s, start, stop) == s[start..stop + 1]
    ensures -|s| <= start < 0 ==> Slice(s, start, stop) == Slice(s, start + |s|, stop)
    ensures -|s| <= stop < 0 ==> Slice(s, start, stop) == Slice(s, start, stop + |s|)
    ensures start < -|s| ==> Slice(s, start, stop) == Slice(s, 0, stop)
    ensures stop >= |s| > 0 ==> Slice(s, start, stop) == Slice(s, start, |s| - 1)
    ensures stop < -|s| || start >= |s| || (0 <= stop < start) ==> Slice(s, start, stop) == []
  {
  }

  // ------------------------------------------------------------- the heap

  class Node {
    const entry: Entry
    const forward: array<Node?>
    var backward: Node?

    constructor (entry: Entry, height: nat)
      ensures this.entry == entry && backward == null
      ensures fresh(forward) && forward.Length == height
    {
      this.entry := entry;
      forward := new Node?[height](_ => null);
      backward := null;
    }
  }

  // A chain is the head followed by the live nodes in level-0 order. Heights
  // never change, so everything about a chain except its pointers is a value.
  function Height(chain: seq<Node>, p: nat): nat
    requires p < |chain|
  {
    chain[p].forward.Length
  }

  ghost function Entries(chain: seq<Node>): (s: seq<Entry>)
    requires |chain| > 0
    ensures |s| == |chain| - 1
    ensures forall p :: 0 <= p < |s| ==> s[p] == chain[p + 1].entry
  {
    seq(|chain| - 1, p requires 0 <= p < |chain| - 1 => chain[p + 1].entry)
  }

  // First position from p on that is taller than level i; |chain| if none.
  ghost function Next(chain: seq<Node>, p: nat, i: nat): (q: nat)
    requires p <= |chain|
    ensures p <= q <= |chain|
    ensures q < |chain| ==> Height(chain, q) > i
    ensures forall k :: p <= k < q ==> Height(chain, k) <= i
    decreases |chain| - p
  {
    if p == |chain| || Height(chain, p) > i then p else Next(chain, p + 1, i)
  }

  // Last position before c that is taller than level i.
  ghost function Pred(chain: seq<Node>, c: nat, i: nat): (q: nat)
    requires 0 < c <= |chain| && Height(chain, 0) > i
    ensures q < c && Height(chain, q) > i
    ensures forall k :: q < k < c ==> Height(chain, k) <= i
  {
    if Height(chain, c - 1) > i then c - 1 else Pred(chain, c - 1, i)
  }

  // Pred for every level the head has.
  ghost function Preds(chain: seq<Node>, c: nat): (u: seq<nat>)
    requires 0 < c <= |chain|
    ensures |u| == Height(chain, 0)
    ensures forall i {:trigger u[i]} :: 0 <= i < |u| ==> u[i] == Pred(chain, c, i) < |chain| && i < Height(chain, u[i])
  {
    seq(Height(chain, 0), i requires 0 <= i < Height(chain, 0) => Pred(chain, c, i))
  }

  ghost function NodeAt(chain: seq<Node>, q: nat): Node? {
    if q < |chain| then chain[q] else null
  }

  // The tallest of the first n positions, head excluded, and at least 1.
  ghost function Tallest(chain: seq<Node>, n: nat): (t: nat)
    requires n <= |chain|
    ensures t >= 1
    ensures forall p :: 0 < p < n ==> Height(chain, p) <= t
    ensures t == 1 || exists p :: 0 < p < n && Height(chain, p) == t
  {
    if n <= 1 then 1
    else
      var t := Tallest(chain, n - 1);
      if Height(chain, n - 1) > t then Height(chain, n - 1) else t
  }

  // The position in the chain where a search for e ends.
  ghost function Place(chain: seq<Node>, e: Entry): (c: nat)
    requires |chain| > 0
    ensures 0 < c <= |chain|
  {
    Cut(Entries(chain), e) + 1
  }

  lemma {:induction false} PlaceSplits(chain: seq<Node>, e: Entry)
    requires |chain| > 0 && Sorted(Entries(chain))
    ensures forall q :: 0 < q < |chain| ==> (Before(chain[q].entry, e) <==> q < Place(chain, e))
  {
    var s := Entries(chain);
    CutSplits(s, e);
    forall q | 0 < q < |chain|
      ensures Before(chain[q].entry, e) <==> q < Place(chain, e)
    {
      assert s[q - 1] == chain[q].entry;
    }
  }

  // Next and Pred around the place of an insertion, and Next after it.
  lemma {:induction false} NextFromPred(chain: seq<Node>, c: nat, i: nat, p: nat)
    requires 0 < c <= |chain| && Height(chain, 0) > i
    requires p < c && Height(chain, p) > i
    ensures p == Pred(chain, c, i) ==> Next(chain, p + 1, i) == Next(chain, c, i)
    ensures p != Pred(chain, c, i) ==> Next(chain, p + 1, i) < c
  {
  }

  lemma {:induction false} PredIffPast(chain: seq<Node>, c: nat, i: nat, p: nat)
    requires 0 < c <= |chain| && Height(chain, 0) > i
    requires p < c && Height(chain, p) > i
    ensures p == Pred(chain, c, i) <==> Next(chain, p + 1, i) >= c
  {
  }

  lemma {:induction false} NextIs(chain: seq<Node>, p: nat, i: nat, q: nat)
    requires p <= q <= |chain|
    requires q < |chain| ==> Height(chain, q) > i
    requires forall k :: p <= k < q ==> Height(chain, k) <= i
    ensures Next(chain, p, i) == q
  {
  }

  // longer is chain with n added at position c.
  ghost predicate Grown(longer: seq<Node>, chain: seq<Node>, c: nat, n: Node) {
    && c <= |chain| && |longer| == |chain| + 1 && longer[c] == n
    && (forall k :: 0 <= k < c ==> longer[k] == chain[k])
    && (forall k :: c < k < |longer| ==> longer[k] == chain[k - 1])
    && (forall k {:trigger Height(longer, k)} :: 0 <= k < c ==> Height(longer, k) == Height(chain, k))
    && (forall k {:trigger Height(longer, k)} :: c < k < |longer| ==> Height(longer, k) == Height(chain, k - 1))
  }

  lemma {:induction false} NextAfterGrowth(longer: seq<Node>, chain: seq<Node>, c: nat, n: Node, p: nat, i: nat)
    requires Grown(longer, chain, c, n) && c <= p <= |chain|
    ensures Next(longer, p + 1, i) == Next(chain, p, i) + 1
  {
    NextIs(longer, p + 1, i, Next(chain, p, i) + 1);
  }

  lemma {:induction false} NextBeforeGrowth(longer: seq<Node>, chain: seq<Node>, c: nat, n: Node, p: nat, i: nat)
    requires Grown(longer, chain, c, n) && p <= c
    ensures Next(longer, p, i) ==
            var q := Next(chain, p, i);
            if q < c then q else if n.forward.Length > i then c else q + 1
  {
    var q := Next(chain, p, i);
    NextIs(longer, p, i, if q < c then q else if n.forward.Length > i then c else q + 1);
  }

  lemma {:induction false} NodeAtGrowth(longer: seq<Node>, chain: seq<Node>, c: nat, n: Node, q: nat)
    requires Grown(longer, chain, c, n)
    ensures NodeAt(longer, c) == n
    ensures q < c ==> NodeAt(longer, q) == NodeAt(chain, q)
    ensures q >= c ==> NodeAt(longer, q + 1) == NodeAt(chain, q)
  {
  }

  // Where the pointers of the longer chain lead, in terms of the shorter one:
  // only the last taller node before the place is redirected, to the new node.
  lemma {:induction false} PointerBeforeGrowth(longer: seq<Node>, chain: seq<Node>, c: nat, n: Node, p: nat, i: nat)
    requires Grown(longer, chain, c, n) && 0 < c && Height(chain, 0) > i
    requires p < c && Height(chain, p) > i
    ensures NodeAt(longer, Next(longer, p + 1, i)) ==
      if i < n.forward.Length && p == Pred(chain, c, i) then n else NodeAt(chain, Next(chain, p + 1, i))
  {
    NextBeforeGrowth(longer, chain, c, n, p + 1, i);
    PredIffPast(chain, c, i, p);
    NodeAtGrowth(longer, chain, c, n, Next(chain, p + 1, i));
  }

  lemma {:induction false} PointerAfterGrowth(longer: seq<Node>, chain: seq<Node>, c: nat, n: Node, p: nat, i: nat)
    requires Grown(longer, chain, c, n) && c < p < |longer|
    ensures NodeAt(longer, Next(longer, p + 1, i)) == NodeAt(chain, Next(chain, p, i))
  {
    NextAfterGrowth(longer, chain, c, n, p, i);
  }

  lemma {:induction false} NewPointer(longer: seq<Node>, chain: seq<Node>, c: nat, n: Node, i: nat)
    requires Grown(longer, chain, c, n) && 0 < c && Height(chain, 0) > i
    ensures NodeAt(longer, Next(longer, c + 1, i)) == NodeAt(chain, Next(chain, Pred(chain, c, i) + 1, i))
  {
    NextFromPred(chain, c, i, Pred(chain, c, i));
    NextAfterGrowth(longer, chain, c, n, c, i);
  }

  lemma {:induction false} TallestAfterGrowth(longer: seq<Node>, chain: seq<Node>, c: nat, n: Node)
    requires Grown(longer, chain, c, n) && 0 < c
    requires n.forward.Length >= 1
    ensures Tallest(longer, |longer|) ==
            var t := Tallest(chain, |chain|); if n.forward.Length > t then n.forward.Length else t
  {
    var t := Tallest(chain, |chain|);
    assert Height(longer, c) == n.forward.Length;
    if t != 1 {
      var k :| 0 < k < |chain| && Height(chain, k) == t;
      assert Height(longer, if k < c then k else k + 1) == t;
    }
  }

  lemma {:induction false} EntriesAfterGrowth(longer: seq<Node>, chain: seq<Node>, c: nat, n: Node)
    requires Grown(longer, chain, c, n) && 0 < c
    ensures Entries(longer) == InsertAt(Entries(chain), c - 1, n.entry)
  {
    var s, r := Entries(longer), InsertAt(Entries(chain), c - 1, n.entry);
    assert forall p :: 0 <= p < |s| ==> s[p] == r[p];
  }

  lemma {:induction false} GrowthSummary(longer: seq<Node>, chain: seq<Node>, n: Node)
    requires |chain| > 0 && longer == InsertAt(chain, Place(chain, n.entry), n)
    requires n.forward.Length >= 1 && Sorted(Entries(chain))
    ensures |longer| == |chain| + 1
    ensures Entries(longer) == InsertAt(Entries(chain), Cut(Entries(chain), n.entry), n.entry)
    ensures Sorted(Entries(longer))
    ensures Tallest(longer, |longer|) ==
            var t := Tallest(chain, |chain|); if n.forward.Length > t then n.forward.Length else t
  {
    var c := Place(chain, n.entry);
    assert Grown(longer, chain, c, n);
    TallestAfterGrowth(longer, chain, c, n);
    EntriesAfterGrowth(longer, chain, c, n);
    SortedAfterInsertion(Entries(chain), n.entry);
  }

  // Every forward pointer of a well-linked chain.
  ghost function Table(chain: seq<Node>): (t: seq<seq<Node?>>)
    ensures |t| == |chain|
    ensures forall p :: 0 <= p < |chain| ==> |t[p]| == Height(chain, p)
    ensures forall p, i {:trigger t[p][i]} :: 0 <= p < |chain| && 0 <= i < Height(chain, p) ==> t[p][i] == NodeAt(chain, Next(chain, p + 1, i))
  {
    seq(|chain|, p requires 0 <= p < |chain| =>
      seq(Height(chain, p), i requires 0 <= i < Height(chain, p) => NodeAt(chain, Next(chain, p + 1, i))))
  }

  // The table after the pointers (ups[i], i) with i < m have been set to targets[i].
  ghost function Redirect(table: seq<seq<Node?>>, ups: seq<nat>, targets: seq<Node?>, m: nat): (r: seq<seq<Node?>>)
    requires m <= |ups| && m <= |targets|
    requires forall j :: 0 <= j < m ==> ups[j] < |table| && j < |table[ups[j]]|
    ensures |r| == |table|
    ensures forall p :: 0 <= p < |table| ==> |r[p]| == |table[p]|
    ensures forall p, i :: 0 <= p < |table| && 0 <= i < |table[p]| ==>
              r[p][i] == if i < m && p == ups[i] then targets[i] else table[p][i]
  {
    if m == 0 then table
    else
      var t := Redirect(table, ups, targets, m - 1);
      t[ups[m - 1] := t[ups[m - 1]][m - 1 := targets[m - 1]]]
  }

  // A nonempty chain of distinct nodes with arrays of their own, the head tallest.
  ghost predicate WellShaped(chain: seq<Node>, repr: set<object>) {
    && |chain| > 0 && Height(chain, 0) == MAX_LEVEL
    && (forall p :: 0 <= p < |chain| ==> 1 <= Height(chain, p) <= MAX_LEVEL)
    && (forall p, q :: 0 <= p < q < |chain| ==> chain[p] != chain[q] && chain[p].forward != chain[q].forward)
    && (forall p :: 0 <= p < |chain| ==> chain[p] in repr && chain[p].forward in repr)
  }

  lemma {:induction false} ShapeAfterGrowth(longer: seq<Node>, chain: seq<Node>, c: nat, n: Node, repr: set<object>)
    requires WellShaped(chain, repr) && Grown(longer, chain, c, n) && 0 < c
    requires n !in repr && n.forward !in repr && 1 <= n.forward.Length <= MAX_LEVEL
    ensures WellShaped(longer, repr + {n, n.forward})
  {
  }

  // Every forward pointer leads to the next node of at least its height.
  ghost predicate Forwards(chain: seq<Node>)
    reads set n | n in chain :: n.forward
  {
    forall p, i {:trigger chain[p].forward[i]} :: 0 <= p < |chain| && 0 <= i < Height(chain, p)
                   ==> chain[p].forward[i] == NodeAt(chain, Next(chain, p + 1, i))
  }

  // Backward pointers mirror level 0; the first node has none.
  ghost predicate Backwards(chain: seq<Node>)
    reads set n | n in chain
  {
    forall p :: 0 < p < |chain| ==> chain[p].backward == if p == 1 then null else chain[p - 1]
  }

  // Forwards, except that the pointers across place c lead to node, which
  // already holds their targets.
  ghost predicate Diverted(chain: seq<Node>, c: nat, node: Node)
    requires 0 < c <= |chain| && node.forward.Length <= Height(chain, 0)
    reads (set n | n in chain :: n.forward), node.forward
  {
    && (forall p, i {:trigger chain[p].forward[i]} :: 0 <= p < |chain| && 0 <= i < Height(chain, p) ==>
         chain[p].forward[i] ==
           if i < node.forward.Length && p == Pred(chain, c, i) then node else NodeAt(chain, Next(chain, p + 1, i)))
    && (forall i {:trigger node.forward[i]} :: 0 <= i < node.forward.Length ==>
         node.forward[i] == NodeAt(chain, Next(chain, Pred(chain, c, i) + 1, i)))
  }

  lemma {:induction false} LinkedAfterGrowth(longer: seq<Node>, chain: seq<Node>, c: nat, node: Node)
    requires Grown(longer, chain, c, node) && 0 < c
    requires forall p :: 0 <= p < |chain| ==> Height(chain, p) <= Height(chain, 0)
    requires node.forward.Length <= Height(chain, 0)
    requires Diverted(chain, c, node)
    ensures Forwards(longer)
  {
    forall p, i | 0 <= p < |longer| && 0 <= i < Height(longer, p)
      ensures longer[p].forward[i] == NodeAt(longer, Next(longer, p + 1, i))
    {
      if p < c {
        PointerBeforeGrowth(longer, chain, c, node, p, i);
      } else if p == c {
        NewPointer(longer, chain, c, node, i);
      } else {
        PointerAfterGrowth(longer, chain, c, node, p, i);
        var k := p - 1;
        assert longer[p] == chain[k] && i < Height(chain, k) <= Height(chain, 0);
        assert chain[k].forward[i] == NodeAt(chain, Next(chain, k + 1, i));
      }
    }
  }

  lemma {:induction false} PredShared(longer: seq<Node>, chain: seq<Node>, c: nat, n: Node, i: nat)
    requires Grown(longer, chain, c, n) && 0 < c && Height(chain, 0) > i
    ensures Pred(longer, c, i) == Pred(chain, c, i)
  {
    var p := Pred(longer, c, i);
    assert Height(chain, p) == Height(longer, p);
    assert forall k :: p < k < c ==> Height(chain, k) == Height(longer, k);
  }

  // Forwards, except that the pointers to the node at c have been moved on to
  // where that node's own pointers lead.
  ghost predicate Bypassed(chain: seq<Node>, c: nat)
    requires 0 < c < |chain| && Height(chain, c) <= Height(chain, 0)
    reads set n | n in chain :: n.forward
  {
    forall p, i {:trigger chain[p].forward[i]} :: 0 <= p < |chain| && 0 <= i < Height(chain, p) ==>
      chain[p].forward[i] ==
        if i < Height(chain, c) && p == Pred(chain, c, i) then NodeAt(chain, Next(chain, c + 1, i))
        else NodeAt(chain, Next(chain, p + 1, i))
  }

  lemma {:induction false} BypassBefore(chain: seq<Node>, shorter: seq<Node>, c: nat, p: nat, i: nat)
    requires 0 < c < |chain| && Grown(chain, shorter, c, chain[c])
    requires p < c && i < Height(shorter, p) <= Height(shorter, 0)
    ensures NodeAt(shorter, Next(shorter, p + 1, i)) ==
        if i < Height(chain, c) && p == Pred(chain, c, i) then NodeAt(chain, Next(chain, c + 1, i))
        else NodeAt(chain, Next(chain, p + 1, i))
  {
    PredShared(chain, shorter, c, chain[c], i);
    PointerBeforeGrowth(chain, shorter, c, chain[c], p, i);
    NewPointer(chain, shorter, c, chain[c], i);
  }

  lemma {:induction false} LinkedAfterRemoval(chain: seq<Node>, shorter: seq<Node>, c: nat)
    requires 0 < c < |chain| && Grown(chain, shorter, c, chain[c])
    requires forall p :: 0 <= p < |chain| ==> Height(chain, p) <= Height(chain, 0)
    requires Bypassed(chain, c)
    ensures Forwards(shorter)
  {
    var x := chain[c];
    forall p, i | 0 <= p < |shorter| && 0 <= i < Height(shorter, p)
      ensures shorter[p].forward[i] == NodeAt(shorter, Next(shorter, p + 1, i))
    {
      if p < c {
        assert shorter[p] == chain[p] && Height(chain, p) <= Height(chain, 0) == Height(shorter, 0);
        assert chain[p].forward[i] ==
          if i < Height(chain, c) && p == Pred(chain, c, i) then NodeAt(chain, Next(chain, c + 1, i))
          else NodeAt(chain, Next(chain, p + 1, i));
        BypassBefore(chain, shorter, c, p, i);
      } else {
        var k := p + 1;
        assert chain[k] == shorter[p] && i < Height(chain, k) <= Height(chain, 0);
        PointerAfterGrowth(chain, shorter, c, x, k, i);
      }
    }
  }

  // A pointer across place c leads to the node at c exactly on that node's levels.
  lemma {:induction false} AcrossPlace(chain: seq<Node>, c: nat, i: nat)
    requires 0 < c < |chain| && Height(chain, 0) > i
    requires forall p, q :: 0 <= p < q < |chain| ==> chain[p] != chain[q]
    ensures NodeAt(chain, Next(chain, Pred(chain, c, i) + 1, i)) == chain[c] <==> i < Height(chain, c)
  {
    NextFromPred(chain, c, i, Pred(chain, c, i));
    var q := Next(chain, c, i);
    if q < |chain| && q != c {
      assert chain[c] != chain[q];
    }
  }

  lemma {:induction false} TableAcross(chain: seq<Node>, c: nat, repr: set<object>)
    requires WellShaped(chain, repr) && 0 < c < |chain|
    ensures forall j {:trigger Preds(chain, c)[j]} :: 0 <= j < MAX_LEVEL ==>
      Preds(chain, c)[j] < c && (Table(chain)[Preds(chain, c)[j]][j] == chain[c] <==> j < Height(chain, c))
  {
    forall j | 0 <= j < MAX_LEVEL
      ensures Table(chain)[Preds(chain, c)[j]][j] == chain[c] <==> j < Height(chain, c)
    {
      AcrossPlace(chain, c, j);
    }
  }

  lemma {:induction false} ShapeAfterRemoval(chain: seq<Node>, shorter: seq<Node>, c: nat, repr: set<object>)
    requires 0 < c < |chain| && Grown(chain, shorter, c, chain[c]) && WellShaped(chain, repr)
    ensures WellShaped(shorter, repr)
  {
    forall p | 0 <= p < |shorter|
      ensures 1 <= Height(shorter, p) <= MAX_LEVEL && shorter[p] in repr && shorter[p].forward in repr
    {
      var k := if p < c then p else p + 1;
      assert shorter[p] == chain[k] && Height(chain, k) >= 1;
    }
    forall p, q | 0 <= p < q < |shorter|
      ensures shorter[p] != shorter[q] && shorter[p].forward != shorter[q].forward
    {
      var k, l := if p < c then p else p + 1, if q < c then q else q + 1;
      assert shorter[p] == chain[k] && shorter[q] == chain[l];
    }
  }

  lemma {:induction false} EntriesAfterRemoval(chain: seq<Node>, shorter: seq<Node>, c: nat)
    requires 0 < c < |chain| && Grown(chain, shorter, c, chain[c])
    ensures Entries(shorter) == RemoveAt(Entries(chain), c - 1)
  {
    var s, r := Entries(shorter), RemoveAt(Entries(chain), c - 1);
    forall p | 0 <= p < |s|
      ensures s[p] == r[p]
    {
      assert shorter[p + 1] == chain[if p + 1 < c then p + 1 else p + 2];
    }
  }

  lemma {:induction false} SortedAfterRemoval(s: seq<Entry>, c: nat)
    requires Sorted(s) && c < |s|
    ensures Sorted(RemoveAt(s, c))
  {
  }

  lemma {:induction false} TallestAfterRemoval(chain: seq<Node>, shorter: seq<Node>, c: nat)
    requires 0 < c < |chain| && Grown(chain, shorter, c, chain[c])
    ensures Tallest(shorter, |shorter|) <= Tallest(chain, |chain|)
  {
    var t := Tallest(shorter, |shorter|);
    if t != 1 {
      var k :| 0 < k < |shorter| && Height(shorter, k) == t;
      assert Height(chain, if k < c then k else k + 1) == t;
    }
  }

  lemma {:induction false} RemovalSummary(chain: seq<Node>, shorter: seq<Node>, c: nat)
    requires 0 < c < |chain| && shorter == RemoveAt(chain, c)
    requires Sorted(Entries(chain))
    ensures Grown(chain, shorter, c, chain[c])
    ensures Entries(shorter) == RemoveAt(Entries(chain), c - 1)
    ensures Sorted(Entries(shorter))
    ensures Tallest(shorter, |shorter|) <= Tallest(chain, |chain|)
  {
    EntriesAfterRemoval(chain, shorter, c);
    SortedAfterRemoval(Entries(chain), c - 1);
    TallestAfterRemoval(chain, shorter, c);
  }

  class SkipList {
    const head: Node
    var level: nat
    var length: nat
    ghost var chain: seq<Node>
    ghost var Repr: set<object>

    ghost predicate Shape()
      reads this
    {
      WellShaped(chain, Repr) && chain[0] == head && this in Repr
    }

    // Valid, but for a level that may be too high.
    ghost predicate Loose()
      reads this, Repr
    {
      && Shape() && Forwards(chain) && Backwards(chain)
      && Tallest(chain, |chain|) <= level <= MAX_LEVEL
      && length == |chain| - 1
      && Sorted(Entries(chain))
    }

    ghost predicate Valid()
      reads this, Repr
    {
      && Shape() && Forwards(chain) && Backwards(chain)
      && level == Tallest(chain, |chain|)
      && length == |chain| - 1
      && Sorted(Entries(chain))
    }

    ghost function Contents(): seq<Entry>
      requires Valid()
      reads this, Repr
    {
      Entries(chain)
    }

    constructor ()
      ensures Valid() && fresh(Repr)
      ensures Contents() == []
    {
      var h := new Node(Entry(0, []), MAX_LEVEL);
      head := h;
      level := 1;
      length := 0;
      chain := [h];
      Repr := {this, h, h.forward};
      new;
      forall i | 0 <= i < MAX_LEVEL { h.forward[i] := null; }
    }

    // One level of the descent, from the node at position p.
    method Descend(x: Node, ghost p: nat, i: nat, e: Entry) returns (y: Node, ghost q: nat)
      requires Valid()
      requires p < Place(chain, e) && x == chain[p] && i < Height(chain, p)
      ensures q == Pred(chain, Place(chain, e), i) && y == chain[q]
    {
      PlaceSplits(chain, e);
      y, q := x, p;
      while y.forward[i] != null && Before(y.forward[i].entry, e)
        invariant q < Place(chain, e) && y == chain[q] && i < Height(chain, q)
        decreases Place(chain, e) - q
      {
        y, q := y.forward[i], Next(chain, q + 1, i);
      }
    }

    // The descent shared by Insert and Delete: at every level the last node
    // whose entry comes before e.
    method Search(e: Entry) returns (update: seq<Node>)
      requires Valid()
      ensures |update| == MAX_LEVEL
      ensures forall j :: 0 <= j < level ==> update[j] == chain[Pred(chain, Place(chain, e), j)]
    {
      update := seq(MAX_LEVEL, _ => head);
      var x := head;
      ghost var p: nat := 0;
      var i := level;
      while i > 0
        invariant 0 <= i <= level <= MAX_LEVEL && |update| == MAX_LEVEL
        invariant 0 <= p < Place(chain, e) && x == chain[p] && Height(chain, p) >= i
        invariant forall j :: i <= j < level ==> update[j] == chain[Pred(chain, Place(chain, e), j)]
      {
        i := i - 1;
        x, p := Descend(x, p, i, e);
        update := update[i := x];
      }
    }

    // The forward pointers of the chain, position by position and level by
    // level, are those of a table of values.
    ghost predicate Mirrors(table: seq<seq<Node?>>)
      requires Shape()
      reads this, Repr
    {
      && |table| == |chain|
      && (forall p :: 0 <= p < |chain| ==> |table[p]| == Height(chain, p))
      && (forall p, i {:trigger chain[p].forward[i]} :: 0 <= p < |chain| && 0 <= i < Height(chain, p) ==> chain[p].forward[i] == table[p][i])
    }

    // Redirect one pointer to node and let node take over its old target.
    method RelinkLevel(node: Node, u: Node, i: nat, ghost q: nat, ghost table: seq<seq<Node?>>)
      requires Shape() && Mirrors(table)
      requires node.forward !in Repr && i < node.forward.Length
      requires q < |chain| && u == chain[q] && i < Height(chain, q)
      modifies u.forward, node.forward
      ensures Mirrors(table[q := table[q][i := node]])
      ensures forall j :: 0 <= j < node.forward.Length ==>
        node.forward[j] == if j == i then table[q][i] else old(node.forward[j])
    {
      node.forward[i] := u.forward[i];
      u.forward[i] := node;
    }

    method RelinkIn(node: Node, update: seq<Node>, ghost ups: seq<nat>, ghost table: seq<seq<Node?>>)
      requires Shape() && Mirrors(table)
      requires node.forward !in Repr && node.forward.Length <= |update| == |ups|
      requires forall j :: 0 <= j < node.forward.Length ==>
        ups[j] < |chain| && j < Height(chain, ups[j]) && update[j] == chain[ups[j]]
      modifies set n | n in chain :: n.forward, node.forward
      ensures forall p, i {:trigger chain[p].forward[i]} :: 0 <= p < |chain| && 0 <= i < Height(chain, p) ==>
        chain[p].forward[i] == if i < node.forward.Length && p == ups[i] then node else table[p][i]
      ensures forall j {:trigger node.forward[j]} :: 0 <= j < node.forward.Length ==> node.forward[j] == table[ups[j]][j]
    {
      ghost var targets: seq<Node?> := seq(|ups|, _ => node);
      var i := 0;
      while i < node.forward.Length
        invariant 0 <= i <= node.forward.Length
        invariant Mirrors(Redirect(table, ups, targets, i))
        invariant forall j :: 0 <= j < i ==> node.forward[j] == table[ups[j]][j]
      {
        RelinkLevel(node, update[i], i, ups[i], Redirect(table, ups, targets, i));
        i := i + 1;
      }
      ReadRedirected(table, ups, targets, i);
    }

    // Above the present level the head is the last node before any place.
    method Raise(update: seq<Node>, lvl: nat, ghost c: nat) returns (raised: seq<Node>)
      requires Valid() && level <= lvl <= MAX_LEVEL && |update| == MAX_LEVEL && 0 < c <= |chain|
      requires forall j :: 0 <= j < level ==> update[j] == chain[Pred(chain, c, j)]
      ensures |raised| == MAX_LEVEL
      ensures forall j :: 0 <= j < lvl ==> raised[j] == chain[Pred(chain, c, j)]
    {
      raised := update;
      var i := level;
      while i < lvl
        invariant level <= i <= lvl && |raised| == MAX_LEVEL
        invariant forall j :: 0 <= j < i ==> raised[j] == chain[Pred(chain, c, j)]
      {
        assert Pred(chain, c, i) == 0;
        raised := raised[i := head];
        i := i + 1;
      }
    }

    lemma {:induction false} MirrorsTable()
      requires Shape() && Forwards(chain)
      ensures Mirrors(Table(chain))
    {
    }

    // The search, raised to the levels of a node about to be inserted.
    method Predecessors(e: Entry, lvl: nat) returns (update: seq<Node>)
      requires Valid() && lvl <= MAX_LEVEL
      ensures |update| == MAX_LEVEL
      ensures forall j :: 0 <= j < lvl ==> update[j] == chain[Pred(chain, Place(chain, e), j)]
    {
      update := Search(e);
      if lvl > level {
        update := Raise(update, lvl, Place(chain, e));
      }
    }

    // The forward pointers across place c, level by level.
    method Divert(node: Node, update: seq<Node>, ghost c: nat)
      requires Shape() && Forwards(chain) && 0 < c <= |chain|
      requires node.forward !in Repr && node.forward.Length <= MAX_LEVEL == |update|
      requires forall j :: 0 <= j < node.forward.Length ==> update[j] == chain[Pred(chain, c, j)]
      modifies set n | n in chain :: n.forward, node.forward
      ensures Diverted(chain, c, node)
    {
      ghost var table, ups := Table(chain), Preds(chain, c);
      MirrorsTable();
      RelinkIn(node, update, ups, table);
    }

    // The forward pointers of Insert.
    method SpliceForward(node: Node, update: seq<Node>, ghost c: nat)
      requires Shape() && Forwards(chain) && 0 < c <= |chain|
      requires node !in Repr && node.forward !in Repr && 1 <= node.forward.Length <= MAX_LEVEL == |update|
      requires forall j :: 0 <= j < node.forward.Length ==> update[j] == chain[Pred(chain, c, j)]
      modifies this`chain, this`Repr, set n | n in chain :: n.forward, node.forward
      ensures chain == InsertAt(old(chain), c, node) && Repr == old(Repr) + {node, node.forward}
      ensures Shape() && Forwards(chain)
    {
      Divert(node, update, c);
      ghost var longer := InsertAt(chain, c, node);
      LinkedAfterGrowth(longer, chain, c, node);
      ShapeAfterGrowth(longer, chain, c, node, Repr);
      chain := longer;
      Repr := Repr + {node, node.forward};
    }

    // The backward pointers of Insert: of the new node at position c and of
    // its successor.
    method SpliceBackward(node: Node, pred: Node, ghost c: nat)
      requires Shape() && Forwards(chain) && 0 < c < |chain| && chain[c] == node && chain[c - 1] == pred
      requires forall p :: 0 < p < c ==> chain[p].backward == if p == 1 then null else chain[p - 1]
      requires forall p :: c + 1 < p < |chain| ==> chain[p].backward == chain[p - 1]
      modifies (set n | n in chain)`backward
      ensures Backwards(chain)
    {
      assert Height(chain, c) >= 1;
      NextIs(chain, c + 1, 0, c + 1);
      if pred == head {
        node.backward := null;
      } else {
        node.backward := pred;
      }
      if node.forward[0] != null {
        node.forward[0].backward := node;
      }
    }

    // All the pointer work of Insert.
    method Splice(node: Node, update: seq<Node>, ghost c: nat)
      requires Shape() && Forwards(chain) && Backwards(chain) && 0 < c <= |chain|
      requires node !in Repr && node.forward !in Repr && 1 <= node.forward.Length <= MAX_LEVEL == |update|
      requires forall j :: 0 <= j < node.forward.Length ==> update[j] == chain[Pred(chain, c, j)]
      modifies this`chain, this`Repr, Repr - {this}, node, node.forward
      ensures chain == InsertAt(old(chain), c, node) && Repr == old(Repr) + {node, node.forward}
      ensures Shape() && Forwards(chain) && Backwards(chain)
    {
      assert Pred(chain, c, 0) == c - 1 by { assert Height(chain, c - 1) >= 1; }
      SpliceForward(node, update, c);
      SpliceBackward(node, update[0], c);
    }

    method Attach(e: Entry, lvl: nat, update: seq<Node>) returns (node: Node)
      requires Shape() && Forwards(chain) && Backwards(chain)
      requires 1 <= lvl <= MAX_LEVEL == |update|
      requires forall j :: 0 <= j < lvl ==> update[j] == chain[Pred(chain, Place(chain, e), j)]
      modifies this`chain, this`Repr, Repr - {this}
      ensures node.entry == e && node.forward.Length == lvl
      ensures chain == InsertAt(old(chain), Place(old(chain), e), node)
      ensures Repr == old(Repr) + {node, node.forward} && fresh(node) && fresh(node.forward)
      ensures Shape() && Forwards(chain) && Backwards(chain)
    {
      node := new Node(e, lvl);
      Splice(node, update, Place(chain, e));
    }

    // Adds e where its search ends, with a node of the given height. The height
    // is whatever the coin flips gave.
    method Insert(e: Entry, lvl: nat) returns (node: Node)
      requires Valid() && 1 <= lvl <= MAX_LEVEL
      modifies Repr
      ensures Valid() && Repr == old(Repr) + {node, node.forward} && fresh(node) && fresh(node.forward)
      ensures Contents() == InsertAt(old(Contents()), Cut(old(Contents()), e), e)
    {
      ghost var before := chain;
      var update := Predecessors(e, lvl);
      level := if lvl > level then lvl else level;
      length := length + 1;
      assert Forwards(chain) && Backwards(chain);
      node := Attach(e, lvl, update);
      GrowthSummary(chain, before, node);
    }

    lemma {:induction false} ReadRedirected(table: seq<seq<Node?>>, ups: seq<nat>, targets: seq<Node?>, m: nat)
      requires Shape() && m <= |ups| && m <= |targets|
      requires forall j :: 0 <= j < m ==> ups[j] < |table| && j < |table[ups[j]]|
      requires Mirrors(Redirect(table, ups, targets, m))
      ensures |table| == |chain| && forall p :: 0 <= p < |chain| ==> |table[p]| == Height(chain, p)
      ensures forall p, i {:trigger chain[p].forward[i]} :: 0 <= p < |chain| && 0 <= i < Height(chain, p) ==>
        chain[p].forward[i] == if i < m && p == ups[i] then targets[i] else table[p][i]
    {
    }

    method UnlinkLevel(u: Node, i: nat, target: Node?, ghost q: nat, ghost table: seq<seq<Node?>>)
      requires Shape() && Mirrors(table)
      requires q < |chain| && u == chain[q] && i < Height(chain, q)
      modifies u.forward
      ensures Mirrors(table[q := table[q][i := target]])
    {
      u.forward[i] := target;
    }

    // The relinking loop of Delete: it stops at the first level whose pointer
    // does not lead to x, which is the height of x.
    method UnlinkOut(x: Node, update: seq<Node>, ghost c: nat, ghost ups: seq<nat>, ghost table: seq<seq<Node?>>)
      requires Shape() && Mirrors(table) && c < |chain| && x == chain[c]
      requires Height(chain, c) <= level <= |update| == |ups|
      requires forall j :: 0 <= j < level ==>
        ups[j] < |chain| && ups[j] != c && j < Height(chain, ups[j]) && update[j] == chain[ups[j]]
      requires forall j :: 0 <= j < level ==> (table[ups[j]][j] == x <==> j < Height(chain, c))
      modifies set n | n in chain :: n.forward
      ensures forall p, i {:trigger chain[p].forward[i]} :: 0 <= p < |chain| && 0 <= i < Height(chain, p) ==>
        chain[p].forward[i] == if i < Height(chain, c) && p == ups[i] then table[c][i] else table[p][i]
    {
      ghost var targets := table[c];
      var i := 0;
      while i < level
        invariant 0 <= i <= Height(chain, c)
        invariant Mirrors(Redirect(table, ups, targets, i))
      {
        ReadRedirected(table, ups, targets, i);
        if update[i].forward[i] != x {
          assert i == Height(chain, c);
          break;
        }
        UnlinkLevel(update[i], i, x.forward[i], ups[i], Redirect(table, ups, targets, i));
        i := i + 1;
      }
      ReadRedirected(table, ups, targets, i);
    }

    // The forward pointers of Delete.
    method Bypass(x: Node, update: seq<Node>, ghost c: nat)
      requires Shape() && Forwards(chain) && 0 < c < |chain| && x == chain[c]
      requires Height(chain, c) <= level <= MAX_LEVEL == |update|
      requires forall j :: 0 <= j < level ==> update[j] == chain[Pred(chain, c, j)]
      modifies set n | n in chain :: n.forward
      ensures Bypassed(chain, c)
    {
      ghost var table, ups := Table(chain), Preds(chain, c);
      MirrorsTable();
      TableAcross(chain, c, Repr);
      UnlinkOut(x, update, c, ups, table);
    }

    method DetachForward(x: Node, update: seq<Node>, ghost c: nat)
      requires Shape() && Forwards(chain) && 0 < c < |chain| && x == chain[c]
      requires Height(chain, c) <= level <= MAX_LEVEL == |update|
      requires forall j :: 0 <= j < level ==> update[j] == chain[Pred(chain, c, j)]
      requires Grown(chain, RemoveAt(chain, c), c, x)
      modifies this`chain, set n | n in chain :: n.forward
      ensures chain == RemoveAt(old(chain), c)
      ensures Shape() && Forwards(chain) && x.forward[0] == NodeAt(chain, c)
    {
      ghost var shorter := RemoveAt(chain, c);
      Bypass(x, update, c);
      assert x.forward[0] == NodeAt(shorter, c) by {
        assert Height(chain, c) >= 1;
        assert c + 1 < |chain| ==> Height(chain, c + 1) >= 1;
        NextIs(chain, c + 1, 0, c + 1);
      }
      LinkedAfterRemoval(chain, shorter, c);
      ShapeAfterRemoval(chain, shorter, c, Repr);
      chain := shorter;
    }

    method DetachBackward(x: Node, ghost c: nat)
      requires Shape() && 0 < c <= |chain| && x !in chain && x.forward.Length > 0 && x.forward[0] == NodeAt(chain, c)
      requires x.backward == if c == 1 then null else chain[c - 1]
      requires forall p :: 0 < p < |chain| && p != c ==> chain[p].backward == if p == 1 then null else chain[p - 1]
      modifies (set n | n in chain)`backward
      ensures Backwards(chain)
    {
      if x.forward[0] != null {
        x.forward[0].backward := x.backward;
      }
    }

    // All the pointer work of Delete.
    method Detach(x: Node, update: seq<Node>, ghost c: nat)
      requires Shape() && Forwards(chain) && Backwards(chain) && 0 < c < |chain| && x == chain[c]
      requires Height(chain, c) <= level <= MAX_LEVEL == |update|
      requires forall j :: 0 <= j < level ==> update[j] == chain[Pred(chain, c, j)]
      requires Grown(chain, RemoveAt(chain, c), c, x)
      modifies this`chain, Repr - {this}
      ensures chain == RemoveAt(old(chain), c)
      ensures Shape() && Forwards(chain) && Backwards(chain)
    {
      DetachForward(x, update, c);
      DetachBackward(x, c);
    }

    // Levels that no node reaches any more are given up.
    method Lower()
      requires Loose()
      modifies this`level
      ensures Valid()
    {
      while level > 1 && head.forward[level - 1] == null
        invariant Loose()
      {
        assert Next(chain, 1, level - 1) == |chain|;
        level := level - 1;
      }
      assert Height(chain, 0) == MAX_LEVEL;
      assert level > 1 ==> chain[0].forward[level - 1] != null;
    }

    // The node a search for e ends at, with its predecessors.
    method Find(e: Entry) returns (update: seq<Node>, x: Node?)
      requires Valid()
      ensures |update| == MAX_LEVEL && level <= MAX_LEVEL
      ensures forall j :: 0 <= j < level ==> update[j] == chain[Pred(chain, Place(chain, e), j)]
      ensures x == NodeAt(chain, Place(chain, e))
    {
      update := Search(e);
      ghost var c := Place(chain, e);
      assert Pred(chain, c, 0) == c - 1 by { assert Height(chain, c - 1) >= 1; }
      assert Next(chain, c, 0) == c by {
        assert c < |chain| ==> Height(chain, c) >= 1;
        NextIs(chain, c, 0, c);
      }
      x := update[0].forward[0];
    }

    method RemoveNode(x: Node, update: seq<Node>, ghost c: nat)
      requires Valid() && 0 < c < |chain| && x == chain[c]
      requires level <= MAX_LEVEL == |update|
      requires forall j :: 0 <= j < level ==> update[j] == chain[Pred(chain, c, j)]
      modifies Repr
      ensures Loose() && Repr == old(Repr)
      ensures Entries(chain) == RemoveAt(old(Entries(chain)), c - 1)
    {
      RemovalSummary(chain, RemoveAt(chain, c), c);
      length := length - 1;
      assert Forwards(chain) && Backwards(chain);
      Detach(x, update, c);
    }

    // Removes the entry that matches e, if the search ends at one.
    method Delete(e: Entry) returns (removed: bool)
      requires Valid()
      modifies Repr
      ensures Valid() && Repr == old(Repr)
      ensures var s := old(Contents()); var c := Cut(s, e);
              && (removed <==> c < |s| && Same(s[c], e))
              && Contents() == if removed then RemoveAt(s, c) else s
    {
      var update, x := Find(e);
      if x == null || !Same(x.entry, e) {
        return false;
      }
      RemoveNode(x, update, Place(chain, e));
      Lower();
      return true;
    }

    // One step along level 0.
    lemma {:induction false} LevelZero(p: nat)
      requires Shape() && Forwards(chain) && p < |chain|
      ensures Height(chain, p) > 0 && chain[p].forward[0] == NodeAt(chain, p + 1)
    {
      assert Height(chain, p) > 0;
      assert p + 1 < |chain| ==> Height(chain, p + 1) > 0;
      NextIs(chain, p + 1, 0, p + 1);
    }

    // The node at a rank; the walk never runs off the end.
    method Seek(rank: nat) returns (x: Node)
      requires Valid() && rank < length
      ensures x == chain[rank + 1]
    {
      x := head;
      var i := 0;
      while i <= rank
        invariant 0 <= i <= rank + 1 && x == chain[i]
      {
        LevelZero(i);
        x := x.forward[0];
        i := i + 1;
      }
    }

    method Collect(from: Node, first: nat, last: nat) returns (result: seq<Entry>)
      requires Valid() && first <= last < length && from == chain[first + 1]
      ensures result == Contents()[first..last + 1]
    {
      result := [];
      var x: Node? := from;
      var i := first;
      while i <= last && x != null
        invariant first <= i <= last + 1 && x == NodeAt(chain, i + 1)
        invariant result == Contents()[first..i]
      {
        LevelZero(i + 1);
        assert Contents()[i] == x.entry && Contents()[first..i + 1] == Contents()[first..i] + [x.entry];
        result := result + [x.entry];
        x := x.forward[0];
        i := i + 1;
      }
    }

    // Ranks as positions: negative ones from the end, both ends clamped.
    method Clamp(start: int, stop: int) returns (first: nat, last: int)
      requires 0 < length
      ensures last < length
      ensures forall s: seq<Entry> :: |s| == length ==> Slice(s, start, stop) == if first > last then [] else s[first..last + 1]
    {
      var lo, hi := start, stop;
      if lo < 0 {
        lo := lo + length;
      }
      if hi < 0 {
        hi := hi + length;
      }
      if lo < 0 {
        lo := 0;
      }
      if hi >= length {
        hi := length - 1;
      }
      first, last := lo, hi;
    }

    // The entries between two ranks, found by walking level 0.
    method Range(start: int, stop: int) returns (result: seq<Entry>)
      requires Valid()
      ensures result == Slice(Contents(), start, stop) && Between(Contents(), start, stop, result)
    {
      SliceIsBetween(Contents(), start, stop);
      if length == 0 {
        return [];
      }
      var first, last := Clamp(start, stop);
      if first > last {
        return [];
      }
      var x := Seek(first);
      result := Collect(x, first, last);
    }
  }
}
