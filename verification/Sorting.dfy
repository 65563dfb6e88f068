// Sorting node identifiers by load and then by name, as the planner does
// before it picks the first or the last one.
module Sorting {
  import opened Ordering
  import opened Slots

  type Loads = map<NodeId, int>

  // Go's reading of a missing map key.
  function Load(loads: Loads, id: NodeId): int {
    if id in loads then loads[id] else 0
  }

  predicate Lighter(loads: Loads, a: NodeId, b: NodeId) {
    Load(loads, a) < Load(loads, b) || (Load(loads, a) == Load(loads, b) && Lex(a, b))
  }

  lemma LighterTotal(loads: Loads, a: NodeId, b: NodeId)
    ensures Lighter(loads, a, b) || a == b || Lighter(loads, b, a)
    ensures !(Lighter(loads, a, b) && Lighter(loads, b, a)) && !Lighter(loads, a, a)
  {
    LexTotal(a, b);
    LexIrreflexive(a);
    if Lex(a, b) { LexAsymmetric(a, b); }
  }

  lemma LighterTransitive(loads: Loads, a: NodeId, b: NodeId, c: NodeId)
    requires Lighter(loads, a, b) && Lighter(loads, b, c)
    ensures Lighter(loads, a, c)
  {
    if Lex(a, b) && Lex(b, c) { LexTransitive(a, b, c); }
  }

  ghost predicate Ascending(loads: Loads, s: seq<NodeId>) {
    forall i, j :: 0 <= i < j < |s| ==> !Lighter(loads, s[j], s[i])
  }

  // Where a sorted sequence takes one more element.
  method Position(loads: Loads, s: seq<NodeId>, x: NodeId) returns (k: nat)
    requires Ascending(loads, s)
    ensures k <= |s|
    ensures forall i :: 0 <= i < k ==> !Lighter(loads, x, s[i])
    ensures forall i :: k <= i < |s| ==> !Lighter(loads, s[i], x)
  {
    k := 0;
    while k < |s| && !Lighter(loads, x, s[k])
      invariant k <= |s|
      invariant forall i :: 0 <= i < k ==> !Lighter(loads, x, s[i])
    {
      k := k + 1;
    }
    forall i | k <= i < |s|
      ensures !Lighter(loads, s[i], x)
    {
      if Lighter(loads, s[i], x) {
        LighterTotal(loads, s[i], x);
        LighterTransitive(loads, s[i], x, s[k]);
      }
    }
  }

  method SortByLoad(ids: seq<NodeId>, loads: Loads) returns (sorted: seq<NodeId>)
    ensures multiset(sorted) == multiset(ids)
    ensures Ascending(loads, sorted)
  {
    sorted := [];
    for n := 0 to |ids|
      invariant multiset(sorted) == multiset(ids[..n])
      invariant Ascending(loads, sorted)
    {
      var k := Position(loads, sorted, ids[n]);
      assert ids[..n + 1] == ids[..n] + [ids[n]];
      InsertMultiset(sorted, k, ids[n]);
      sorted := sorted[..k] + [ids[n]] + sorted[k..];
    }
    assert ids[..|ids|] == ids;
  }

  lemma {:induction false} SameFirst(loads: Loads, s: seq<NodeId>, t: seq<NodeId>)
    requires Ascending(loads, s) && Ascending(loads, t) && multiset(s) == multiset(t)
    requires s != []
    ensures t != [] && s[0] == t[0]
  {
    assert s[0] in multiset(t);
    assert t[0] in multiset(s);
    var i :| 0 <= i < |t| && t[i] == s[0];
    var j :| 0 <= j < |s| && s[j] == t[0];
    LighterTotal(loads, s[0], t[0]);
  }

  lemma TailMultiset<T>(s: seq<T>)
    requires s != []
    ensures multiset(s[1..]) == multiset(s) - multiset{s[0]}
  {
    assert s == [s[0]] + s[1..];
  }

  lemma InsertMultiset<T>(s: seq<T>, k: nat, x: T)
    requires k <= |s|
    ensures multiset(s[..k] + [x] + s[k..]) == multiset(s) + multiset{x}
  {
    assert s == s[..k] + s[k..];
  }

  lemma RemoveMultiset<T>(s: seq<T>, k: nat)
    requires k < |s|
    ensures multiset(s[..k] + s[k + 1..]) == multiset(s) - multiset{s[k]}
  {
    assert s == s[..k] + [s[k]] + s[k + 1..];
  }

  // A sorted arrangement is unique, so no iteration order shows through.
  lemma {:induction false} SortedUnique(loads: Loads, s: seq<NodeId>, t: seq<NodeId>)
    requires Ascending(loads, s) && Ascending(loads, t) && multiset(s) == multiset(t)
    ensures s == t
    decreases |s|
  {
    if s != [] {
      SameFirst(loads, s, t);
      TailMultiset(s);
      TailMultiset(t);
      SortedUnique(loads, s[1..], t[1..]);
      assert s == [s[0]] + s[1..] && t == [t[0]] + t[1..];
    } else {
      assert |multiset(t)| == 0;
    }
  }

  // ------------------------------------------------------ sorting by number

  ghost predicate AscendingBy<T>(key: T -> nat, s: seq<T>) {
    forall i, j :: 0 <= i < j < |s| ==> key(s[i]) <= key(s[j])
  }

  ghost predicate DistinctBy<T>(key: T -> nat, s: seq<T>) {
    forall i, j :: 0 <= i < j < |s| ==> key(s[i]) != key(s[j])
  }

  method PositionBy<T>(key: T -> nat, s: seq<T>, x: T) returns (k: nat)
    requires AscendingBy(key, s)
    ensures k <= |s|
    ensures forall i :: 0 <= i < k ==> key(s[i]) <= key(x)
    ensures forall i :: k <= i < |s| ==> key(x) <= key(s[i])
  {
    k := 0;
    while k < |s| && key(s[k]) <= key(x)
      invariant 0 <= k <= |s|
      invariant forall i :: 0 <= i < k ==> key(s[i]) <= key(x)
    {
      k := k + 1;
    }
  }

  method SortBy<T(==)>(key: T -> nat, s: seq<T>) returns (sorted: seq<T>)
    ensures multiset(sorted) == multiset(s)
    ensures AscendingBy(key, sorted)
  {
    sorted := [];
    for n := 0 to |s|
      invariant multiset(sorted) == multiset(s[..n])
      invariant AscendingBy(key, sorted)
    {
      var k := PositionBy(key, sorted, s[n]);
      assert s[..n + 1] == s[..n] + [s[n]];
      InsertMultiset(sorted, k, s[n]);
      sorted := sorted[..k] + [s[n]] + sorted[k..];
    }
    assert s[..|s|] == s;
  }

  lemma {:induction false} DistinctPermuted<T>(key: T -> nat, s: seq<T>, t: seq<T>)
    requires DistinctBy(key, s) && multiset(s) == multiset(t)
    ensures DistinctBy(key, t)
  {
    forall i, j | 0 <= i < j < |t|
      ensures key(t[i]) != key(t[j])
    {
      if key(t[i]) == key(t[j]) {
        assert t[i] in multiset(s);
        assert t[j] in multiset(s);
        var a :| 0 <= a < |s| && s[a] == t[i];
        var b :| 0 <= b < |s| && s[b] == t[j];
        assert a == b;
        TwiceInMultiset(t, i, j);
        OnceInMultiset(key, s, a);
        assert false;
      }
    }
  }

  lemma {:induction false} TwiceInMultiset<T>(t: seq<T>, i: nat, j: nat)
    requires i < j < |t| && t[i] == t[j]
    ensures multiset(t)[t[i]] >= 2
  {
    assert t == t[..i] + [t[i]] + t[i + 1..j] + [t[j]] + t[j + 1..];
  }

  lemma {:induction false} OnceInMultiset<T>(key: T -> nat, s: seq<T>, a: nat)
    requires DistinctBy(key, s) && a < |s|
    ensures multiset(s)[s[a]] == 1
  {
    assert s == s[..a] + [s[a]] + s[a + 1..];
    assert s[a] !in s[..a] && s[a] !in s[a + 1..];
    assert multiset(s) == multiset(s[..a]) + multiset{s[a]} + multiset(s[a + 1..]);
  }

  lemma {:induction false} FirstByUnique<T>(key: T -> nat, s: seq<T>, t: seq<T>)
    requires AscendingBy(key, s) && AscendingBy(key, t) && DistinctBy(key, s) && multiset(s) == multiset(t) && s != []
    ensures t != [] && s[0] == t[0]
  {
    assert s[0] in multiset(t);
    assert t[0] in multiset(s);
    var i :| 0 <= i < |t| && t[i] == s[0];
    var j :| 0 <= j < |s| && s[j] == t[0];
  }

  lemma {:induction false} SortedByUnique<T>(key: T -> nat, s: seq<T>, t: seq<T>)
    requires AscendingBy(key, s) && AscendingBy(key, t) && DistinctBy(key, s) && multiset(s) == multiset(t)
    ensures s == t
    decreases |s|
  {
    if s != [] {
      FirstByUnique(key, s, t);
      TailMultiset(s);
      TailMultiset(t);
      SortedByUnique(key, s[1..], t[1..]);
      assert s == [s[0]] + s[1..] && t == [t[0]] + t[1..];
    } else {
      assert |multiset(t)| == 0;
    }
  }

  // ------------------------------------------------- listing a set of nodes

  // A listing of a set: its members once each, sorted. There is only one.
  ghost predicate Lists(loads: Loads, s: seq<NodeId>, ids: set<NodeId>) {
    multiset(s) == multiset(ids) && Ascending(loads, s)
  }

  lemma ListsUnique(loads: Loads, s: seq<NodeId>, t: seq<NodeId>, ids: set<NodeId>)
    requires Lists(loads, s, ids) && Lists(loads, t, ids)
    ensures s == t
  {
    SortedUnique(loads, s, t);
  }

  ghost predicate NoRepeats(s: seq<NodeId>) {
    forall i, j :: 0 <= i < j < |s| ==> s[i] != s[j]
  }

  lemma {:induction false} ListsMembers(loads: Loads, s: seq<NodeId>, ids: set<NodeId>)
    requires Lists(loads, s, ids)
    ensures |s| == |ids| && NoRepeats(s)
    ensures forall n :: n in s <==> n in ids
    ensures s != [] ==> forall n :: n in ids && n != s[0] ==> Lighter(loads, s[0], n)
  {
    assert |s| == |multiset(s)|;
    forall n
      ensures n in s <==> n in ids
    {
      assert n in s <==> n in multiset(s);
    }
    forall i, j | 0 <= i < j < |s|
      ensures s[i] != s[j]
    {
      if s[i] == s[j] { TwiceInMultiset(s, i, j); }
    }
    if s != [] {
      forall n | n in ids && n != s[0]
        ensures Lighter(loads, s[0], n)
      {
        var i :| 0 <= i < |s| && s[i] == n;
        LighterTotal(loads, s[0], n);
      }
    }
  }

  // Ranging over a map visits its keys in any order; sorting hides which.
  method Arrange(ids: set<NodeId>, loads: Loads) returns (s: seq<NodeId>)
    ensures Lists(loads, s, ids)
  {
    var rest, listed := ids, [];
    while rest != {}
      invariant rest <= ids && multiset(listed) == multiset(ids - rest)
      decreases rest
    {
      var x :| x in rest;
      assert ids - (rest - {x}) == (ids - rest) + {x};
      listed, rest := listed + [x], rest - {x};
    }
    s := SortByLoad(listed, loads);
  }
}
