// A sorted set: a hash index from member to score, and a skip list of the same
// pairs in score order. Every update touches both.
module ZSets {
  import opened Ordering
  import opened SkipLists

  type Index = map<Bytes, Score>

  // The list holds exactly the pairs of the index.
  ghost predicate Agree(index: Index, s: seq<Entry>) {
    && (forall i :: 0 <= i < |s| ==> s[i].member in index && index[s[i].member] == s[i].score)
    && (forall m :: m in index ==> Entry(index[m], m) in s)
  }

  // What an update does to the map: a score that compares equal to the present
  // one is not written, so a stored zero keeps its sign.
  function Put(index: Index, score: Score, member: Bytes): (r: Index)
    ensures member in r && Rank(r[member]) == Rank(score)
    ensures r.Keys == index.Keys + {member}
    ensures forall m :: m in index && m != member ==> r[m] == index[m]
    ensures r[member] == score || r == index
    ensures member in index && Rank(index[member]) == Rank(score) ==> r == index
  {
    if member in index && Rank(index[member]) == Rank(score) then index else index[member := score]
  }

  function PutAll(index: Index, pairs: seq<Entry>): Index {
    if pairs == [] then index
    else
      var last := pairs[|pairs| - 1];
      Put(PutAll(index, pairs[..|pairs| - 1]), last.score, last.member)
  }

  lemma {:induction false} PutAllStep(index: Index, pairs: seq<Entry>, i: nat)
    requires i < |pairs|
    ensures PutAll(index, pairs[..i + 1]) == Put(PutAll(index, pairs[..i]), pairs[i].score, pairs[i].member)
  {
    assert pairs[..i + 1][..i] == pairs[..i];
  }

  ghost function Members(pairs: seq<Entry>): set<Bytes> {
    set p | p in pairs :: p.member
  }

  lemma {:induction false} MembersAppend(pairs: seq<Entry>, last: Entry)
    ensures Members(pairs + [last]) == Members(pairs) + {last.member}
  {
    assert forall p :: p in pairs + [last] <==> p in pairs || p == last;
  }

  lemma {:induction false} PutAllKeys(index: Index, pairs: seq<Entry>)
    ensures PutAll(index, pairs).Keys == index.Keys + Members(pairs)
    decreases |pairs|
  {
    if pairs != [] {
      var rest, last := pairs[..|pairs| - 1], pairs[|pairs| - 1];
      PutAllKeys(index, rest);
      assert pairs == rest + [last];
      MembersAppend(rest, last);
    }
  }

  lemma PutCounts(index: Index, score: Score, member: Bytes)
    ensures |Put(index, score, member)| == |index| + if member in index then 0 else 1
  {
    var r := Put(index, score, member);
    if member in index {
      assert r.Keys == index.Keys;
    }
    assert |r| == |r.Keys| && |index| == |index.Keys|;
  }

  lemma StrictIsSorted(s: seq<Entry>)
    requires StrictlySorted(s)
    ensures Sorted(s)
  {
    forall i, j | 0 <= i < j < |s|
      ensures !Before(s[j], s[i])
    {
      BeforeTotal(s[i], s[j]);
    }
  }

  // In a strictly sorted list the search for a present pair ends at it.
  lemma {:induction false} CutFinds(s: seq<Entry>, k: nat)
    requires StrictlySorted(s) && k < |s|
    ensures Cut(s, s[k]) == k
  {
    var c := Cut(s, s[k]);
    BeforeTotal(s[k], s[k]);
  }

  lemma {:induction false} StrictAfterInsertion(s: seq<Entry>, e: Entry)
    requires StrictlySorted(s) && forall i :: 0 <= i < |s| ==> !Same(s[i], e)
    ensures StrictlySorted(InsertAt(s, Cut(s, e), e))
  {
    var c := Cut(s, e);
    StrictIsSorted(s);
    CutSplits(s, e);
    var r := InsertAt(s, c, e);
    forall i, j | 0 <= i < j < |r|
      ensures Before(r[i], r[j])
    {
      if i == c {
        BeforeTotal(s[j - 1], e);
      }
    }
  }

  lemma {:induction false} StrictAfterRemoval(s: seq<Entry>, k: nat)
    requires StrictlySorted(s) && k < |s|
    ensures StrictlySorted(RemoveAt(s, k))
  {
  }

  lemma {:induction false} AgreeAfterInsertion(index: Index, s: seq<Entry>, e: Entry, c: nat)
    requires Agree(index, s) && e.member !in index && c <= |s|
    ensures Agree(index[e.member := e.score], InsertAt(s, c, e))
  {
    var r := InsertAt(s, c, e);
    var index' := index[e.member := e.score];
    forall i | 0 <= i < |r|
      ensures r[i].member in index' && index'[r[i].member] == r[i].score
    {
      assert r[i] == e || r[i] in s;
    }
    forall m | m in index'
      ensures Entry(index'[m], m) in r
    {
      if m != e.member {
        var i :| 0 <= i < |s| && s[i] == Entry(index[m], m);
        assert r[if i < c then i else i + 1] == s[i];
      }
    }
  }

  lemma {:induction false} AgreeAfterRemoval(index: Index, s: seq<Entry>, k: nat)
    requires Agree(index, s) && StrictlySorted(s) && k < |s|
    ensures Agree(index - {s[k].member}, RemoveAt(s, k))
  {
    var r := RemoveAt(s, k);
    forall i | 0 <= i < |r|
      ensures r[i] in s && r[i].member != s[k].member
    {
      var j := if i < k then i else i + 1;
      assert r[i] == s[j];
      BeforeTotal(s[j], s[k]);
    }
    forall m | m in index && m != s[k].member
      ensures Entry(index[m], m) in r
    {
      var i :| 0 <= i < |s| && s[i] == Entry(index[m], m);
      assert r[if i < k then i else i - 1] == s[i];
    }
  }

  lemma {:induction false} SameHead(index: Index, s: seq<Entry>, t: seq<Entry>)
    requires StrictlySorted(s) && StrictlySorted(t) && Agree(index, s) && Agree(index, t)
    requires s != []
    ensures t != [] && s[0] == t[0]
  {
    assert Entry(index[s[0].member], s[0].member) in t;
    var i :| 0 <= i < |t| && t[i] == s[0];
    assert Entry(index[t[0].member], t[0].member) in s;
    var j :| 0 <= j < |s| && s[j] == t[0];
    if i != 0 {
      assert Before(t[0], t[i]);
      BeforeTotal(s[0], t[0]);
    }
  }

  lemma {:induction false} TailKeepsAgreement(index: Index, s: seq<Entry>)
    requires StrictlySorted(s) && Agree(index, s) && s != []
    ensures StrictlySorted(s[1..]) && Agree(index - {s[0].member}, s[1..])
  {
    assert RemoveAt(s, 0) == s[1..];
    AgreeAfterRemoval(index, s, 0);
    StrictAfterRemoval(s, 0);
  }

  // The map determines the list: two strictly sorted lists of the same pairs
  // are equal, whatever order and levels they were built with.
  lemma {:induction false} Canonical(index: Index, s: seq<Entry>, t: seq<Entry>)
    requires StrictlySorted(s) && StrictlySorted(t) && Agree(index, s) && Agree(index, t)
    ensures s == t
    decreases |s|
  {
    if s != [] {
      SameHead(index, s, t);
      TailKeepsAgreement(index, s);
      TailKeepsAgreement(index, t);
      Canonical(index - {s[0].member}, s[1..], t[1..]);
      assert s == [s[0]] + s[1..] && t == [t[0]] + t[1..];
    } else if t != [] {
      SameHead(index, t, s);
    }
  }

  lemma {:induction false} AgreeCounts(index: Index, s: seq<Entry>)
    requires StrictlySorted(s) && Agree(index, s)
    ensures |s| == |index|
    decreases |s|
  {
    if s == [] {
      assert index.Keys == {};
    } else {
      TailKeepsAgreement(index, s);
      AgreeCounts(index - {s[0].member}, s[1..]);
      assert index.Keys == (index - {s[0].member}).Keys + {s[0].member};
    }
  }

  // Deleting the pair the index knows for a member, and inserting one for a
  // member it does not know, as the skip list performs them.
  lemma {:induction false} DropKeepsAgreement(index: Index, s: seq<Entry>, member: Bytes)
    requires StrictlySorted(s) && Agree(index, s) && member in index
    ensures var e := Entry(index[member], member); var c := Cut(s, e);
            && c < |s| && s[c] == e
            && StrictlySorted(RemoveAt(s, c)) && Agree(index - {member}, RemoveAt(s, c))
  {
    var k :| 0 <= k < |s| && s[k] == Entry(index[member], member);
    CutFinds(s, k);
    StrictAfterRemoval(s, k);
    AgreeAfterRemoval(index, s, k);
  }

  lemma {:induction false} EnterKeepsAgreement(index: Index, s: seq<Entry>, e: Entry)
    requires StrictlySorted(s) && Agree(index, s) && e.member !in index
    ensures StrictlySorted(InsertAt(s, Cut(s, e), e)) && Agree(index[e.member := e.score], InsertAt(s, Cut(s, e), e))
  {
    StrictAfterInsertion(s, e);
    AgreeAfterInsertion(index, s, e, Cut(s, e));
  }

  class ZSet {
    var index: Index
    const list: SkipList

    ghost predicate Valid()
      reads this, list, list.Repr
    {
      && this !in list.Repr && list.Valid()
      && StrictlySorted(list.Contents())
      && Agree(index, list.Contents())
    }

    constructor ()
      ensures Valid() && fresh(list) && fresh(list.Repr)
      ensures index == map[]
    {
      list := new SkipList();
      index := map[];
    }

    // Removes the pair the index knows for a member.
    method Drop(member: Bytes)
      requires Valid() && member in index
      modifies this, list.Repr
      ensures Valid() && list.Repr == old(list.Repr)
      ensures index == old(index) - {member}
    {
      ghost var s := list.Contents();
      var e := Entry(index[member], member);
      DropKeepsAgreement(index, s, member);
      var removed := list.Delete(e);
      assert list.Contents() == RemoveAt(s, Cut(s, e));
      index := index - {member};
    }

    // Adds a pair whose member the index does not know.
    method Enter(score: Score, member: Bytes, lvl: nat)
      requires Valid() && member !in index && 1 <= lvl <= MAX_LEVEL
      modifies this, list.Repr
      ensures Valid() && fresh(list.Repr - old(list.Repr))
      ensures index == old(index)[member := score]
    {
      EnterKeepsAgreement(index, list.Contents(), Entry(score, member));
      var _ := list.Insert(Entry(score, member), lvl);
      index := index[member := score];
    }

    // Moves a known member to a new score.
    method Move(score: Score, member: Bytes, lvl: nat)
      requires Valid() && member in index && 1 <= lvl <= MAX_LEVEL
      modifies this, list.Repr
      ensures Valid() && fresh(list.Repr - old(list.Repr))
      ensures index == old(index)[member := score]
    {
      assert (index - {member})[member := score] == index[member := score];
      Drop(member);
      Enter(score, member, lvl);
    }

    // Inserts or updates a member; true exactly for a new member.
    method Add(score: Score, member: Bytes, lvl: nat) returns (added: bool)
      requires Valid() && 1 <= lvl <= MAX_LEVEL
      modifies this, list.Repr
      ensures Valid() && fresh(list.Repr - old(list.Repr))
      ensures index == Put(old(index), score, member)
      ensures added <==> member !in old(index)
      ensures |index| == |old(index)| + if added then 1 else 0
    {
      PutCounts(index, score, member);
      added := member !in index;
      if added {
        Enter(score, member, lvl);
      } else if Rank(index[member]) != Rank(score) {
        Move(score, member, lvl);
      }
    }

    method Range(start: int, stop: int) returns (result: seq<Entry>)
      requires Valid()
      ensures result == Slice(list.Contents(), start, stop)
      ensures start == 0 && stop == -1 ==> StrictlySorted(result) && Agree(index, result)
      ensures exists all :: StrictlySorted(all) && Agree(index, all) && Between(all, start, stop, result)
    {
      result := list.Range(start, stop);
      assert StrictlySorted(list.Contents()) && Agree(index, list.Contents());
    }

    method Card() returns (n: nat)
      requires Valid()
      ensures n == |index|
    {
      AgreeCounts(index, list.Contents());
      n := list.length;
    }
  }
}
