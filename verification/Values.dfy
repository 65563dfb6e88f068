// Stored values, what the engine charges for them, and sums over sets and maps
// of such charges.
module Values {
  import opened Ordering
  import opened ZSets

  datatype Value = Str(data: Bytes) | List(items: seq<Bytes>) | SortedSet(index: Index)

  // Zero means that the entry does not expire.
  datatype Entry = Entry(value: Value, size: nat, expiresAt: int)

  type Dict = map<Bytes, Entry>

  const STRING_OVERHEAD: nat := 64
  const LIST_NODE_OVERHEAD: nat := 48
  const ZSET_OVERHEAD: nat := 80
  const ZSET_NODE_OVERHEAD: nat := 64

  predicate Expired(e: Entry, now: int) {
    e.expiresAt != 0 && now >= e.expiresAt
  }

  // The entries that have not expired.
  ghost function Visible(d: Dict, now: int): Dict {
    map k | k in d && !Expired(d[k], now) :: d[k]
  }

  // ---------------------------------------------------------------- charges

  function ItemsSize(items: seq<Bytes>): nat {
    if items == [] then 0 else LIST_NODE_OVERHEAD + |items[0]| + ItemsSize(items[1..])
  }

  ghost function MembersSize(members: set<Bytes>): nat {
    if members == {} then 0
    else
      var m :| m in members;
      ZSET_NODE_OVERHEAD + |m| + MembersSize(members - {m})
  }

  // What an entry is charged for under its key.
  ghost function Charge(key: Bytes, v: Value): nat {
    match v
    case Str(data) => STRING_OVERHEAD + |key| + |data|
    case List(items) => STRING_OVERHEAD + |key| + ItemsSize(items)
    case SortedSet(index) => ZSET_OVERHEAD + |key| + MembersSize(index.Keys)
  }

  lemma {:induction false} ItemsSizeAppend(a: seq<Bytes>, b: seq<Bytes>)
    ensures ItemsSize(a + b) == ItemsSize(a) + ItemsSize(b)
    decreases |a|
  {
    if a == [] {
      assert a + b == b;
    } else {
      ItemsSizeAppend(a[1..], b);
      assert (a + b)[1..] == a[1..] + b;
    }
  }

  // The order in which members are summed does not matter.
  lemma {:induction false} MembersSizeTake(members: set<Bytes>, m: Bytes)
    requires m in members
    ensures MembersSize(members) == ZSET_NODE_OVERHEAD + |m| + MembersSize(members - {m})
    decreases |members|
  {
    var k :| k in members && MembersSize(members) == ZSET_NODE_OVERHEAD + |k| + MembersSize(members - {k});
    if k != m {
      MembersSizeTake(members - {k}, m);
      MembersSizeTake(members - {m}, k);
      assert members - {k} - {m} == members - {m} - {k};
    }
  }

  lemma {:induction false} MembersSizeUnion(a: set<Bytes>, b: set<Bytes>)
    requires a !! b
    ensures MembersSize(a + b) == MembersSize(a) + MembersSize(b)
    decreases |b|
  {
    if b == {} {
      assert a + b == a;
    } else {
      var m :| m in b;
      MembersSizeTake(b, m);
      MembersSizeTake(a + b, m);
      assert a + b - {m} == a + (b - {m});
      MembersSizeUnion(a, b - {m});
    }
  }

  lemma {:induction false} MembersSizeSubset(a: set<Bytes>, b: set<Bytes>)
    requires a <= b
    ensures MembersSize(a) <= MembersSize(b)
  {
    assert b == a + (b - a);
    MembersSizeUnion(a, b - a);
  }

  // ------------------------------------------------------------------ totals

  // The sum of the sizes of all entries.
  ghost function Total(d: Dict): nat
    decreases |d|
  {
    if d == map[] then 0
    else
      var k :| k in d;
      Smaller(d, k);
      d[k].size + Total(d - {k})
  }

  lemma {:induction false} Smaller(d: Dict, k: Bytes)
    requires k in d
    ensures |d - {k}| == |d| - 1
  {
    assert (d - {k}).Keys == d.Keys - {k};
    assert |d| == |d.Keys| && |d - {k}| == |(d - {k}).Keys|;
  }

  lemma {:induction false} TotalTake(d: Dict, k: Bytes)
    requires k in d
    ensures Total(d) == d[k].size + Total(d - {k})
    decreases |d|
  {
    var j :| j in d && Total(d) == d[j].size + Total(d - {j});
    if j != k {
      Smaller(d, j);
      Smaller(d, k);
      TotalTake(d - {j}, k);
      TotalTake(d - {k}, j);
      assert d - {j} - {k} == d - {k} - {j};
    }
  }

  ghost function SizeAt(d: Dict, key: Bytes): nat {
    if key in d then d[key].size else 0
  }

  lemma {:induction false} TotalWithout(d: Dict, key: Bytes)
    ensures Total(d) == SizeAt(d, key) + Total(d - {key})
  {
    if key in d {
      TotalTake(d, key);
    } else {
      assert d - {key} == d;
    }
  }

  lemma {:induction false} TotalPut(d: Dict, key: Bytes, e: Entry)
    ensures Total(d[key := e]) + SizeAt(d, key) == Total(d) + e.size
  {
    TotalWithout(d, key);
    TotalWithout(d[key := e], key);
    assert d[key := e] - {key} == d - {key};
  }
}
