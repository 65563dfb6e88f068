// The striped key dictionary with its byte accounting. Every operation is
// specified on the one map the stripes stand for.
module Stores {
  import opened Options
  import opened Ordering
  import opened Decimal
  import opened Powers
  import opened Striping
  import opened Values
  import ZSets
  import SkipLists

  datatype Condition = Always | IfMissing | IfPresent

  // A reply of an operation that needs a certain type of value.
  datatype Reply<+T> = Ok(value: T) | WrongType | NotInteger | Overflow

  // ------------------------------------------- operations on one dictionary

  // Whoever touches an expired key removes it first.
  ghost function Purge(d: Dict, key: Bytes, now: int): Dict {
    if key in d && Expired(d[key], now) then d - {key} else d
  }

  ghost function Charged(key: Bytes, v: Value, expiresAt: int): Entry {
    Entry(v, Charge(key, v), expiresAt)
  }

  // An update keeps the expiry of the entry it changes.
  ghost function Updated(d: Dict, key: Bytes, v: Value): Dict {
    d[key := Charged(key, v, if key in d then d[key].expiresAt else 0)]
  }

  ghost function Found(d: Dict, key: Bytes, now: int): Option<Entry> {
    var p := Purge(d, key, now);
    if key in p then Some(p[key]) else None
  }

  predicate Permits(condition: Condition, present: bool) {
    match condition
    case Always => true
    case IfMissing => !present
    case IfPresent => present
  }

  ghost function AfterSet(d: Dict, key: Bytes, data: Bytes, expiresAt: int, condition: Condition, now: int): (Dict, bool) {
    var p := Purge(d, key, now);
    if Permits(condition, key in p) then (p[key := Charged(key, Str(data), expiresAt)], true) else (p, false)
  }

  // The number an increment makes of what it finds.
  function Incremented(found: Option<Entry>, delta: int): Reply<int> {
    if found.Some? && !found.value.value.Str? then WrongType
    else
      var parsed := if found.Some? then Parse(found.value.value.data) else Some(0);
      if parsed.None? then NotInteger
      else if !(MIN_INT64 <= parsed.value + delta <= MAX_INT64) then Overflow
      else Ok(parsed.value + delta)
  }

  ghost function AfterIncrement(d: Dict, key: Bytes, delta: int, now: int): (Dict, Reply<int>) {
    var p := Purge(d, key, now);
    var r := Incremented(Found(d, key, now), delta);
    (if r.Ok? then Updated(p, key, Str(Format(r.value))) else p, r)
  }

  ghost function AfterExpireAt(d: Dict, key: Bytes, expiresAt: int, now: int): (Dict, bool) {
    var p := Purge(d, key, now);
    if key in p then (p[key := p[key].(expiresAt := expiresAt)], true) else (p, false)
  }

  function Reversed(s: seq<Bytes>): seq<Bytes> {
    if s == [] then [] else Reversed(s[1..]) + [s[0]]
  }

  // Pushing on the left puts the last value first.
  function Pushed(items: seq<Bytes>, values: seq<Bytes>, left: bool): seq<Bytes> {
    if left then Reversed(values) + items else items + values
  }

  ghost function AfterPush(d: Dict, key: Bytes, values: seq<Bytes>, left: bool, now: int): (Dict, Reply<nat>) {
    var p := Purge(d, key, now);
    if key in p && !p[key].value.List? then (p, WrongType)
    else
      var items := Pushed(if key in p then p[key].value.items else [], values, left);
      (Updated(p, key, List(items)), Ok(|items|))
  }

  ghost function AfterPop(d: Dict, key: Bytes, left: bool, now: int): (Dict, Reply<Option<Bytes>>) {
    var p := Purge(d, key, now);
    if key !in p then (p, Ok(None))
    else if !p[key].value.List? then (p, WrongType)
    else
      var items := p[key].value.items;
      if items == [] then (p, Ok(None))
      else
        var (value, rest) := if left then (items[0], items[1..]) else (items[|items| - 1], items[..|items| - 1]);
        (if rest == [] then p - {key} else Updated(p, key, List(rest)), Ok(Some(value)))
  }

  ghost function AfterZAdd(d: Dict, key: Bytes, pairs: seq<SkipLists.Entry>, now: int): (Dict, Reply<nat>) {
    var p := Purge(d, key, now);
    if key in p && !p[key].value.SortedSet? then (p, WrongType)
    else
      var index: ZSets.Index := if key in p then p[key].value.index else map[];
      (Updated(p, key, SortedSet(ZSets.PutAll(index, pairs))), Ok(NewCount(index, pairs)))
  }

  // How many of the members are not there yet.
  ghost function NewCount(index: ZSets.Index, pairs: seq<SkipLists.Entry>): nat {
    |ZSets.Members(pairs) - index.Keys|
  }

  ghost function DictOf(entries: seq<(Bytes, Entry)>): Dict {
    if entries == [] then map[]
    else
      var (key, e) := entries[|entries| - 1];
      DictOf(entries[..|entries| - 1])[key := e]
  }

  // ------------------------------------------------------------- the stripes

  ghost predicate Exact(d: Dict) {
    forall k :: k in d ==> d[k].size == Charge(k, d[k].value)
  }

  // Every key is in its home stripe, and in no other.
  ghost predicate Placed(stripes: seq<Dict>, d: Dict, home: Bytes -> nat) {
    && (forall k {:trigger k in d} :: k in d ==> home(k) < |stripes| && k in stripes[home(k)] && stripes[home(k)][k] == d[k])
    && (forall i, k {:trigger k in stripes[i]} :: 0 <= i < |stripes| && k in stripes[i] ==> k in d && home(k) == i)
  }

  lemma {:induction false} PlacedErase(stripes: seq<Dict>, d: Dict, home: Bytes -> nat, key: Bytes)
    requires Placed(stripes, d, home) && key in d
    ensures Placed(stripes[home(key) := stripes[home(key)] - {key}], d - {key}, home)
  {
  }

  lemma {:induction false} PlacedWrite(stripes: seq<Dict>, d: Dict, home: Bytes -> nat, key: Bytes, e: Entry)
    requires Placed(stripes, d, home) && home(key) < |stripes|
    ensures Placed(stripes[home(key) := stripes[home(key)][key := e]], d[key := e], home)
    ensures key in stripes[home(key)] <==> key in d
  {
  }

  class Store {
    const hash: Bytes -> Hash
    const count: nat
    const powerTwo: bool
    const mask: nat
    var stripes: seq<Dict>
    var used: Word
    // The map that the stripes stand for, and where its keys belong.
    ghost var dict: Dict
    ghost const home: Bytes -> nat

    // Every key is in its own stripe and nowhere else; every entry is charged
    // for what it holds; the counter is the sum of the charges, wrapped.
    ghost predicate Valid()
      reads this
    {
      && Masked() && |stripes| == count
      && Placed(stripes, dict, home)
      && Exact(dict)
      && used == Total(dict) % WORD
    }

    ghost predicate Masked() {
      && count > 0 && (powerTwo ==> PowerOfTwo(count) && mask == count - 1)
      && (forall k {:trigger AtHome(k)} :: AtHome(k))
    }

    // A key's home is the remainder of its hash.
    ghost predicate AtHome(key: Bytes)
      requires count > 0
    {
      home(key) == hash(key) % count
    }

    // With a mask or with a remainder, the same stripe.
    method StripeFor(key: Bytes) returns (i: nat)
      requires Masked()
      ensures i < count && i == home(key)
    {
      assert AtHome(key);
      if powerTwo {
        ghost var k :| Pow2(k) == count;
        MaskIsModulo(hash(key), k);
        return And(hash(key), mask);
      }
      return hash(key) % count;
    }

    constructor (requested: int, hash: Bytes -> Hash)
      ensures Valid() && dict == map[] && used == 0 && this.hash == hash
      ensures count == if requested < 1 then 1 else requested
    {
      var n: nat := if requested < 1 then 1 else requested;
      var target := NextPowerOfTwo(n);
      this.hash := hash;
      powerTwo := target == n;
      mask := n - 1;
      count := n;
      stripes := seq(n, _ => map[]);
      used := 0;
      dict := map[];
      home := k => hash(k) % n;
    }

    method Lookup(key: Bytes) returns (r: Option<Entry>)
      requires Valid()
      ensures r == if key in dict then Some(dict[key]) else None
    {
      var st := StripeFor(key);
      if key in stripes[st] {
        return Some(stripes[st][key]);
      }
      return None;
    }

    // Removes an entry and gives its bytes back.
    method Erase(key: Bytes)
      requires Valid() && key in dict
      modifies this
      ensures Valid() && dict == old(dict) - {key}
    {
      var st := StripeFor(key);
      TotalTake(dict, key);
      SubFollows(Total(dict), dict[key].size);
      PlacedErase(stripes, dict, home, key);
      used := SubUsed(used, stripes[st][key].size);
      stripes := stripes[st := stripes[st] - {key}];
      dict := dict - {key};
    }

    // Stores an entry and charges the difference.
    method Write(key: Bytes, e: Entry)
      requires Valid() && e.size == Charge(key, e.value)
      modifies this
      ensures Valid() && dict == old(dict)[key := e]
    {
      var st := StripeFor(key);
      TotalPut(dict, key, e);
      TotalWithout(dict, key);
      AdjustFollows(Total(dict), SizeAt(dict, key), e.size);
      AddFollows(Total(dict), e.size);
      PlacedWrite(stripes, dict, home, key, e);
      if key in stripes[st] {
        used := AdjustUsed(used, stripes[st][key].size, e.size);
      } else {
        used := AddUsed(used, e.size);
      }
      stripes := stripes[st := stripes[st][key := e]];
      dict := dict[key := e];
    }

    // The lookup every operation starts with.
    method Live(key: Bytes, now: int) returns (r: Option<Entry>)
      requires Valid()
      modifies this
      ensures Valid() && dict == Purge(old(dict), key, now) && r == Found(old(dict), key, now)
    {
      r := Lookup(key);
      if r.Some? && Expired(r.value, now) {
        Erase(key);
        r := None;
      }
    }

    method Get(key: Bytes, now: int) returns (r: Option<Entry>)
      requires Valid()
      modifies this
      ensures Valid() && dict == Purge(old(dict), key, now) && r == Found(old(dict), key, now)
    {
      r := Live(key, now);
    }

    method SetString(key: Bytes, data: Bytes, expiresAt: int, condition: Condition, now: int) returns (ok: bool)
      requires Valid()
      modifies this
      ensures Valid() && (dict, ok) == AfterSet(old(dict), key, data, expiresAt, condition, now)
    {
      var existing := Live(key, now);
      if condition == IfMissing && existing.Some? {
        return false;
      }
      if condition == IfPresent && existing.None? {
        return false;
      }
      Write(key, Entry(Str(data), STRING_OVERHEAD + |key| + |data|, expiresAt));
      return true;
    }

    method DeleteWithSize(key: Bytes) returns (freed: nat, ok: bool)
      requires Valid()
      modifies this
      ensures Valid() && dict == old(dict) - {key}
      ensures ok == (key in old(dict)) && freed == SizeAt(old(dict), key)
    {
      var e := Lookup(key);
      if e.None? {
        assert dict - {key} == dict;
        return 0, false;
      }
      Erase(key);
      return e.value.size, true;
    }

    method IncrementBy(key: Bytes, delta: int, now: int) returns (r: Reply<int>)
      requires Valid()
      modifies this
      ensures Valid() && (dict, r) == AfterIncrement(old(dict), key, delta, now)
    {
      var e := Live(key, now);
      r := NextNumber(e, delta);
      if r.Ok? {
        var data := Format(r.value);
        Write(key, Entry(Str(data), STRING_OVERHEAD + |key| + |data|, if e.Some? then e.value.expiresAt else 0));
      }
    }

    method SetExpireAt(key: Bytes, expiresAt: int, now: int) returns (ok: bool)
      requires Valid()
      modifies this
      ensures Valid() && (dict, ok) == AfterExpireAt(old(dict), key, expiresAt, now)
    {
      var e := Live(key, now);
      if e.None? {
        return false;
      }
      Write(key, e.value.(expiresAt := expiresAt));
      return true;
    }

    method ListPush(key: Bytes, values: seq<Bytes>, left: bool, now: int) returns (r: Reply<nat>)
      requires Valid()
      modifies this
      ensures Valid() && (dict, r) == AfterPush(old(dict), key, values, left, now)
    {
      var e := Live(key, now);
      if e.Some? && !e.value.value.List? {
        return WrongType;
      }
      var items := Pushed(if e.Some? then e.value.value.items else [], values, left);
      var size := ListEntrySize(key, items);
      Write(key, Entry(List(items), size, if e.Some? then e.value.expiresAt else 0));
      return Ok(|items|);
    }

    method ListPop(key: Bytes, left: bool, now: int) returns (r: Reply<Option<Bytes>>)
      requires Valid()
      modifies this
      ensures Valid() && (dict, r) == AfterPop(old(dict), key, left, now)
    {
      var e := Live(key, now);
      if e.None? {
        return Ok(None);
      }
      if !e.value.value.List? {
        return WrongType;
      }
      var items := e.value.value.items;
      if items == [] {
        return Ok(None);
      }
      var value, rest := items[0], items[1..];
      if !left {
        value, rest := items[|items| - 1], items[..|items| - 1];
      }
      if rest == [] {
        Erase(key);
      } else {
        var size := ListEntrySize(key, rest);
        Write(key, Entry(List(rest), size, e.value.expiresAt));
      }
      return Ok(Some(value));
    }

    method ZSetAdd(key: Bytes, pairs: seq<SkipLists.Entry>, now: int) returns (r: Reply<nat>)
      requires Valid()
      modifies this
      ensures Valid() && (dict, r) == AfterZAdd(old(dict), key, pairs, now)
    {
      var e := Live(key, now);
      if e.Some? && !e.value.value.SortedSet? {
        return WrongType;
      }
      var index, added := AddPairs(if e.Some? then e.value.value.index else map[], pairs);
      var size := ZSetEntrySize(key, index);
      Write(key, Entry(SortedSet(index), size, if e.Some? then e.value.expiresAt else 0));
      return Ok(added);
    }

    // Installs a whole dataset with its total.
    method ReplaceAll(entries: seq<(Bytes, Entry)>, total: Word)
      requires Valid() && Exact(DictOf(entries)) && total == Total(DictOf(entries)) % WORD
      modifies this
      ensures Valid() && dict == DictOf(entries)
    {
      stripes := seq(count, _ => map[]);
      dict := map[];
      for i := 0 to |entries|
        invariant Masked() && |stripes| == count
        invariant dict == DictOf(entries[..i]) && Placed(stripes, dict, home)
      {
        var (key, e) := entries[i];
        assert entries[..i + 1][..i] == entries[..i];
        var st := StripeFor(key);
        PlacedWrite(stripes, dict, home, key, e);
        stripes := stripes[st := stripes[st][key := e]];
        dict := dict[key := e];
      }
      assert entries[..|entries|] == entries;
      used := total;
    }

    // Empties stripe after stripe.
    method Flush() returns (n: nat)
      requires Valid()
      modifies this
      ensures Valid() && dict == map[] && n == |old(dict)|
    {
      n := 0;
      for i := 0 to |stripes|
        invariant Valid() && |stripes| == count
        invariant forall k :: k in dict ==> home(k) >= i
        invariant n + |dict| == |old(dict)|
      {
        var dropped := FlushStripe(i);
        n := n + dropped;
      }
      assert dict == map[];
    }

    method FlushStripe(i: nat) returns (n: nat)
      requires Valid() && i < |stripes|
      modifies this
      ensures Valid() && n + |dict| == |old(dict)|
      ensures forall k :: k in dict ==> k in old(dict) && home(k) != i
    {
      n := 0;
      while stripes[i] != map[]
        invariant Valid() && |stripes| == count
        invariant dict.Keys <= old(dict).Keys && n + |dict| == |old(dict)|
        decreases |dict|
      {
        var k :| k in stripes[i];
        Smaller(dict, k);
        Erase(k);
        n := n + 1;
      }
    }
  }

  // ------------------------------------------------------ steps on values

  method NextNumber(found: Option<Entry>, delta: int) returns (r: Reply<int>)
    ensures r == Incremented(found, delta)
  {
    var current := 0;
    if found.Some? {
      if !found.value.value.Str? {
        return WrongType;
      }
      var parsed := Parse(found.value.value.data);
      if parsed.None? {
        return NotInteger;
      }
      current := parsed.value;
    }
    if (delta > 0 && current > MAX_INT64 - delta) || (delta < 0 && current < MIN_INT64 - delta) {
      return Overflow;
    }
    return Ok(current + delta);
  }

  // Walks the list and adds up its nodes.
  method ListEntrySize(key: Bytes, items: seq<Bytes>) returns (size: nat)
    ensures size == Charge(key, List(items))
  {
    size := STRING_OVERHEAD + |key|;
    for i := 0 to |items|
      invariant size == STRING_OVERHEAD + |key| + ItemsSize(items[..i])
    {
      size := size + LIST_NODE_OVERHEAD + |items[i]|;
      ItemsSizeAppend(items[..i], [items[i]]);
      assert items[..i + 1] == items[..i] + [items[i]];
      assert ItemsSize([items[i]]) == LIST_NODE_OVERHEAD + |items[i]|;
    }
    assert items[..|items|] == items;
  }

  // Walks the index in any order.
  method ZSetEntrySize(key: Bytes, index: ZSets.Index) returns (size: nat)
    ensures size == Charge(key, SortedSet(index))
  {
    size := ZSET_OVERHEAD + |key|;
    var rest := index.Keys;
    while rest != {}
      invariant size + MembersSize(rest) == Charge(key, SortedSet(index))
      decreases |rest|
    {
      var m :| m in rest;
      MembersSizeTake(rest, m);
      size := size + ZSET_NODE_OVERHEAD + |m|;
      rest := rest - {m};
    }
  }

  lemma {:induction false} AddedAreNew(index: ZSets.Index, pairs: seq<SkipLists.Entry>)
    ensures |ZSets.PutAll(index, pairs)| == |index| + NewCount(index, pairs)
  {
    var r := ZSets.PutAll(index, pairs);
    ZSets.PutAllKeys(index, pairs);
    assert r.Keys == index.Keys + (ZSets.Members(pairs) - index.Keys);
    assert |r| == |r.Keys| && |index| == |index.Keys|;
  }

  method AddPairs(index: ZSets.Index, pairs: seq<SkipLists.Entry>) returns (r: ZSets.Index, added: nat)
    ensures r == ZSets.PutAll(index, pairs) && added == NewCount(index, pairs)
  {
    r, added := index, 0;
    for i := 0 to |pairs|
      invariant r == ZSets.PutAll(index, pairs[..i]) && added + |index| == |r|
    {
      var p := pairs[i];
      ZSets.PutAllStep(index, pairs, i);
      ZSets.PutCounts(r, p.score, p.member);
      if p.member !in r {
        added := added + 1;
      }
      r := ZSets.Put(r, p.score, p.member);
    }
    assert pairs[..|pairs|] == pairs;
    AddedAreNew(index, pairs);
  }
}
