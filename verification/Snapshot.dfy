// Snapshots of the dataset and their restoration, and the transfer of one
// slot's entries from a leader to its replica.
module Snapshots {
  import opened Options
  import opened Ordering
  import opened Striping
  import opened Values
  import opened Stores
  import P = Payloads
  import S = SkipLists
  import Z = ZSets
  import Sorting
  import M = Metadata
  import SlotMaps

  const MAX_WORD: nat := 0xFFFF_FFFF_FFFF_FFFF

  datatype Kind = StringKind | ListKind | ZSetKind | UnknownKind

  // An entry as a snapshot carries it.
  datatype Item = Item(key: Bytes, kind: Kind, payload: Bytes, size: nat, expiresAt: int)

  // ------------------------------------------------------------ single items

  // The members of a sorted set in the order its skip list keeps them.
  ghost function Listing(index: Z.Index): seq<S.Entry> {
    if exists r :: Ordered(index, r) then (var r :| Ordered(index, r); r) else []
  }

  ghost predicate Ordered(index: Z.Index, r: seq<S.Entry>) {
    S.StrictlySorted(r) && Z.Agree(index, r)
  }

  lemma {:induction false} IndexShrinks(index: Z.Index, m: Bytes)
    requires m in index
    ensures |index - {m}| == |index| - 1
  {
    assert (index - {m}).Keys == index.Keys - {m};
    assert |index| == |index.Keys| && |index - {m}| == |(index - {m}).Keys|;
  }

  lemma {:induction false} OrderedInsertion(index: Z.Index, r: seq<S.Entry>, e: S.Entry)
    requires Ordered(index, r) && e.member !in index
    ensures Ordered(index[e.member := e.score], S.InsertAt(r, S.Cut(r, e), e))
  {
    Z.StrictAfterInsertion(r, e);
    Z.AgreeAfterInsertion(index, r, e, S.Cut(r, e));
  }

  lemma {:induction false} OrderExists(index: Z.Index) returns (r: seq<S.Entry>)
    ensures Ordered(index, r)
    decreases |index|
  {
    if index == map[] {
      r := [];
    } else {
      var m :| m in index;
      var rest, e := index - {m}, S.Entry(index[m], m);
      IndexShrinks(index, m);
      r := OrderExists(rest);
      OrderedInsertion(rest, r, e);
      assert rest[e.member := e.score] == index;
      r := S.InsertAt(r, S.Cut(r, e), e);
    }
  }

  // There is exactly one such order.
  lemma {:induction false} ListingIs(index: Z.Index, r: seq<S.Entry>)
    ensures Ordered(index, Listing(index))
    ensures Ordered(index, r) ==> r == Listing(index)
  {
    var s := OrderExists(index);
    if Ordered(index, r) {
      Z.Canonical(index, r, Listing(index));
    }
  }

  ghost function EncodeValue(v: Value): Option<Bytes> {
    match v
    case Str(data) => Some(data)
    case List(items) => P.EncodeList(items)
    case SortedSet(index) => P.EncodeZSet(Listing(index))
  }

  function KindOf(v: Value): Kind {
    match v
    case Str(_) => StringKind
    case List(_) => ListKind
    case SortedSet(_) => ZSetKind
  }

  ghost function ItemOf(key: Bytes, e: Entry): Option<Item> {
    var payload := EncodeValue(e.value);
    if payload.None? then None else Some(Item(key, KindOf(e.value), payload.value, e.size, e.expiresAt))
  }

  function DecodeValue(kind: Kind, payload: Bytes): Option<Value> {
    match kind
    case StringKind => Some(Str(payload))
    case ListKind => (var items := P.DecodeList(payload); if items.None? then None else Some(List(items.value)))
    case ZSetKind => (var index := P.DecodeZSet(payload); if index.None? then None else Some(SortedSet(index.value)))
    case UnknownKind => None
  }

  // An item whose declared size is not the size of its value is refused.
  ghost function DecodeItem(item: Item): Option<Entry> {
    var v := DecodeValue(item.kind, item.payload);
    if v.None? || Charge(item.key, v.value) != item.size then None else Some(Entry(v.value, item.size, item.expiresAt))
  }

  // The values a payload brings back.
  ghost predicate ComesBack(v: Value) {
    match v
    case Str(_) => true
    case List(items) => items == [] || items[|items| - 1] != []
    case SortedSet(index) => (var r := Listing(index); r == [] || r[|r| - 1].member != [])
  }

  lemma {:induction false} ListValueBack(items: seq<Bytes>)
    requires EncodeValue(List(items)).Some?
    ensures DecodeValue(ListKind, EncodeValue(List(items)).value) == if ComesBack(List(items)) then Some(List(items)) else None
  {
    P.ListComesBack(items);
  }

  lemma {:induction false} DecodedZSet(decoded: Option<Z.Index>, raw: Bytes)
    requires P.DecodeZSet(raw) == decoded
    ensures DecodeValue(ZSetKind, raw) == if decoded.None? then None else Some(SortedSet(decoded.value))
  {
  }

  lemma {:induction false} ZSetValueBack(index: Z.Index)
    requires EncodeValue(SortedSet(index)).Some?
    ensures DecodeValue(ZSetKind, EncodeValue(SortedSet(index)).value) ==
      if ComesBack(SortedSet(index)) then Some(SortedSet(index)) else None
  {
    var entries := Listing(index);
    var raw := EncodeValue(SortedSet(index)).value;
    ListingIs(index, []);
    P.ZSetRoundTrip(index, entries, raw);
    DecodedZSet(if entries == [] || entries[|entries| - 1].member != [] then Some(index) else None, raw);
  }

  lemma {:induction false} ValueComesBack(v: Value)
    requires EncodeValue(v).Some?
    ensures DecodeValue(KindOf(v), EncodeValue(v).value) == if ComesBack(v) then Some(v) else None
  {
    match v
    case Str(_) =>
    case List(items) => ListValueBack(items);
    case SortedSet(index) => ZSetValueBack(index);
  }

  lemma {:induction false} ItemComesBack(key: Bytes, e: Entry)
    requires e.size == Charge(key, e.value) && ItemOf(key, e).Some?
    ensures DecodeItem(ItemOf(key, e).value) == if ComesBack(e.value) then Some(e) else None
  {
    ValueComesBack(e.value);
  }

  // ---------------------------------------------------------- whole datasets

  ghost function KeysOf(items: seq<Item>): set<Bytes> {
    set i | i in items :: i.key
  }

  predicate ItemExpired(item: Item, now: int) {
    item.expiresAt != 0 && item.expiresAt <= now
  }

  // How one item is decoded.
  type Decoder = Item -> Option<Entry>

  // Duplicate keys, undecodable items and totals beyond 64 bits are errors;
  // expired items are skipped.
  ghost function Loaded(decode: Decoder, items: seq<Item>, now: int): Option<Dict> {
    if items == [] then Some(map[])
    else
      var front, last := items[..|items| - 1], items[|items| - 1];
      var prev := Loaded(decode, front, now);
      if prev.None? || last.key in KeysOf(front) then None
      else if ItemExpired(last, now) then prev
      else
        var e := decode(last);
        if e.None? || Total(prev.value) + e.value.size > MAX_WORD then None else Some(prev.value[last.key := e.value])
  }

  ghost function Restored(items: seq<Item>, now: int, limit: Word): Option<Dict> {
    var d := Loaded(DecodeItem, items, now);
    if d.None? || (limit > 0 && Total(d.value) > limit) then None else d
  }

  // The items are entries of d, every key once.
  ghost predicate Lists(items: seq<Item>, d: Dict) {
    && (forall i :: 0 <= i < |items| ==> items[i].key in d && ItemOf(items[i].key, d[items[i].key]) == Some(items[i]))
    && (forall i, j :: 0 <= i < j < |items| ==> items[i].key != items[j].key)
  }

  // A snapshot at time t lists exactly the entries that have not expired.
  ghost predicate SnapshotOf(items: seq<Item>, d: Dict, t: int) {
    Lists(items, d) && forall k :: k in KeysOf(items) <==> k in d && !Expired(d[k], t)
  }

  ghost function Kept(d: Dict, keys: set<Bytes>, now: int): Dict {
    map k | k in d && k in keys && !Expired(d[k], now) :: d[k]
  }

  ghost predicate AllReturn(d: Dict) {
    forall k :: k in d ==> ComesBack(d[k].value)
  }

  lemma {:induction false} KeysOfAppend(items: seq<Item>, last: Item)
    ensures KeysOf(items + [last]) == KeysOf(items) + {last.key}
  {
    assert forall i :: i in items + [last] <==> i in items || i == last;
  }

  lemma {:induction false} KeptAppend(d: Dict, keys: set<Bytes>, k: Bytes, now: int)
    requires k in d && k !in keys
    ensures Kept(d, keys + {k}, now) == if Expired(d[k], now) then Kept(d, keys, now) else Kept(d, keys, now)[k := d[k]]
    ensures Total(Kept(d, keys + {k}, now)) == Total(Kept(d, keys, now)) + if Expired(d[k], now) then 0 else d[k].size
  {
    assert Kept(d, keys + {k}, now) == if Expired(d[k], now) then Kept(d, keys, now) else Kept(d, keys, now)[k := d[k]];
    TotalPut(Kept(d, keys, now), k, d[k]);
  }

  lemma {:induction false} AllReturnAppend(d: Dict, keys: set<Bytes>, k: Bytes, now: int)
    requires k in d && k !in keys
    ensures AllReturn(Kept(d, keys + {k}, now)) <==> AllReturn(Kept(d, keys, now)) && (Expired(d[k], now) || ComesBack(d[k].value))
  {
    var all, front := Kept(d, keys + {k}, now), Kept(d, keys, now);
    assert k in all <==> !Expired(d[k], now);
    assert forall j :: j in front ==> j in all && all[j] == front[j];
    assert forall j :: j in all && j != k ==> j in front;
  }

  // The decoder brings back what comes back, and refuses the rest.
  ghost predicate BringsBack(decode: Decoder, items: seq<Item>, d: Dict) {
    forall i :: 0 <= i < |items| ==>
      && items[i].key in d
      && decode(items[i]) == (if ComesBack(d[items[i].key].value) then Some(d[items[i].key]) else None)
  }

  lemma {:induction false} LoadedLast(decode: Decoder, front: seq<Item>, last: Item, now: int)
    ensures Loaded(decode, front + [last], now) ==
      var prev := Loaded(decode, front, now);
      if prev.None? || last.key in KeysOf(front) then None
      else if ItemExpired(last, now) then prev
      else if decode(last).None? || Total(prev.value) + decode(last).value.size > MAX_WORD then None
      else Some(prev.value[last.key := decode(last).value])
  {
    assert (front + [last])[..|front|] == front;
  }

  lemma {:induction false} LoadedBy(decode: Decoder, items: seq<Item>, d: Dict, now: int)
    requires Lists(items, d) && BringsBack(decode, items, d)
    ensures var kept := Kept(d, KeysOf(items), now);
      Loaded(decode, items, now) == if AllReturn(kept) && Total(kept) <= MAX_WORD then Some(kept) else None
    decreases |items|
  {
    if items == [] {
      assert Kept(d, KeysOf(items), now) == map[];
    } else {
      var front, last := items[..|items| - 1], items[|items| - 1];
      assert items == front + [last];
      assert Lists(front, d) && BringsBack(decode, front, d);
      LoadedBy(decode, front, d, now);
      LoadedLast(decode, front, last, now);
      KeysOfAppend(front, last);
      assert last.key !in KeysOf(front);
      KeptAppend(d, KeysOf(front), last.key, now);
      AllReturnAppend(d, KeysOf(front), last.key, now);
    }
  }

  // Loading the items of a dataset gives its unexpired entries, or fails:
  // exactly when one of them does not come back or their total overflows.
  lemma {:induction false} LoadedExactly(items: seq<Item>, d: Dict, now: int)
    requires Lists(items, d) && Exact(d)
    ensures var kept := Kept(d, KeysOf(items), now);
      Loaded(DecodeItem, items, now) == if AllReturn(kept) && Total(kept) <= MAX_WORD then Some(kept) else None
  {
    forall i | 0 <= i < |items|
      ensures DecodeItem(items[i]) == if ComesBack(d[items[i].key].value) then Some(d[items[i].key]) else None
    {
      ItemComesBack(items[i].key, d[items[i].key]);
    }
    LoadedBy(DecodeItem, items, d, now);
  }

  // The items are all entries of d.
  ghost predicate AllOf(items: seq<Item>, d: Dict) {
    Lists(items, d) && KeysOf(items) == d.Keys
  }

  function Later(t: int, now: int): int {
    if t <= now then now else t
  }

  lemma {:induction false} VisibleLater(d: Dict, t: int, now: int)
    ensures Visible(Visible(d, t), now) == Visible(d, Later(t, now))
  {
    assert Visible(Visible(d, t), now) == Visible(d, Later(t, now));
  }

  lemma {:induction false} SnapshotIsVisible(items: seq<Item>, d: Dict, t: int, now: int)
    requires SnapshotOf(items, d, t)
    ensures AllOf(items, Visible(d, t)) && Visible(Visible(d, t), now) == Visible(d, Later(t, now))
    ensures Exact(d) ==> Exact(Visible(d, t))
  {
    forall i | 0 <= i < |items|
      ensures items[i].key in Visible(d, t)
    {
      assert items[i].key in KeysOf(items);
    }
    assert KeysOf(items) == Visible(d, t).Keys;
    VisibleLater(d, t, now);
  }

  // Restoring a snapshot reproduces the dataset as it looks to the later of the
  // two clocks, and its byte total.
  lemma {:induction false} RestoreReproduces(items: seq<Item>, d: Dict, t: int, now: int, limit: Word)
    requires SnapshotOf(items, d, t) && Exact(d)
    ensures var live := Visible(d, Later(t, now));
      Restored(items, now, limit) ==
        if AllReturn(live) && Total(live) <= MAX_WORD && (limit == 0 || Total(live) <= limit) then Some(live) else None
  {
    SnapshotIsVisible(items, d, t, now);
    LoadedExactly(items, Visible(d, t), now);
    assert Kept(Visible(d, t), KeysOf(items), now) == Visible(Visible(d, t), now);
  }

  // ------------------------------------------------------------- slot transfer

  ghost function SlotPart(slotOf: Bytes -> nat, n: nat, d: Dict): Dict {
    map k | k in d && slotOf(k) == n :: d[k]
  }

  ghost function OtherPart(slotOf: Bytes -> nat, n: nat, d: Dict): Dict {
    map k | k in d && slotOf(k) != n :: d[k]
  }

  function InSlotItems(slotOf: Bytes -> nat, n: nat, items: seq<Item>, inside: bool): seq<Item> {
    if items == [] then []
    else
      var rest := InSlotItems(slotOf, n, items[..|items| - 1], inside);
      if (slotOf(items[|items| - 1].key) == n) == inside then rest + [items[|items| - 1]] else rest
  }

  lemma {:induction false} SlotItemsIn(slotOf: Bytes -> nat, n: nat, items: seq<Item>, inside: bool, item: Item)
    ensures item in InSlotItems(slotOf, n, items, inside) <==> item in items && (slotOf(item.key) == n) == inside
    decreases |items|
  {
    if items != [] {
      SlotItemsIn(slotOf, n, items[..|items| - 1], inside, item);
      assert items == items[..|items| - 1] + [items[|items| - 1]];
    }
  }

  lemma {:induction false} SlotItemsList(slotOf: Bytes -> nat, n: nat, items: seq<Item>, inside: bool, d: Dict)
    requires Lists(items, d)
    ensures Lists(InSlotItems(slotOf, n, items, inside), d)
    decreases |items|
  {
    if items != [] {
      var front, last := items[..|items| - 1], items[|items| - 1];
      assert Lists(front, d);
      SlotItemsList(slotOf, n, front, inside, d);
      var r := InSlotItems(slotOf, n, front, inside);
      forall i | 0 <= i < |r|
        ensures r[i].key != last.key
      {
        SlotItemsIn(slotOf, n, front, inside, r[i]);
        var j :| 0 <= j < |front| && front[j] == r[i];
        assert items[j] == r[i];
      }
    }
  }

  // The replica's other slots and the leader's entries of this one.
  ghost function Merged(slotOf: Bytes -> nat, n: nat, leader: Dict, replica: Dict): Dict {
    OtherPart(slotOf, n, replica) + SlotPart(slotOf, n, leader)
  }

  lemma {:induction false} CombinedLists(slotOf: Bytes -> nat, n: nat, leader: Dict, replica: Dict, theirs: seq<Item>, ours: seq<Item>)
    requires Lists(theirs, leader) && Lists(ours, replica)
    ensures Lists(InSlotItems(slotOf, n, ours, false) + InSlotItems(slotOf, n, theirs, true), Merged(slotOf, n, leader, replica))
  {
    var a, b := InSlotItems(slotOf, n, ours, false), InSlotItems(slotOf, n, theirs, true);
    SlotItemsList(slotOf, n, ours, false, replica);
    SlotItemsList(slotOf, n, theirs, true, leader);
    forall i | 0 <= i < |a|
      ensures slotOf(a[i].key) != n
    {
      SlotItemsIn(slotOf, n, ours, false, a[i]);
    }
    forall i | 0 <= i < |b|
      ensures slotOf(b[i].key) == n
    {
      SlotItemsIn(slotOf, n, theirs, true, b[i]);
    }
  }

  lemma {:induction false} CombinedKeeps(
    slotOf: Bytes -> nat, n: nat, leader: Dict, replica: Dict, theirs: seq<Item>, ours: seq<Item>, k: Bytes)
    requires AllOf(theirs, leader) && AllOf(ours, replica)
    requires k in Merged(slotOf, n, leader, replica)
    ensures k in KeysOf(InSlotItems(slotOf, n, ours, false) + InSlotItems(slotOf, n, theirs, true))
  {
    if slotOf(k) == n {
      assert k in KeysOf(theirs);
      var item :| item in theirs && item.key == k;
      SlotItemsIn(slotOf, n, theirs, true, item);
      assert item in InSlotItems(slotOf, n, ours, false) + InSlotItems(slotOf, n, theirs, true);
    } else {
      assert k in KeysOf(ours);
      var item :| item in ours && item.key == k;
      SlotItemsIn(slotOf, n, ours, false, item);
      assert item in InSlotItems(slotOf, n, ours, false) + InSlotItems(slotOf, n, theirs, true);
    }
  }

  lemma {:induction false} TransferKeeps(
    slotOf: Bytes -> nat, n: nat, leader: Dict, replica: Dict, theirs: seq<Item>, ours: seq<Item>, now: int)
    requires AllOf(theirs, leader) && AllOf(ours, replica)
    ensures var merged := Merged(slotOf, n, leader, replica);
      Kept(merged, KeysOf(InSlotItems(slotOf, n, ours, false) + InSlotItems(slotOf, n, theirs, true)), now) == Visible(merged, now)
  {
    var merged := Merged(slotOf, n, leader, replica);
    var combined := InSlotItems(slotOf, n, ours, false) + InSlotItems(slotOf, n, theirs, true);
    forall k | k in merged && !Expired(merged[k], now)
      ensures k in KeysOf(combined)
    {
      CombinedKeeps(slotOf, n, leader, replica, theirs, ours, k);
    }
  }

  lemma {:induction false} MergedExact(slotOf: Bytes -> nat, n: nat, leader: Dict, replica: Dict)
    requires Exact(leader) && Exact(replica)
    ensures Exact(Merged(slotOf, n, leader, replica))
  {
  }

  // The leader's entries of the slot as its snapshot saw them, and the replica's
  // own of every other slot.
  ghost function Transferred(slotOf: Bytes -> nat, n: nat, leader: Dict, replica: Dict, t: int, u: int, now: int): Dict {
    Visible(Merged(slotOf, n, Visible(leader, t), Visible(replica, u)), now)
  }

  // A transfer succeeds with the live entries of both sides; it fails exactly
  // when one of them does not come back or they do not fit.
  lemma {:induction false} SlotTransferExactly(
    slotOf: Bytes -> nat, n: nat, leader: Dict, replica: Dict, theirs: seq<Item>, ours: seq<Item>, t: int, u: int, now: int, limit: Word)
    requires SnapshotOf(theirs, leader, t) && SnapshotOf(ours, replica, u) && Exact(leader) && Exact(replica)
    ensures var live := Transferred(slotOf, n, leader, replica, t, u, now);
      Restored(InSlotItems(slotOf, n, ours, false) + InSlotItems(slotOf, n, theirs, true), now, limit) ==
        if AllReturn(live) && Total(live) <= MAX_WORD && (limit == 0 || Total(live) <= limit) then Some(live) else None
  {
    var combined := InSlotItems(slotOf, n, ours, false) + InSlotItems(slotOf, n, theirs, true);
    var lead, own := Visible(leader, t), Visible(replica, u);
    SnapshotIsVisible(theirs, leader, t, now);
    SnapshotIsVisible(ours, replica, u, now);
    CombinedLists(slotOf, n, lead, own, theirs, ours);
    MergedExact(slotOf, n, lead, own);
    LoadedExactly(combined, Merged(slotOf, n, lead, own), now);
    TransferKeeps(slotOf, n, lead, own, theirs, ours, now);
  }

  lemma {:induction false} MergedInside(slotOf: Bytes -> nat, n: nat, leader: Dict, replica: Dict, now: int)
    ensures SlotPart(slotOf, n, Visible(Merged(slotOf, n, leader, replica), now)) == SlotPart(slotOf, n, Visible(leader, now))
  {
    var merged := Merged(slotOf, n, leader, replica);
    assert forall k :: slotOf(k) == n ==> (k in merged <==> k in leader) && (k in leader ==> merged[k] == leader[k]);
    assert SlotPart(slotOf, n, Visible(merged, now)) == SlotPart(slotOf, n, Visible(leader, now));
  }

  lemma {:induction false} MergedOutside(slotOf: Bytes -> nat, n: nat, leader: Dict, replica: Dict, now: int)
    ensures OtherPart(slotOf, n, Visible(Merged(slotOf, n, leader, replica), now)) == OtherPart(slotOf, n, Visible(replica, now))
  {
    var merged := Merged(slotOf, n, leader, replica);
    assert forall k :: slotOf(k) != n ==> (k in merged <==> k in replica) && (k in replica ==> merged[k] == replica[k]);
    assert OtherPart(slotOf, n, Visible(merged, now)) == OtherPart(slotOf, n, Visible(replica, now));
  }

  // What a successful transfer leaves at the replica: the leader's live
  // entries of the slot, and its own of every other one, each as it looks to
  // the later of the clocks it passed.
  lemma {:induction false} SlotTransferParts(slotOf: Bytes -> nat, n: nat, leader: Dict, replica: Dict, t: int, u: int, now: int)
    ensures var live := Transferred(slotOf, n, leader, replica, t, u, now);
      && SlotPart(slotOf, n, live) == SlotPart(slotOf, n, Visible(leader, Later(t, now)))
      && OtherPart(slotOf, n, live) == OtherPart(slotOf, n, Visible(replica, Later(u, now)))
  {
    MergedInside(slotOf, n, Visible(leader, t), Visible(replica, u), now);
    MergedOutside(slotOf, n, Visible(leader, t), Visible(replica, u), now);
    VisibleLater(leader, t, now);
    VisibleLater(replica, u, now);
  }

  // Once the replica has set its counters and the leader has marked it ready,
  // the leader's next record is the one the replica applies next.
  lemma {:induction false} CountersAgree(leader: M.Meta, replica: M.Meta, from: Bytes, to: Bytes, n: nat)
    requires n < |leader.slots| && n < |replica.slots|
    requires leader.slots[n].own.leader == from && leader.slots[n].own.replica == to && to != []
    requires replica.slots[n].own.leader == from && replica.slots[n].own.replica == to
    requires replica.slots[n].term == leader.slots[n].term
    ensures var term, sequence := leader.slots[n].term, leader.slots[n].lastSeq;
      var applied := M.SetReplicaApplied(replica, to, n, term, sequence);
      var ready := M.MarkReady(leader, from, n, term, sequence);
      && applied.Ok? && ready.Ok?
      && applied.value.slots[n].applied == applied.value.slots[n].lastSeq == ready.value.slots[n].lastSeq == ready.value.slots[n].applied
      && M.PrepareReplication(ready.value, from, n) == M.Ok(sequence + 1)
      && M.Validate(applied.value, to, M.Record(from, n, term, sequence + 1)) == M.Ok(false)
  {
  }

  // ----------------------------------------------------------- the operations

  // Lists the members in skip-list order.
  method Ranked(index: Z.Index) returns (r: seq<S.Entry>)
    ensures r == Listing(index)
  {
    r := [];
    var rest := index.Keys;
    ghost var built: Z.Index := map[];
    while rest != {}
      invariant rest <= index.Keys && built.Keys == index.Keys - rest
      invariant forall m :: m in built ==> built[m] == index[m]
      invariant Ordered(built, r)
      decreases |rest|
    {
      var m :| m in rest;
      var e := S.Entry(index[m], m);
      OrderedInsertion(built, r, e);
      r := S.InsertAt(r, S.Cut(r, e), e);
      built := built[m := index[m]];
      rest := rest - {m};
    }
    assert built == index;
    ListingIs(index, r);
  }

  method EncodeSnapshotValue(v: Value) returns (r: Option<Bytes>)
    ensures r == EncodeValue(v)
  {
    match v
    case Str(data) => r := Some(data);
    case List(items) => r := P.EncodeListValue(items);
    case SortedSet(index) =>
      var members := Ranked(index);
      r := P.EncodeZSetValue(members);
  }

  method DecodeSnapshotEntry(item: Item) returns (r: Option<Entry>)
    ensures r == DecodeItem(item)
    ensures r.Some? ==> r.value.size == Charge(item.key, r.value.value)
  {
    var value: Value, calculated: nat;
    match item.kind {
      case StringKind =>
        value := Str(item.payload);
        calculated := STRING_OVERHEAD + |item.key| + |item.payload|;
      case ListKind =>
        var items := P.DecodeListValue(item.payload);
        if items.None? {
          return None;
        }
        value := List(items.value);
        calculated := ListEntrySize(item.key, items.value);
      case ZSetKind =>
        var index := P.DecodeZSetValue(item.payload);
        if index.None? {
          return None;
        }
        value := SortedSet(index.value);
        calculated := ZSetEntrySize(item.key, index.value);
      case UnknownKind =>
        return None;
    }
    if calculated != item.size {
      return None;
    }
    return Some(Entry(value, item.size, item.expiresAt));
  }

  // The keys of all stripes that have not expired.
  method LiveKeys(store: Store, t: int) returns (keys: set<Bytes>)
    requires store.Valid()
    ensures forall k :: k in keys <==> k in store.dict && !Expired(store.dict[k], t)
  {
    keys := {};
    for i := 0 to |store.stripes|
      invariant forall k :: k in keys <==> k in store.dict && store.home(k) < i && !Expired(store.dict[k], t)
    {
      keys := keys + set k | k in store.stripes[i] && !Expired(store.stripes[i][k], t);
    }
  }

  method EncodeEntry(key: Bytes, e: Entry) returns (r: Option<Item>)
    ensures r == ItemOf(key, e)
  {
    var payload := EncodeSnapshotValue(e.value);
    if payload.None? {
      return None;
    }
    return Some(Item(key, KindOf(e.value), payload.value, e.size, e.expiresAt));
  }

  // How one entry is written down.
  type Encoder = (Bytes, Entry) -> Option<Item>

  // The items made so far, in the order of the keys.
  ghost predicate Itemised(encode: Encoder, items: seq<Item>, keys: seq<Bytes>, d: Dict) {
    |items| <= |keys| && forall j :: 0 <= j < |items| ==>
      && keys[j] in d && encode(keys[j], d[keys[j]]) == Some(items[j])
  }

  lemma {:induction false} ItemisedStep(encode: Encoder, items: seq<Item>, keys: seq<Bytes>, d: Dict, item: Item)
    requires Itemised(encode, items, keys, d) && |items| < |keys| && keys[|items|] in d
    requires encode(keys[|items|], d[keys[|items|]]) == Some(item)
    ensures Itemised(encode, items + [item], keys, d)
  {
  }

  lemma {:induction false} ItemisedKeys(items: seq<Item>, keys: seq<Bytes>, d: Dict)
    requires Itemised(ItemOf, items, keys, d) && |items| == |keys|
    ensures forall j :: 0 <= j < |items| ==>
      items[j].key == keys[j] && keys[j] in d && ItemOf(keys[j], d[keys[j]]) == Some(items[j])
  {
  }

  lemma {:induction false} ItemisedAll(items: seq<Item>, keys: seq<Bytes>, live: set<Bytes>, d: Dict, t: int)
    requires Itemised(ItemOf, items, keys, d) && |items| == |keys| && Sorting.Lists(map[], keys, live)
    requires forall k :: k in live <==> k in d && !Expired(d[k], t)
    ensures SnapshotOf(items, d, t)
    ensures forall i, j :: 0 <= i < j < |items| ==> Lex(items[i].key, items[j].key)
  {
    ItemisedKeys(items, keys, d);
    Sorting.ListsMembers(map[], keys, live);
    forall k
      ensures k in KeysOf(items) <==> k in live
    {
      if k in live {
        var i :| 0 <= i < |keys| && keys[i] == k;
        assert items[i] in items;
      }
    }
    forall i, j | 0 <= i < j < |items|
      ensures Lex(items[i].key, items[j].key)
    {
      Sorting.LighterTotal(map[], keys[i], keys[j]);
    }
  }

  method EncodeAll(store: Store, keys: seq<Bytes>) returns (r: Option<seq<Item>>)
    requires store.Valid() && forall i :: 0 <= i < |keys| ==> keys[i] in store.dict
    ensures r.Some? ==> Itemised(ItemOf, r.value, keys, store.dict) && |r.value| == |keys|
    ensures r.None? ==> exists i :: 0 <= i < |keys| && ItemOf(keys[i], store.dict[keys[i]]).None?
  {
    var items: seq<Item> := [];
    for i := 0 to |keys|
      invariant |items| == i && Itemised(ItemOf, items, keys, store.dict)
    {
      var e := store.Lookup(keys[i]);
      var item := EncodeEntry(keys[i], e.value);
      if item.None? {
        return None;
      }
      ItemisedStep(ItemOf, items, keys, store.dict, item.value);
      items := items + [item.value];
    }
    return Some(items);
  }

  // A key-sorted copy of the unexpired dataset.
  method SnapshotEntries(store: Store, t: int) returns (r: Option<seq<Item>>)
    requires store.Valid()
    ensures r.Some? ==> SnapshotOf(r.value, store.dict, t)
    ensures r.Some? ==> forall i, j :: 0 <= i < j < |r.value| ==> Lex(r.value[i].key, r.value[j].key)
    ensures r.None? ==> Unwritable(store.dict, t)
  {
    var live := LiveKeys(store, t);
    var keys := Sorting.Arrange(live, map[]);
    Sorting.ListsMembers(map[], keys, live);
    r := EncodeAll(store, keys);
    if r.Some? {
      ItemisedAll(r.value, keys, live, store.dict, t);
    }
  }

  // Decodes everything first; only then is the dataset replaced.
  method RestoreSnapshotEntries(store: Store, limit: Word, items: seq<Item>, now: int) returns (r: Option<nat>)
    requires store.Valid()
    modifies store
    ensures store.Valid()
    ensures r.None? <==> Restored(items, now, limit).None?
    ensures store.dict == if r.None? then old(store.dict) else Restored(items, now, limit).value
    ensures r.Some? ==> r.value == |store.dict| && store.used == Total(store.dict)
  {
    var decoded, total := DecodeAll(items, now);
    if decoded.None? || (limit > 0 && total > limit) {
      return None;
    }
    Unwrapped(total);
    store.ReplaceAll(decoded.value, total);
    return Some(|decoded.value|);
  }

  // Everything in items has been decoded.
  ghost predicate Decoding(decode: Decoder, items: seq<Item>, now: int, decoded: seq<(Bytes, Entry)>, total: nat) {
    var d := DictOf(decoded);
    && Loaded(decode, items, now) == Some(d) && Exact(d) && d.Keys <= KeysOf(items)
    && total == Total(d) && |decoded| == |d|
  }

  lemma {:induction false} ExactPut(d: Dict, key: Bytes, e: Entry)
    requires Exact(d) && e.size == Charge(key, e.value)
    ensures Exact(d[key := e]) && d[key := e].Keys == d.Keys + {key}
  {
  }

  lemma {:induction false} DecodingStep(
    decode: Decoder, front: seq<Item>, item: Item, now: int, decoded: seq<(Bytes, Entry)>, total: nat, e: Entry)
    requires Decoding(decode, front, now, decoded, total) && item.key !in KeysOf(front) && !ItemExpired(item, now)
    requires decode(item) == Some(e) && e.size == Charge(item.key, e.value) && total + e.size <= MAX_WORD
    ensures Decoding(decode, front + [item], now, decoded + [(item.key, e)], total + e.size)
  {
    var d := DictOf(decoded);
    assert item.key !in d;
    LoadedLast(decode, front, item, now);
    KeysOfAppend(front, item);
    TotalPut(d, item.key, e);
    Grows(decoded, item.key, e);
    ExactPut(d, item.key, e);
  }

  // Adds one item's decoded entry to those before it.
  method AddDecoded(
    ghost decode: Decoder, ghost front: seq<Item>, item: Item, now: int,
    seen: set<Bytes>, decoded: seq<(Bytes, Entry)>, total: Word, e: Option<Entry>)
    returns (r: Option<seq<(Bytes, Entry)>>, sum: Word)
    requires seen == KeysOf(front) && Decoding(decode, front, now, decoded, total)
    requires item.key !in seen && !ItemExpired(item, now) ==>
      e == decode(item) && (e.Some? ==> e.value.size == Charge(item.key, e.value.value))
    ensures r.None? ==> Loaded(decode, front + [item], now).None?
    ensures r.Some? ==> Decoding(decode, front + [item], now, r.value, sum)
  {
    LoadedLast(decode, front, item, now);
    if item.key in seen {
      return None, 0;
    }
    if ItemExpired(item, now) {
      KeysOfAppend(front, item);
      return Some(decoded), total;
    }
    if e.None? || MAX_WORD - total < e.value.size {
      return None, 0;
    }
    DecodingStep(decode, front, item, now, decoded, total, e.value);
    return Some(decoded + [(item.key, e.value)]), total + e.value.size;
  }

  method DecodeAll(items: seq<Item>, now: int) returns (r: Option<seq<(Bytes, Entry)>>, total: Word)
    ensures r.None? ==> Loaded(DecodeItem, items, now).None?
    ensures r.Some? ==> Decoding(DecodeItem, items, now, r.value, total)
  {
    r, total := Some([]), 0;
    var seen: set<Bytes> := {};
    for i := 0 to |items|
      invariant r.Some? && seen == KeysOf(items[..i]) && Decoding(DecodeItem, items[..i], now, r.value, total)
    {
      assert items[..i + 1] == items[..i] + [items[i]];
      KeysOfAppend(items[..i], items[i]);
      var e: Option<Entry> := None;
      if items[i].key !in seen && !ItemExpired(items[i], now) {
        e := DecodeSnapshotEntry(items[i]);
      }
      r, total := AddDecoded(DecodeItem, items[..i], items[i], now, seen, r.value, total, e);
      if r.None? {
        LoadedFails(DecodeItem, items, i + 1, now);
        return;
      }
      seen := seen + {items[i].key};
    }
    assert items[..|items|] == items;
  }

  lemma {:induction false} Grows(decoded: seq<(Bytes, Entry)>, key: Bytes, e: Entry)
    requires key !in DictOf(decoded)
    ensures DictOf(decoded + [(key, e)]) == DictOf(decoded)[key := e]
    ensures |DictOf(decoded + [(key, e)])| == |DictOf(decoded)| + 1
  {
    assert (decoded + [(key, e)])[..|decoded|] == decoded;
    var d := DictOf(decoded)[key := e];
    Smaller(d, key);
    assert d - {key} == DictOf(decoded);
  }

  // What fails on a prefix fails.
  lemma {:induction false} LoadedFails(decode: Decoder, items: seq<Item>, n: nat, now: int)
    requires n <= |items| && Loaded(decode, items[..n], now).None?
    ensures Loaded(decode, items, now).None?
    decreases |items| - n
  {
    if n < |items| {
      assert items[..n + 1][..n] == items[..n];
      LoadedFails(decode, items, n + 1, now);
    } else {
      assert items[..n] == items;
    }
  }

  // ------------------------------------------------------------ both ends

  datatype Shard = Shard(source: Bytes, slot: nat, term: nat, sequence: nat, entries: seq<Item>)

  method Filter(slotOf: Bytes -> nat, n: nat, items: seq<Item>, inside: bool) returns (r: seq<Item>)
    ensures r == InSlotItems(slotOf, n, items, inside)
  {
    r := [];
    for i := 0 to |items|
      invariant r == InSlotItems(slotOf, n, items[..i], inside)
    {
      assert items[..i + 1][..i] == items[..i];
      if (slotOf(items[i].key) == n) == inside {
        r := r + [items[i]];
      }
    }
    assert items[..|items|] == items;
  }

  // Some entry that is alive at time t cannot be written down.
  ghost predicate Unwritable(d: Dict, t: int) {
    exists k :: k in d && !Expired(d[k], t) && ItemOf(k, d[k]).None?
  }

  // What is wrong with a transfer: it is not for this replica, from its leader
  // and in its term; or an entry is of another slot; or the replica's own
  // entries cannot be written down; or the outcome cannot be restored.
  ghost predicate Objection(m: M.Meta, local: Bytes, d: Dict, limit: Word, slotOf: Bytes -> nat, shard: Shard, u: int, now: int) {
    || shard.slot >= |m.slots| || m.slots[shard.slot].own.replica != local
    || m.slots[shard.slot].own.leader != shard.source || m.slots[shard.slot].term != shard.term
    || (exists i :: 0 <= i < |shard.entries| && slotOf(shard.entries[i].key) != shard.slot)
    || Unwritable(d, u)
    || (exists ours :: SnapshotOf(ours, d, u)
          && Restored(InSlotItems(slotOf, shard.slot, ours, false) + shard.entries, now, limit).None?)
  }

  // Replaces the slot's entries, unless there is an objection to the transfer;
  // then neither the dataset nor the slot map changes.
  method ApplyShardSnapshot(metadata: SlotMaps.SlotMap, store: Store, limit: Word, slotOf: Bytes -> nat, shard: Shard, u: int, now: int)
    returns (ok: bool)
    requires store.Valid()
    modifies metadata, store
    ensures store.Valid()
    ensures !ok ==> metadata.Value() == old(metadata.Value()) && store.dict == old(store.dict)
    ensures !ok ==> Objection(old(metadata.Value()), metadata.local, old(store.dict), limit, slotOf, shard, u, now)
    ensures ok ==>
      && (forall i :: 0 <= i < |shard.entries| ==> slotOf(shard.entries[i].key) == shard.slot)
      && (exists ours :: SnapshotOf(ours, old(store.dict), u)
            && Restored(InSlotItems(slotOf, shard.slot, ours, false) + shard.entries, now, limit) == Some(store.dict))
      && M.SetReplicaApplied(old(metadata.Value()), metadata.local, shard.slot, shard.term, shard.sequence) == M.Ok(metadata.Value())
  {
    if shard.slot >= |metadata.slots| {
      return false;
    }
    var state := metadata.slots[shard.slot];
    if state.own.replica != metadata.local || shard.source != state.own.leader || shard.term != state.term {
      return false;
    }
    for i := 0 to |shard.entries|
      invariant forall j :: 0 <= j < i ==> slotOf(shard.entries[j].key) == shard.slot
    {
      if slotOf(shard.entries[i].key) != shard.slot {
        return false;
      }
    }
    var current := SnapshotEntries(store, u);
    if current.None? {
      return false;
    }
    var others := Filter(slotOf, shard.slot, current.value, false);
    var restored := RestoreSnapshotEntries(store, limit, others + shard.entries, now);
    if restored.None? {
      return false;
    }
    var _ := metadata.SetApplied(shard.slot, shard.term, shard.sequence);
    return true;
  }

  // What a finished synchronisation has established: the slot's entries and
  // counters are the leader's, the other slots' entries the replica's own.
  ghost predicate Synced(
    slotOf: Bytes -> nat, n: nat, t: int, u: int, now: int, leader: Dict, before: Dict, after: Dict, lead: M.Meta, follow: M.Meta)
  {
    && SlotPart(slotOf, n, after) == SlotPart(slotOf, n, Visible(leader, Later(t, now)))
    && OtherPart(slotOf, n, after) == OtherPart(slotOf, n, Visible(before, Later(u, now)))
    && n < |lead.slots| && n < |follow.slots| && lead.slots[n].own.ready
    && lead.slots[n].lastSeq == lead.slots[n].applied == follow.slots[n].lastSeq == follow.slots[n].applied
  }

  lemma {:induction false} TransferSyncs(
    slotOf: Bytes -> nat, n: nat, leader: Dict, before: Dict, after: Dict, theirs: seq<Item>, ours: seq<Item>, t: int, u: int, now: int, limit: Word)
    requires SnapshotOf(theirs, leader, t) && SnapshotOf(ours, before, u) && Exact(leader) && Exact(before)
    requires Restored(InSlotItems(slotOf, n, ours, false) + InSlotItems(slotOf, n, theirs, true), now, limit) == Some(after)
    ensures SlotPart(slotOf, n, after) == SlotPart(slotOf, n, Visible(leader, Later(t, now)))
    ensures OtherPart(slotOf, n, after) == OtherPart(slotOf, n, Visible(before, Later(u, now)))
  {
    SlotTransferExactly(slotOf, n, leader, before, theirs, ours, t, u, now, limit);
    SlotTransferParts(slotOf, n, leader, before, t, u, now);
  }

  // The leader's entries of the slot, sent and applied.
  method SendShard(
    store: Store, toMetadata: SlotMaps.SlotMap, toStore: Store, limit: Word, slotOf: Bytes -> nat,
    source: Bytes, n: nat, term: nat, sequence: nat, t: int, u: int, now: int)
    returns (ok: bool)
    requires store.Valid() && toStore.Valid() && store != toStore
    modifies toMetadata, toStore
    ensures toStore.Valid()
    ensures !ok ==> toMetadata.Value() == old(toMetadata.Value()) && toStore.dict == old(toStore.dict)
    ensures !ok ==> (
      || Unwritable(store.dict, t)
      || exists theirs :: SnapshotOf(theirs, store.dict, t)
           && Objection(old(toMetadata.Value()), toMetadata.local, old(toStore.dict), limit, slotOf,
                        Shard(source, n, term, sequence, InSlotItems(slotOf, n, theirs, true)), u, now))
    ensures ok ==>
      && SlotPart(slotOf, n, toStore.dict) == SlotPart(slotOf, n, Visible(store.dict, Later(t, now)))
      && OtherPart(slotOf, n, toStore.dict) == OtherPart(slotOf, n, Visible(old(toStore.dict), Later(u, now)))
      && M.SetReplicaApplied(old(toMetadata.Value()), toMetadata.local, n, term, sequence) == M.Ok(toMetadata.Value())
  {
    var all := SnapshotEntries(store, t);
    if all.None? {
      return false;
    }
    var entries := Filter(slotOf, n, all.value, true);
    ghost var before := toStore.dict;
    ok := ApplyShardSnapshot(toMetadata, toStore, limit, slotOf, Shard(source, n, term, sequence, entries), u, now);
    if ok {
      ghost var ours :| SnapshotOf(ours, before, u)
        && Restored(InSlotItems(slotOf, n, ours, false) + entries, now, limit) == Some(toStore.dict);
      TransferSyncs(slotOf, n, store.dict, before, toStore.dict, all.value, ours, t, u, now, limit);
    }
  }

  // The leader may synchronise slot n with the target it is asked for.
  predicate Syncable(m: M.Meta, local: Bytes, n: nat, target: Bytes) {
    && n < |m.slots| && m.slots[n].own.leader == local
    && m.slots[n].own.replica != [] && (target == [] || target == m.slots[n].own.replica)
  }

  function ShardOf(m: M.Meta, local: Bytes, slotOf: Bytes -> nat, n: nat, theirs: seq<Item>): Shard {
    if n < |m.slots| then Shard(local, n, m.slots[n].term, m.slots[n].lastSeq, InSlotItems(slotOf, n, theirs, true))
    else Shard(local, n, 0, 0, [])
  }

  // The leader's side: snapshot, send, and mark ready once the answer is in.
  method SyncReplica(
    metadata: SlotMaps.SlotMap, store: Store, toMetadata: SlotMaps.SlotMap, toStore: Store, limit: Word,
    slotOf: Bytes -> nat, n: nat, target: Bytes, t: int, u: int, now: int, delivered: bool, answered: bool)
    returns (ok: bool)
    requires store.Valid() && toStore.Valid() && metadata != toMetadata && store != toStore
    modifies metadata, toMetadata, toStore
    ensures toStore.Valid()
    ensures !ok ==> metadata.Value() == old(metadata.Value())
    ensures !ok ==> (
      || !delivered || !answered || !Syncable(old(metadata.Value()), metadata.local, n, target) || Unwritable(store.dict, t)
      || exists theirs :: SnapshotOf(theirs, store.dict, t)
           && Objection(old(toMetadata.Value()), toMetadata.local, old(toStore.dict), limit, slotOf,
                        ShardOf(old(metadata.Value()), metadata.local, slotOf, n, theirs), u, now))
    ensures !delivered ==> !ok && toStore.dict == old(toStore.dict) && toMetadata.Value() == old(toMetadata.Value())
    ensures ok ==> Synced(slotOf, n, t, u, now, store.dict, old(toStore.dict), toStore.dict, metadata.Value(), toMetadata.Value())
  {
    if n >= |metadata.slots| {
      return false;
    }
    var state := metadata.slots[n];
    if state.own.leader != metadata.local {
      return false;
    }
    var to := if target == [] then state.own.replica else target;
    if to == [] || to != state.own.replica {
      return false;
    }
    if !delivered {
      return false;
    }
    var applied := SendShard(store, toMetadata, toStore, limit, slotOf, metadata.local, n, state.term, state.lastSeq, t, u, now);
    if !applied || !answered {
      return false;
    }
    var marked := metadata.MarkReplicaReady(n, state.term, state.lastSeq);
    return marked.Ok?;
  }
}
