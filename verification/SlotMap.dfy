// The metadata object of a node: built from the configured peers, then changed
// in place. Every method is tied to the value-level operation of Metadata.
module SlotMaps {
  import opened Slots
  import opened Sorting
  import opened Metadata

  // ------------------------------------------------------ initial allocation

  function Share(base: nat, remainder: nat, owner: nat): nat {
    if owner < remainder then base + 1 else base
  }

  // The peer after an owner, around the ring.
  function After(owner: nat, n: nat): (r: nat)
    requires owner < n
    ensures r == if owner + 1 < n then owner + 1 else 0
  {
    (owner + 1) % n
  }

  function Fresh(ids: seq<NodeId>, owner: nat, number: nat, replicated: bool): Slot
    requires owner < |ids|
  {
    Slot(number, Own(ids[owner], if replicated then ids[After(owner, |ids|)] else NOBODY, replicated), 1, 0, 0)
  }

  // A run of consecutive slots in one node's hands.
  function Run(ids: seq<NodeId>, owner: nat, start: nat, count: nat, replicated: bool): (r: seq<Slot>)
    requires owner < |ids|
    ensures |r| == count && forall i :: 0 <= i < count ==> r[i] == Fresh(ids, owner, start + i, replicated)
  {
    seq(count, i requires 0 <= i < count => Fresh(ids, owner, start + i, replicated))
  }

  // The runs of the first k owners.
  function Layout(ids: seq<NodeId>, base: nat, remainder: nat, replicated: bool, k: nat): seq<Slot>
    requires k <= |ids|
  {
    if k == 0 then []
    else
      var before := Layout(ids, base, remainder, replicated, k - 1);
      before + Run(ids, k - 1, |before|, Share(base, remainder, k - 1), replicated)
  }

  // Slots led by one node.
  function Led(slots: seq<Slot>, id: NodeId): nat {
    if slots == [] then 0 else Led(slots[..|slots| - 1], id) + if slots[|slots| - 1].own.leader == id then 1 else 0
  }

  lemma {:induction false} LedConcat(a: seq<Slot>, b: seq<Slot>, id: NodeId)
    ensures Led(a + b, id) == Led(a, id) + Led(b, id)
    decreases |b|
  {
    if b == [] {
      assert a + b == a;
    } else {
      assert (a + b)[..|a + b| - 1] == a + b[..|b| - 1];
      LedConcat(a, b[..|b| - 1], id);
    }
  }

  lemma {:induction false} LedRun(slots: seq<Slot>, leader: NodeId, id: NodeId)
    requires forall i :: 0 <= i < |slots| ==> slots[i].own.leader == leader
    ensures Led(slots, id) == if leader == id then |slots| else 0
  {
    if slots != [] {
      LedRun(slots[..|slots| - 1], leader, id);
    }
  }

  lemma {:induction false} AddRun(before: seq<Slot>, run: seq<Slot>, leader: NodeId, id: NodeId)
    requires forall i :: 0 <= i < |run| ==> run[i].own.leader == leader
    ensures Led(before + run, id) == Led(before, id) + if leader == id then |run| else 0
  {
    LedConcat(before, run, id);
    LedRun(run, leader, id);
  }

  lemma {:induction false} LayoutLength(ids: seq<NodeId>, base: nat, remainder: nat, replicated: bool, k: nat)
    requires k <= |ids|
    ensures |Layout(ids, base, remainder, replicated, k)| == base * k + if k < remainder then k else remainder
  {
    if k > 0 {
      LayoutLength(ids, base, remainder, replicated, k - 1);
      assert base * k == base * (k - 1) + base;
    }
  }

  lemma {:induction false} LayoutShares(ids: seq<NodeId>, base: nat, remainder: nat, replicated: bool, k: nat, j: nat)
    requires NoRepeats(ids) && k <= |ids| && j < |ids|
    ensures Led(Layout(ids, base, remainder, replicated, k), ids[j]) == if j < k then Share(base, remainder, j) else 0
    decreases k
  {
    if k > 0 {
      LayoutShares(ids, base, remainder, replicated, k - 1, j);
      var before := Layout(ids, base, remainder, replicated, k - 1);
      var run := Run(ids, k - 1, |before|, Share(base, remainder, k - 1), replicated);
      AddRun(before, run, ids[k - 1], ids[j]);
    }
  }

  // A slot of the initial map: numbered by position, in its first term, on
  // listed nodes, and with two different ones when it is replicated.
  ghost predicate Initial(ids: seq<NodeId>, replicated: bool, s: Slot, i: nat) {
    && s.number == i && s.term == 1 && s.lastSeq == 0 && s.applied == 0
    && s.own.leader in ids && s.own.ready == replicated
    && (if replicated then s.own.replica in ids && (|ids| >= 2 ==> s.own.replica != s.own.leader) else s.own.replica == NOBODY)
  }

  ghost predicate AllInitial(ids: seq<NodeId>, replicated: bool, slots: seq<Slot>) {
    forall i :: 0 <= i < |slots| ==> Initial(ids, replicated, slots[i], i)
  }

  lemma {:induction false} LayoutInitial(ids: seq<NodeId>, base: nat, remainder: nat, replicated: bool, k: nat)
    requires NoRepeats(ids) && k <= |ids|
    ensures AllInitial(ids, replicated, Layout(ids, base, remainder, replicated, k))
  {
    if k > 0 {
      LayoutInitial(ids, base, remainder, replicated, k - 1);
      var before := Layout(ids, base, remainder, replicated, k - 1);
      var run := Run(ids, k - 1, |before|, Share(base, remainder, k - 1), replicated);
      var slots := Layout(ids, base, remainder, replicated, k);
      assert slots == before + run;
      forall i | 0 <= i < |slots|
        ensures Initial(ids, replicated, slots[i], i)
      {
        if i >= |before| {
          assert slots[i] == Fresh(ids, k - 1, i, replicated);
        } else {
          assert slots[i] == before[i];
        }
      }
    }
  }

  lemma {:induction false} LayoutWhole(slotCount: nat, ids: seq<NodeId>, replicated: bool)
    requires ids != []
    ensures |Layout(ids, slotCount / |ids|, slotCount % |ids|, replicated, |ids|)| == slotCount
  {
    var base, remainder := slotCount / |ids|, slotCount % |ids|;
    LayoutLength(ids, base, remainder, replicated, |ids|);
  }

  // Gives every peer its share in turn.
  method Fill(ids: seq<NodeId>, base: nat, remainder: nat, replicated: bool) returns (slots: seq<Slot>)
    ensures slots == Layout(ids, base, remainder, replicated, |ids|)
  {
    slots := [];
    for owner := 0 to |ids|
      invariant slots == Layout(ids, base, remainder, replicated, owner)
    {
      var count := base;
      if owner < remainder {
        count := count + 1;
      }
      ghost var before := slots;
      for i := 0 to count
        invariant slots == before + Run(ids, owner, |before|, i, replicated)
      {
        assert Run(ids, owner, |before|, i + 1, replicated) ==
          Run(ids, owner, |before|, i, replicated) + [Fresh(ids, owner, |before| + i, replicated)];
        slots := slots + [Fresh(ids, owner, |slots|, replicated)];
      }
    }
  }

  // The initial map over sorted peers; without peers there is none.
  ghost function InitialSlots(slotCount: nat, ids: seq<NodeId>, replicated: bool): seq<Slot> {
    if ids == [] then [] else Layout(ids, slotCount / |ids|, slotCount % |ids|, replicated, |ids|)
  }

  // Every slot goes to exactly one leader, and no peer leads more than one
  // slot more than another. The map does not depend on the order of the peers.
  method Allocate(slotCount: nat, peers: seq<NodeId>, replicated: bool) returns (slots: seq<Slot>, ids: seq<NodeId>)
    ensures multiset(ids) == multiset(peers) && Ascending(map[], ids)
    ensures slots == InitialSlots(slotCount, ids, replicated)
    ensures |slots| == if peers == [] then 0 else slotCount
  {
    ids := SortByLoad(peers, map[]);
    assert |ids| == |multiset(ids)| == |peers|;
    if peers == [] {
      return [], ids;
    }
    LayoutWhole(slotCount, ids, replicated);
    slots := Fill(ids, slotCount / |ids|, slotCount % |ids|, replicated);
  }

  lemma {:induction false} LayoutBalanced(ids: seq<NodeId>, base: nat, remainder: nat, replicated: bool, i: nat, j: nat)
    requires NoRepeats(ids) && i < |ids| && j < |ids|
    ensures var slots := Layout(ids, base, remainder, replicated, |ids|);
      Led(slots, ids[i]) <= Led(slots, ids[j]) + 1
  {
    LayoutShares(ids, base, remainder, replicated, |ids|, i);
    LayoutShares(ids, base, remainder, replicated, |ids|, j);
  }

  lemma {:induction false} AllocationIsBalanced(slotCount: nat, ids: seq<NodeId>, replicated: bool, a: NodeId, b: NodeId)
    requires ids != [] && NoRepeats(ids) && a in ids && b in ids
    ensures var slots := InitialSlots(slotCount, ids, replicated);
      && Led(slots, a) <= Led(slots, b) + 1
      && AllInitial(ids, replicated, slots)
  {
    var i :| 0 <= i < |ids| && ids[i] == a;
    var j :| 0 <= j < |ids| && ids[j] == b;
    var base, remainder := slotCount / |ids|, slotCount % |ids|;
    LayoutBalanced(ids, base, remainder, replicated, i, j);
    LayoutInitial(ids, base, remainder, replicated, |ids|);
  }

  // Where an owner's slots begin.
  ghost function Begins(base: nat, remainder: nat, owner: nat): nat {
    base * owner + if owner < remainder then owner else remainder
  }

  lemma {:induction false} LayoutAt(ids: seq<NodeId>, base: nat, remainder: nat, replicated: bool, k: nat, owner: nat, x: nat)
    requires owner < k <= |ids| && x < Share(base, remainder, owner)
    ensures var n, slots := Begins(base, remainder, owner) + x, Layout(ids, base, remainder, replicated, k);
      n < |slots| && slots[n] == Fresh(ids, owner, n, replicated)
    decreases k
  {
    LayoutLength(ids, base, remainder, replicated, k - 1);
    var before := Layout(ids, base, remainder, replicated, k - 1);
    if owner < k - 1 {
      LayoutAt(ids, base, remainder, replicated, k - 1, owner, x);
    }
  }

  // The slots are dealt out in runs, in the order of the peers, the first ones
  // getting one more; each is followed by the next peer around the ring.
  lemma {:induction false} AllocationIsRing(slotCount: nat, ids: seq<NodeId>, replicated: bool, base: nat, extra: nat, owner: nat, x: nat)
    requires owner < |ids| && base == slotCount / |ids| && extra == slotCount % |ids|
    requires x < base + (if owner < extra then 1 else 0)
    ensures var n, slots := base * owner + (if owner < extra then owner else extra) + x, InitialSlots(slotCount, ids, replicated);
      && n < |slots| && slots[n].number == n && slots[n].own.leader == ids[owner]
      && slots[n].own.replica == (if !replicated then NOBODY else if owner + 1 < |ids| then ids[owner + 1] else ids[0])
      && slots[n].own.ready == replicated && slots[n].term == 1 && slots[n].lastSeq == 0 && slots[n].applied == 0
  {
    LayoutAt(ids, base, extra, replicated, |ids|, owner, x);
  }

  lemma AllocationIgnoresOrder(p: seq<NodeId>, q: seq<NodeId>, idsP: seq<NodeId>, idsQ: seq<NodeId>)
    requires multiset(p) == multiset(q)
    requires multiset(idsP) == multiset(p) && Ascending(map[], idsP)
    requires multiset(idsQ) == multiset(q) && Ascending(map[], idsQ)
    ensures idsP == idsQ
  {
    SortedUnique(map[], idsP, idsQ);
  }

  // ---------------------------------------------------------- the live map

  class SlotMap {
    const local: NodeId
    const peers: set<NodeId>
    var version: nat
    var slots: seq<Slot>

    ghost function Value(): Meta
      reads this
    {
      Meta(version, slots)
    }

    // What a successful operation leaves behind; a failed one leaves nothing.
    ghost function Outcome(before: Meta, r: Result<Meta>): Meta {
      if r.Ok? then r.value else before
    }

    // A node outside a cluster, and one of a cluster without slots, knows no
    // peers and has an empty map.
    constructor (enabled: bool, slotCount: nat, configured: seq<NodeId>, replicated: bool, local: NodeId)
      ensures this.local == local && version == 1
      ensures !enabled || slotCount == 0 ==> peers == {} && slots == []
      ensures enabled && slotCount > 0 ==>
        && peers == (set p | p in configured) && |slots| == (if configured == [] then 0 else slotCount)
        && exists ids :: multiset(ids) == multiset(configured) && Ascending(map[], ids) && slots == InitialSlots(slotCount, ids, replicated)
    {
      this.local := local;
      version := 1;
      if !enabled || slotCount == 0 {
        peers, slots := {}, [];
      } else {
        peers := set p | p in configured;
        var initial, ids := Allocate(slotCount, configured, replicated);
        slots := initial;
      }
    }

    method Prepare(n: nat) returns (r: Result<nat>)
      ensures r == PrepareReplication(Value(), local, n)
    {
      if n >= |slots| {
        return Fail(SlotOutOfRange);
      }
      var state := slots[n];
      if state.own.leader != local {
        return Fail(NotLeader);
      }
      if state.own.replica == NOBODY || !state.own.ready {
        return Fail(ReplicaUnavailable);
      }
      return Ok(state.lastSeq + 1);
    }

    method CommitLeaderSequence(n: nat, term: nat, sequence: nat) returns (e: Result<()>)
      modifies this
      ensures Value() == Outcome(old(Value()), CommitLeader(old(Value()), local, n, term, sequence))
      ensures e.Ok? <==> CommitLeader(old(Value()), local, n, term, sequence).Ok?
    {
      if n >= |slots| {
        return Fail(SlotOutOfRange);
      }
      if slots[n].own.leader != local || slots[n].term != term {
        return Fail(StaleTerm);
      }
      if sequence != slots[n].lastSeq + 1 {
        return Fail(SequenceGap);
      }
      slots := slots[n := slots[n].(lastSeq := sequence)];
      slots := slots[n := slots[n].(applied := sequence)];
      return Ok(());
    }

    method ValidateReplication(rec: Record) returns (r: Result<bool>)
      ensures r == Validate(Value(), local, rec)
    {
      if rec.slot >= |slots| {
        return Fail(SlotOutOfRange);
      }
      var state := slots[rec.slot];
      if state.own.replica != local {
        return Fail(NotReplica);
      }
      if rec.term != state.term || rec.source != state.own.leader {
        return Fail(StaleTerm);
      }
      if rec.sequence <= state.applied {
        return Ok(true);
      }
      if rec.sequence != state.applied + 1 {
        return Fail(SequenceGap);
      }
      return Ok(false);
    }

    method CommitReplicaSequence(n: nat, term: nat, sequence: nat) returns (e: Result<()>)
      modifies this
      ensures Value() == Outcome(old(Value()), CommitReplica(old(Value()), local, n, term, sequence))
      ensures e.Ok? <==> CommitReplica(old(Value()), local, n, term, sequence).Ok?
    {
      if n >= |slots| {
        return Fail(SlotOutOfRange);
      }
      if slots[n].own.replica != local || slots[n].term != term {
        return Fail(StaleTerm);
      }
      if sequence != slots[n].applied + 1 {
        return Fail(SequenceGap);
      }
      slots := slots[n := slots[n].(applied := sequence)];
      if sequence > slots[n].lastSeq {
        slots := slots[n := slots[n].(lastSeq := sequence)];
      }
      return Ok(());
    }

    method PromoteReplica(n: nat) returns (e: Result<Meta>)
      modifies this
      ensures e == Promote(old(Value()), n)
      ensures Value() == Outcome(old(Value()), e)
    {
      if n >= |slots| {
        return Fail(SlotOutOfRange);
      }
      var state := slots[n];
      if state.own.replica == NOBODY {
        return Fail(NoReplicaAssigned);
      }
      state := state.(own := Own(state.own.replica, NOBODY, false));
      state := state.(term := state.term + 1, lastSeq := 0, applied := 0);
      slots := slots[n := state];
      version := version + 1;
      return Ok(Meta(version, slots));
    }

    method AssignReplica(n: nat, node: NodeId) returns (e: Result<Meta>)
      modifies this
      ensures e == Assign(old(Value()), peers, n, node)
      ensures Value() == Outcome(old(Value()), e)
    {
      if n >= |slots| {
        return Fail(SlotOutOfRange);
      }
      if node !in peers {
        return Fail(UnknownNode);
      }
      var state := slots[n];
      if node == state.own.leader {
        return Fail(ReplicaIsLeader);
      }
      state := state.(own := state.own.(replica := node, ready := false));
      state := state.(term := state.term + 1, lastSeq := 0, applied := 0);
      slots := slots[n := state];
      version := version + 1;
      return Ok(Meta(version, slots));
    }

    method MarkReplicaReady(n: nat, term: nat, sequence: nat) returns (e: Result<Meta>)
      modifies this
      ensures e == MarkReady(old(Value()), local, n, term, sequence)
      ensures Value() == Outcome(old(Value()), e)
    {
      if n >= |slots| {
        return Fail(SlotOutOfRange);
      }
      var state := slots[n];
      if state.own.leader != local || state.term != term || state.own.replica == NOBODY {
        return Fail(StaleTerm);
      }
      state := state.(own := state.own.(ready := true));
      state := state.(lastSeq := sequence, applied := sequence);
      slots := slots[n := state];
      version := version + 1;
      return Ok(Meta(version, slots));
    }

    method SetApplied(n: nat, term: nat, sequence: nat) returns (e: Result<()>)
      modifies this
      ensures Value() == Outcome(old(Value()), SetReplicaApplied(old(Value()), local, n, term, sequence))
      ensures e.Ok? <==> SetReplicaApplied(old(Value()), local, n, term, sequence).Ok?
    {
      if n >= |slots| {
        return Fail(SlotOutOfRange);
      }
      if slots[n].term != term || slots[n].own.replica != local {
        return Fail(StaleTerm);
      }
      slots := slots[n := slots[n].(applied := sequence, lastSeq := sequence)];
      return Ok(());
    }

    // Takes over a newer map; `allowEqual` is the restore of a persisted one.
    method Apply(incoming: Meta, allowEqual: bool) returns (e: Result<()>)
      modifies this
      ensures Value() == Outcome(old(Value()), if allowEqual then Restore(old(Value()), incoming) else ApplyRemote(old(Value()), incoming))
      ensures e.Ok? <==> (if allowEqual then Restore(old(Value()), incoming) else ApplyRemote(old(Value()), incoming)).Ok?
    {
      if !ValidSlots(incoming.slots) || |incoming.slots| != |slots| {
        return Fail(ClusterMismatch);
      }
      if incoming.version < version || (!allowEqual && incoming.version == version) {
        return Fail(StaleMetadata);
      }
      var next := incoming.slots;
      for i := 0 to |next|
        invariant |next| == |incoming.slots|
        invariant forall j :: 0 <= j < |next| ==>
          next[j] == if j < i && !allowEqual then Merge(slots, incoming.slots)[j] else incoming.slots[j]
      {
        if !allowEqual && i < |slots| && slots[i].term == next[i].term {
          next := next[i := next[i].(applied := slots[i].applied)];
        }
      }
      assert !allowEqual ==> next == Merge(slots, incoming.slots);
      assert allowEqual ==> next == incoming.slots;
      version := incoming.version;
      slots := next;
      return Ok(());
    }
  }
}
