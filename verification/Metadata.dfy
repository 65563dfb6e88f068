// The slot map every node keeps: ownership, terms and replication sequences,
// and the operations that read and change it.
module Metadata {
  import opened Slots

  datatype Slot = Slot(number: nat, own: Own, term: nat, lastSeq: nat, applied: nat)

  datatype Meta = Meta(version: nat, slots: seq<Slot>)

  datatype Error =
    | SlotOutOfRange | NotLeader | NotReplica | ReplicaUnavailable | StaleTerm | SequenceGap
    | NoReplicaAssigned | UnknownNode | ReplicaIsLeader | ClusterMismatch | StaleMetadata

  datatype Result<+T> = Ok(value: T) | Fail(error: Error)

  datatype Record = Record(source: NodeId, slot: nat, term: nat, sequence: nat)

  // ------------------------------------------------------ one slot's changes

  // A new term starts with fresh sequence counters.
  function Reset(s: Slot, own: Own): Slot {
    Slot(s.number, own, s.term + 1, 0, 0)
  }

  function Promoted(s: Slot): Slot {
    Reset(s, PromoteOwn(s.own))
  }

  function Reassigned(s: Slot, node: NodeId): Slot {
    Reset(s, AssignOwn(s.own, node))
  }

  function Readied(s: Slot, sequence: nat): Slot {
    s.(own := ReadyOwn(s.own), lastSeq := sequence, applied := sequence)
  }

  function LeaderCommitted(s: Slot, sequence: nat): Slot {
    s.(lastSeq := sequence, applied := sequence)
  }

  function ReplicaCommitted(s: Slot, sequence: nat): Slot {
    s.(applied := sequence, lastSeq := if sequence > s.lastSeq then sequence else s.lastSeq)
  }

  // --------------------------------------------------------- whole-map spec

  // The leader may write when its replica is ready: the next sequence.
  function PrepareReplication(m: Meta, local: NodeId, n: nat): Result<nat> {
    if n >= |m.slots| then Fail(SlotOutOfRange)
    else
      var s := m.slots[n];
      if s.own.leader != local then Fail(NotLeader)
      else if s.own.replica == NOBODY || !s.own.ready then Fail(ReplicaUnavailable)
      else Ok(s.lastSeq + 1)
  }

  function CommitLeader(m: Meta, local: NodeId, n: nat, term: nat, sequence: nat): Result<Meta> {
    if n >= |m.slots| then Fail(SlotOutOfRange)
    else
      var s := m.slots[n];
      if s.own.leader != local || s.term != term then Fail(StaleTerm)
      else if sequence != s.lastSeq + 1 then Fail(SequenceGap)
      else Ok(m.(slots := m.slots[n := LeaderCommitted(s, sequence)]))
  }

  // Ok(true) for a record already applied, Ok(false) for the next one.
  function Validate(m: Meta, local: NodeId, rec: Record): Result<bool> {
    if rec.slot >= |m.slots| then Fail(SlotOutOfRange)
    else
      var s := m.slots[rec.slot];
      if s.own.replica != local then Fail(NotReplica)
      else if rec.term != s.term || rec.source != s.own.leader then Fail(StaleTerm)
      else if rec.sequence <= s.applied then Ok(true)
      else if rec.sequence != s.applied + 1 then Fail(SequenceGap)
      else Ok(false)
  }

  function CommitReplica(m: Meta, local: NodeId, n: nat, term: nat, sequence: nat): Result<Meta> {
    if n >= |m.slots| then Fail(SlotOutOfRange)
    else
      var s := m.slots[n];
      if s.own.replica != local || s.term != term then Fail(StaleTerm)
      else if sequence != s.applied + 1 then Fail(SequenceGap)
      else Ok(m.(slots := m.slots[n := ReplicaCommitted(s, sequence)]))
  }

  function Promote(m: Meta, n: nat): Result<Meta> {
    if n >= |m.slots| then Fail(SlotOutOfRange)
    else if m.slots[n].own.replica == NOBODY then Fail(NoReplicaAssigned)
    else Ok(Meta(m.version + 1, m.slots[n := Promoted(m.slots[n])]))
  }

  function Assign(m: Meta, peers: set<NodeId>, n: nat, node: NodeId): Result<Meta> {
    if n >= |m.slots| then Fail(SlotOutOfRange)
    else if node !in peers then Fail(UnknownNode)
    else if node == m.slots[n].own.leader then Fail(ReplicaIsLeader)
    else Ok(Meta(m.version + 1, m.slots[n := Reassigned(m.slots[n], node)]))
  }

  function MarkReady(m: Meta, local: NodeId, n: nat, term: nat, sequence: nat): Result<Meta> {
    if n >= |m.slots| then Fail(SlotOutOfRange)
    else
      var s := m.slots[n];
      if s.own.leader != local || s.term != term || s.own.replica == NOBODY then Fail(StaleTerm)
      else Ok(Meta(m.version + 1, m.slots[n := Readied(s, sequence)]))
  }

  function SetReplicaApplied(m: Meta, local: NodeId, n: nat, term: nat, sequence: nat): Result<Meta> {
    if n >= |m.slots| then Fail(SlotOutOfRange)
    else
      var s := m.slots[n];
      if s.term != term || s.own.replica != local then Fail(StaleTerm)
      else Ok(m.(slots := m.slots[n := s.(applied := sequence, lastSeq := sequence)]))
  }

  // A snapshot another node may send: every slot numbered, led, and in a term.
  predicate ValidSlots(slots: seq<Slot>) {
    slots != [] && forall i :: 0 <= i < |slots| ==>
      slots[i].number == i && slots[i].own.leader != NOBODY && slots[i].term != 0
  }

  // A newer map replaces the present one, except that progress within a term
  // is the receiver's own.
  function Merge(current: seq<Slot>, incoming: seq<Slot>): (r: seq<Slot>)
    ensures |r| == |incoming|
    ensures forall i :: 0 <= i < |incoming| ==>
      r[i] == if i < |current| && current[i].term == incoming[i].term
              then incoming[i].(applied := current[i].applied) else incoming[i]
  {
    seq(|incoming|, i requires 0 <= i < |incoming| =>
      if i < |current| && current[i].term == incoming[i].term
      then incoming[i].(applied := current[i].applied) else incoming[i])
  }

  function ApplyRemote(m: Meta, incoming: Meta): Result<Meta> {
    if !ValidSlots(incoming.slots) || |incoming.slots| != |m.slots| then Fail(ClusterMismatch)
    else if incoming.version <= m.version then Fail(StaleMetadata)
    else Ok(Meta(incoming.version, Merge(m.slots, incoming.slots)))
  }

  // Restoring a persisted map also accepts an equal version, and takes it whole.
  function Restore(m: Meta, incoming: Meta): Result<Meta> {
    if !ValidSlots(incoming.slots) || |incoming.slots| != |m.slots| then Fail(ClusterMismatch)
    else if incoming.version < m.version then Fail(StaleMetadata)
    else Ok(incoming)
  }

  // A restart: a persisted map comes back whole, counters included, also at the
  // version the node has; the same map as a broadcast is refused.
  lemma {:induction false} RestoreIsWhole(m: Meta, incoming: Meta)
    requires ValidSlots(incoming.slots) && |incoming.slots| == |m.slots|
    ensures incoming.version >= m.version ==> Restore(m, incoming) == Ok(incoming)
    ensures incoming.version < m.version ==> Restore(m, incoming) == Fail(StaleMetadata)
    ensures incoming.version == m.version ==> ApplyRemote(m, incoming) == Fail(StaleMetadata)
  {
  }

  // A broadcast: owners, terms and the leader's sequence are the sender's, and
  // within a term the receiver keeps its own applied counter.
  lemma {:induction false} BroadcastMerges(m: Meta, incoming: Meta, i: nat)
    requires ApplyRemote(m, incoming).Ok? && i < |m.slots|
    ensures var r, x := ApplyRemote(m, incoming).value, incoming.slots[i];
      && r.version == incoming.version > m.version && |r.slots| == |m.slots|
      && r.slots[i].own == x.own && r.slots[i].term == x.term && r.slots[i].lastSeq == x.lastSeq
      && r.slots[i].applied == if m.slots[i].term == x.term then m.slots[i].applied else x.applied
  {
  }
}
