// The invariant behind durability, on plain values: the ownership history of
// one slot, each node's view of it, each node's data, the writes and transfers
// under way, and the acknowledged writes.
module DurabilityCore {
  import opened Slots
  import opened Metadata
  import O = Ownership

  // A write request; a node's data is the sequence of writes it has applied.
  type Write = nat

  // A write under way at its leader. `version` is the map it was prepared on;
  // `answered` says that the replica has applied the record or taken it for one
  // it had applied already.
  datatype Pending = Pending(write: Write, version: nat, term: nat, sequence: nat, replica: NodeId, answered: bool)

  // A slot transfer under way at its leader, with the map it started on.
  datatype Transfer = Transfer(target: NodeId, version: nat, term: nat, sequence: nat, data: seq<Write>, applied: bool)

  datatype Core = Core(
    tab: seq<O.Tenure>, versions: map<NodeId, nat>, slots: map<NodeId, Slot>,
    data: map<NodeId, seq<Write>>, pending: map<NodeId, Pending>, transfer: map<NodeId, Transfer>, acked: set<Write>)

  function TenureOf(s: Slot): O.Tenure {
    O.Tenure(s.own, s.term)
  }

  ghost predicate Sized(c: Core) {
    && c.tab != [] && c.versions.Keys == c.slots.Keys == c.data.Keys
    && c.pending.Keys <= c.slots.Keys && c.transfer.Keys <= c.slots.Keys
  }

  // The ownership of the newest version.
  ghost function Now(c: Core): O.Tenure
    requires c.tab != []
  {
    c.tab[|c.tab| - 1]
  }

  // ------------------------------------------- what ownership guarantees

  ghost predicate Passed(slots: map<NodeId, Slot>, n: NodeId, term: nat) {
    n in slots && slots[n].term > term
  }

  // A recorded tenure against the newest one: an older term is known to have
  // ended by its leader or by its replica.
  ghost predicate Past(now: O.Tenure, slots: map<NodeId, Slot>, x: O.Tenure) {
    && x.own.leader != x.own.replica
    && x.term <= now.term
    && (x.term == now.term ==>
          && x.own.leader == now.own.leader && x.own.replica == now.own.replica
          && (x.own.ready ==> now.own.ready))
    && (x.term < now.term ==> Passed(slots, x.own.leader, x.term) || Passed(slots, x.own.replica, x.term))
  }

  ghost predicate ViewOk(c: Core, n: NodeId)
    requires Sized(c) && n in c.slots
  {
    1 <= c.versions[n] <= |c.tab| && c.tab[c.versions[n] - 1] == TenureOf(c.slots[n])
  }

  ghost predicate PastOk(c: Core, v: nat)
    requires Sized(c) && v < |c.tab|
  {
    Past(Now(c), c.slots, c.tab[v])
  }

  // A term has one leader and one replica.
  ghost predicate OneOwner(c: Core, v: nat, w: nat)
    requires Sized(c) && v < |c.tab| && w < |c.tab|
  {
    c.tab[v].term == c.tab[w].term ==>
      c.tab[v].own.leader == c.tab[w].own.leader && c.tab[v].own.replica == c.tab[w].own.replica
  }

  // A version is known to the node that leads in it.
  ghost predicate LeaderKnows(c: Core, v: nat)
    requires Sized(c) && v < |c.tab|
  {
    c.tab[v].own.leader in c.slots && c.versions[c.tab[v].own.leader] > v
  }

  // Every view is a recorded one, and the leader's is the newest.
  ghost predicate Grounded(c: Core)
    requires Sized(c)
  {
    && (forall v, w {:trigger OneOwner(c, v, w)} :: 0 <= v < |c.tab| && 0 <= w < |c.tab| ==> OneOwner(c, v, w))
    && (forall v {:trigger PastOk(c, v)} :: 0 <= v < |c.tab| ==> PastOk(c, v))
    && (forall v {:trigger LeaderKnows(c, v)} :: 0 <= v < |c.tab| ==> LeaderKnows(c, v))
    && (forall n {:trigger ViewOk(c, n)} :: n in c.slots ==> ViewOk(c, n))
    && Now(c).own.leader in c.slots && TenureOf(c.slots[Now(c).own.leader]) == Now(c)
  }

  // -------------------------------------------------------- the invariant

  ghost predicate Holds(data: map<NodeId, seq<Write>>, n: NodeId, w: Write) {
    n in data && w in data[n]
  }

  // A write nobody can lose now: the leader has it, and so has the replica
  // that could be promoted.
  ghost predicate Safe(now: O.Tenure, data: map<NodeId, seq<Write>>, w: Write) {
    Holds(data, now.own.leader, w) && (now.own.ready ==> Holds(data, now.own.replica, w))
  }

  ghost predicate PendingOk(tab: seq<O.Tenure>, data: map<NodeId, seq<Write>>, n: NodeId, slot: Slot, p: Pending)
    requires tab != []
  {
    var now := tab[|tab| - 1];
    && 1 <= p.version <= |tab|
    && tab[p.version - 1] == O.Tenure(Own(n, p.replica, true), p.term)
    && (slot.term == p.term ==> slot.lastSeq + 1 == p.sequence)
    && (p.answered && slot.term == p.term ==>
          if p.term == now.term then Holds(data, p.replica, p.write) else Safe(now, data, p.write))
  }

  // A transfer of the current term carries the leader's data, and once it has
  // been applied the target has the same data and sequence.
  ghost predicate TransferOk(tab: seq<O.Tenure>, slots: map<NodeId, Slot>, data: map<NodeId, seq<Write>>, n: NodeId, idle: bool, x: Transfer)
    requires tab != [] && n in slots && n in data && slots.Keys == data.Keys
  {
    var now := tab[|tab| - 1];
    && 1 <= x.version <= |tab|
    && tab[x.version - 1].own.leader == n && tab[x.version - 1].own.replica == x.target && tab[x.version - 1].term == x.term
    && (x.term == now.term ==>
          && !now.own.ready && idle
          && x.sequence == slots[n].lastSeq && x.data == data[n]
          && (x.applied ==>
                && x.target in slots && slots[x.target].term == x.term
                && slots[x.target].applied == x.sequence && data[x.target] == x.data))
  }

  // The leader has a write of this term that the replica has already answered.
  ghost predicate Ahead(now: O.Tenure, pending: map<NodeId, Pending>) {
    now.own.leader in pending && pending[now.own.leader].answered && pending[now.own.leader].term == now.term
  }

  // A ready replica is in the term, and level with its leader.
  ghost predicate ReadyOk(now: O.Tenure, slots: map<NodeId, Slot>, pending: map<NodeId, Pending>) {
    now.own.ready ==>
      && now.own.leader in slots && now.own.replica in slots && slots[now.own.replica].term == now.term
      && slots[now.own.replica].applied == slots[now.own.leader].lastSeq + if Ahead(now, pending) then 1 else 0
  }

  ghost predicate AllPending(c: Core)
    requires Sized(c)
  {
    forall n :: n in c.pending ==> PendingOk(c.tab, c.data, n, c.slots[n], c.pending[n])
  }

  ghost predicate AllTransfers(c: Core)
    requires Sized(c)
  {
    forall n :: n in c.transfer ==> TransferOk(c.tab, c.slots, c.data, n, n !in c.pending, c.transfer[n])
  }

  // Every acknowledged write is one nobody can lose.
  ghost predicate AllSafe(c: Core)
    requires Sized(c)
  {
    forall w :: w in c.acked ==> Safe(Now(c), c.data, w)
  }

  ghost predicate Durable(c: Core) {
    Sized(c) && ReadyOk(Now(c), c.slots, c.pending) && AllPending(c) && AllTransfers(c) && AllSafe(c)
  }

  // ------------------------------------------------- events within one node

  lemma {:induction false} DropPendingKeeps(c: Core, at: NodeId)
    requires Durable(c) && at in c.pending && (!c.pending[at].answered || c.slots[at].term != c.pending[at].term)
    requires Grounded(c)
    ensures Durable(c.(pending := c.pending - {at}))
  {
  }

  lemma {:induction false} DropTransferKeeps(c: Core, at: NodeId)
    requires Durable(c)
    ensures Durable(c.(transfer := c.transfer - {at}))
  {
  }

  ghost function Prepared(c: Core, at: NodeId, w: Write): Core
    requires at in c.slots && at in c.versions
  {
    c.(pending := c.pending[at :=
      Pending(w, c.versions[at], c.slots[at].term, c.slots[at].lastSeq + 1, c.slots[at].own.replica, false)])
  }

  lemma {:induction false} PrepareKeeps(c: Core, at: NodeId, w: Write)
    requires Durable(c) && Grounded(c) && at in c.slots && at !in c.pending
    requires c.slots[at].own.leader == at && c.slots[at].own.ready
    ensures Durable(Prepared(c, at, w))
  {
    assert ViewOk(c, at) && PastOk(c, c.versions[at] - 1);
    assert at in c.transfer ==> PastOk(c, c.transfer[at].version - 1);
  }

  lemma {:induction false} StartSyncKeeps(c: Core, at: NodeId)
    requires Durable(c) && Grounded(c) && at in c.slots && at !in c.pending
    requires c.slots[at].own.leader == at && !c.slots[at].own.ready
    ensures Durable(c.(transfer := c.transfer[at :=
      Transfer(c.slots[at].own.replica, c.versions[at], c.slots[at].term, c.slots[at].lastSeq, c.data[at], false)]))
  {
    assert ViewOk(c, at) && PastOk(c, c.versions[at] - 1);
  }

  // ------------------------------------------------------ records in flight

  // The leader of an ended term that still believes in it has a replica that
  // does not.
  lemma {:induction false} StaleReplicaRefuses(c: Core, at: NodeId)
    requires Durable(c) && Grounded(c) && at in c.pending && c.slots[at].term == c.pending[at].term < Now(c).term
    ensures Passed(c.slots, c.pending[at].replica, c.pending[at].term)
  {
    assert PastOk(c, c.pending[at].version - 1);
  }

  // In the current term the record is the replica's next one: no duplicate.
  lemma {:induction false} CurrentRecordIsNext(c: Core, at: NodeId)
    requires Durable(c) && Grounded(c) && at in c.pending && !c.pending[at].answered && c.pending[at].term == Now(c).term
    requires c.slots[at].term == c.pending[at].term
    ensures at == Now(c).own.leader && c.pending[at].replica == Now(c).own.replica && Now(c).own.ready
    ensures c.pending[at].replica in c.slots && c.pending[at].sequence == c.slots[c.pending[at].replica].applied + 1
  {
    assert PastOk(c, c.pending[at].version - 1);
  }

  // A node that follows somebody in a term has no write of its own in it.
  lemma {:induction false} FollowerIsIdle(c: Core, n: NodeId)
    requires Durable(c) && Grounded(c) && n in c.pending && c.slots[n].own.leader != n
    ensures c.pending[n].term != c.slots[n].term
  {
    assert ViewOk(c, n) && OneOwner(c, c.versions[n] - 1, c.pending[n].version - 1);
  }

  // The record a replica is about to apply.
  ghost predicate Acceptable(c: Core, at: NodeId)
    requires Sized(c)
  {
    at in c.pending && !c.pending[at].answered &&
    var p := c.pending[at];
    && p.replica in c.slots && c.slots[p.replica].term == p.term
    && c.slots[p.replica].own.replica == p.replica && c.slots[p.replica].own.leader == at
    && p.sequence == c.slots[p.replica].applied + 1
  }

  // Who the replica is: the current one for the current term, and otherwise
  // neither owner of the current term.
  lemma {:induction false} WhoApplies(c: Core, at: NodeId)
    requires Durable(c) && Grounded(c) && Acceptable(c, at)
    ensures var p, now := c.pending[at], Now(c);
      && at != p.replica && p.replica != now.own.leader
      && (p.term == now.term ==> at == now.own.leader && p.replica == now.own.replica && now.own.ready)
      && (p.term != now.term ==> p.term < now.term && c.slots[at].term != p.term && (now.own.ready ==> p.replica != now.own.replica))
  {
    var p := c.pending[at];
    assert PastOk(c, p.version - 1);
    assert ViewOk(c, p.replica) && PastOk(c, c.versions[p.replica] - 1);
    if p.term < Now(c).term && c.slots[at].term == p.term {
      StaleReplicaRefuses(c, at);
    }
  }

  // The replica applies a record and acknowledges it.
  ghost function Applied(c: Core, at: NodeId): Core
    requires Sized(c) && Acceptable(c, at)
  {
    var p := c.pending[at];
    c.(pending := c.pending[at := p.(answered := true)],
       data := c.data[p.replica := c.data[p.replica] + [p.write]],
       slots := c.slots[p.replica := ReplicaCommitted(c.slots[p.replica], p.sequence)])
  }

  lemma {:induction false} ApplyKeepsPending(c: Core, at: NodeId)
    requires Durable(c) && Grounded(c) && Acceptable(c, at)
    ensures AllPending(Applied(c, at))
  {
    var d := Applied(c, at);
    WhoApplies(c, at);
    forall n | n in d.pending
      ensures PendingOk(d.tab, d.data, n, d.slots[n], d.pending[n])
    {
      if n == c.pending[at].replica {
        FollowerIsIdle(c, n);
      }
    }
  }

  lemma {:induction false} ApplyKeepsTransfers(c: Core, at: NodeId)
    requires Durable(c) && Grounded(c) && Acceptable(c, at)
    ensures AllTransfers(Applied(c, at))
  {
    var d := Applied(c, at);
    WhoApplies(c, at);
    forall n | n in d.transfer
      ensures TransferOk(d.tab, d.slots, d.data, n, n !in d.pending, d.transfer[n])
    {
      assert PastOk(c, c.transfer[n].version - 1);
    }
  }

  lemma {:induction false} ApplyKeepsReady(c: Core, at: NodeId)
    requires Durable(c) && Grounded(c) && Acceptable(c, at)
    ensures var d := Applied(c, at); ReadyOk(Now(d), d.slots, d.pending) && AllSafe(d)
  {
    WhoApplies(c, at);
  }

  lemma {:induction false} ApplyRecordKeeps(c: Core, at: NodeId)
    requires Durable(c) && Grounded(c) && Acceptable(c, at)
    ensures Durable(Applied(c, at))
  {
    ApplyKeepsPending(c, at);
    ApplyKeepsTransfers(c, at);
    ApplyKeepsReady(c, at);
  }

  // A duplicate is acknowledged without being applied; that never happens to a
  // write its leader could still acknowledge.
  lemma {:induction false} DuplicateKeeps(c: Core, at: NodeId)
    requires Durable(c) && Grounded(c) && at in c.pending && !c.pending[at].answered
    requires var p := c.pending[at];
      p.replica in c.slots && c.slots[p.replica].term == p.term && p.sequence <= c.slots[p.replica].applied
    ensures c.slots[at].term != c.pending[at].term
    ensures Durable(c.(pending := c.pending[at := c.pending[at].(answered := true)]))
  {
    var p := c.pending[at];
    assert PastOk(c, p.version - 1);
    if c.slots[at].term == p.term {
      if p.term == Now(c).term {
        CurrentRecordIsNext(c, at);
      } else {
        StaleReplicaRefuses(c, at);
      }
    }
  }

  // ----------------------------------------------------- acknowledgements

  ghost predicate Finishable(c: Core, at: NodeId)
    requires Sized(c)
  {
    at in c.pending && c.pending[at].answered && c.slots[at].term == c.pending[at].term
  }

  ghost function Finished(c: Core, at: NodeId): Core
    requires Sized(c) && Finishable(c, at)
  {
    var p := c.pending[at];
    c.(pending := c.pending - {at},
       data := c.data[at := c.data[at] + [p.write]],
       slots := c.slots[at := LeaderCommitted(c.slots[at], p.sequence)],
       acked := c.acked + {p.write})
  }

  lemma {:induction false} WhoFinishes(c: Core, at: NodeId)
    requires Durable(c) && Grounded(c) && Finishable(c, at)
    ensures var p, now := c.pending[at], Now(c);
      && p.sequence == c.slots[at].lastSeq + 1
      && (p.term == now.term ==> at == now.own.leader && p.replica == now.own.replica && now.own.ready && Holds(c.data, p.replica, p.write))
      && (p.term != now.term ==> p.term < now.term && at != now.own.leader && (now.own.ready ==> at != now.own.replica) && Safe(now, c.data, p.write))
  {
    assert PastOk(c, c.pending[at].version - 1);
  }

  lemma {:induction false} FinishKeepsTransfers(c: Core, at: NodeId)
    requires Durable(c) && Grounded(c) && Finishable(c, at)
    ensures AllTransfers(Finished(c, at))
  {
    var d := Finished(c, at);
    WhoFinishes(c, at);
    forall n | n in d.transfer
      ensures TransferOk(d.tab, d.slots, d.data, n, n !in d.pending, d.transfer[n])
    {
      assert PastOk(c, c.transfer[n].version - 1);
    }
  }

  lemma {:induction false} FinishKeepsPending(c: Core, at: NodeId)
    requires Durable(c) && Grounded(c) && Finishable(c, at)
    ensures AllPending(Finished(c, at))
  {
    var d := Finished(c, at);
    WhoFinishes(c, at);
    forall n | n in d.pending
      ensures PendingOk(d.tab, d.data, n, d.slots[n], d.pending[n])
    {
      assert PendingOk(c.tab, c.data, n, c.slots[n], c.pending[n]);
    }
  }

  // The acknowledged write is safe, and the counters are level again.
  lemma {:induction false} FinishKeepsReady(c: Core, at: NodeId)
    requires Durable(c) && Grounded(c) && Finishable(c, at)
    ensures var d := Finished(c, at); ReadyOk(Now(d), d.slots, d.pending) && AllSafe(d)
  {
    WhoFinishes(c, at);
  }

  lemma {:induction false} FinishKeeps(c: Core, at: NodeId)
    requires Durable(c) && Grounded(c) && Finishable(c, at)
    ensures Durable(Finished(c, at))
  {
    FinishKeepsTransfers(c, at);
    FinishKeepsPending(c, at);
    FinishKeepsReady(c, at);
  }

  // ----------------------------------------------------------- transfers

  ghost predicate Restorable(c: Core, at: NodeId)
    requires Sized(c)
  {
    at in c.transfer && !c.transfer[at].applied &&
    var x := c.transfer[at];
    && x.target in c.slots && x.target !in c.pending
    && c.slots[x.target].own.replica == x.target && c.slots[x.target].own.leader == at && c.slots[x.target].term == x.term
  }

  ghost function Restored(c: Core, at: NodeId): Core
    requires Sized(c) && Restorable(c, at)
  {
    var x := c.transfer[at];
    c.(transfer := c.transfer[at := x.(applied := true)],
       data := c.data[x.target := x.data],
       slots := c.slots[x.target := c.slots[x.target].(applied := x.sequence, lastSeq := x.sequence)])
  }

  lemma {:induction false} WhoRestores(c: Core, at: NodeId)
    requires Durable(c) && Grounded(c) && Restorable(c, at)
    ensures var x, now := c.transfer[at], Now(c);
      && at != x.target && x.target != now.own.leader
      && (x.term == now.term ==> at == now.own.leader && x.target == now.own.replica && !now.own.ready)
      && (x.term != now.term ==> x.term < now.term && (now.own.ready ==> x.target != now.own.replica))
  {
    var x := c.transfer[at];
    assert PastOk(c, x.version - 1);
    assert ViewOk(c, x.target) && PastOk(c, c.versions[x.target] - 1);
  }

  lemma {:induction false} RestoreKeepsPending(c: Core, at: NodeId)
    requires Durable(c) && Grounded(c) && Restorable(c, at)
    ensures AllPending(Restored(c, at))
  {
    var d := Restored(c, at);
    WhoRestores(c, at);
    forall n | n in d.pending
      ensures PendingOk(d.tab, d.data, n, d.slots[n], d.pending[n])
    {
      assert PastOk(c, c.pending[n].version - 1);
    }
  }

  lemma {:induction false} RestoreKeepsTransfers(c: Core, at: NodeId)
    requires Durable(c) && Grounded(c) && Restorable(c, at)
    ensures AllTransfers(Restored(c, at))
  {
    var d := Restored(c, at);
    WhoRestores(c, at);
    forall n | n in d.transfer
      ensures TransferOk(d.tab, d.slots, d.data, n, n !in d.pending, d.transfer[n])
    {
      assert PastOk(c, c.transfer[n].version - 1);
    }
  }

  lemma {:induction false} RestoreKeepsReady(c: Core, at: NodeId)
    requires Durable(c) && Grounded(c) && Restorable(c, at)
    ensures var d := Restored(c, at); ReadyOk(Now(d), d.slots, d.pending) && AllSafe(d)
  {
    WhoRestores(c, at);
  }

  lemma {:induction false} RestoreKeeps(c: Core, at: NodeId)
    requires Durable(c) && Grounded(c) && Restorable(c, at)
    ensures Durable(Restored(c, at))
  {
    RestoreKeepsPending(c, at);
    RestoreKeepsTransfers(c, at);
    RestoreKeepsReady(c, at);
  }

  // -------------------------------------------------- changes of ownership

  // Node n makes the next version, with its slot as given.
  function NewVersion(c: Core, n: NodeId, slot: Slot): Core {
    c.(tab := c.tab + [TenureOf(slot)], slots := c.slots[n := slot], versions := c.versions[n := |c.tab| + 1])
  }

  // A node on the newest version has the newest view.
  lemma {:induction false} Current(c: Core, n: NodeId)
    requires Sized(c) && Grounded(c) && n in c.slots && c.versions[n] == |c.tab|
    ensures TenureOf(c.slots[n]) == Now(c)
  {
    assert ViewOk(c, n);
  }

  // Nothing under way belongs to a term that has only just begun.
  lemma {:induction false} NothingAhead(c: Core, n: NodeId)
    requires Durable(c) && Grounded(c)
    ensures n in c.pending ==> c.pending[n].term <= Now(c).term
    ensures n in c.transfer ==> c.transfer[n].term <= Now(c).term
    ensures n in c.pending && c.pending[n].term == Now(c).term ==>
      n == Now(c).own.leader && c.pending[n].replica == Now(c).own.replica && Now(c).own.ready
    ensures n in c.transfer && c.transfer[n].term == Now(c).term ==> n == Now(c).own.leader && c.transfer[n].target == Now(c).own.replica
  {
    assert n in c.pending ==> PastOk(c, c.pending[n].version - 1);
    assert n in c.transfer ==> PastOk(c, c.transfer[n].version - 1);
  }

  lemma {:induction false} PromoteKeeps(c: Core, n: NodeId)
    requires Durable(c) && Grounded(c) && n in c.slots && TenureOf(c.slots[n]) == Now(c)
    requires Now(c).own.ready && Now(c).own.replica == n
    ensures Durable(NewVersion(c, n, Promoted(c.slots[n])))
  {
    var d := NewVersion(c, n, Promoted(c.slots[n]));
    forall k | k in d.pending
      ensures PendingOk(d.tab, d.data, k, d.slots[k], d.pending[k])
    {
      NothingAhead(c, k);
    }
    forall k | k in d.transfer
      ensures TransferOk(d.tab, d.slots, d.data, k, k !in d.pending, d.transfer[k])
    {
      NothingAhead(c, k);
    }
  }

  lemma {:induction false} AssignKeeps(c: Core, n: NodeId, target: NodeId)
    requires Durable(c) && Grounded(c) && n in c.slots && TenureOf(c.slots[n]) == Now(c)
    requires Now(c).own.leader == n
    ensures Durable(NewVersion(c, n, Reassigned(c.slots[n], target)))
  {
    var d := NewVersion(c, n, Reassigned(c.slots[n], target));
    forall k | k in d.pending
      ensures PendingOk(d.tab, d.data, k, d.slots[k], d.pending[k])
    {
      NothingAhead(c, k);
    }
    forall k | k in d.transfer
      ensures TransferOk(d.tab, d.slots, d.data, k, k !in d.pending, d.transfer[k])
    {
      NothingAhead(c, k);
    }
  }

  // Node n leads in the newest version and its transfer has been applied.
  ghost predicate Synced(c: Core, n: NodeId)
    requires Sized(c)
  {
    && n in c.transfer && c.transfer[n].applied && TenureOf(c.slots[n]) == Now(c)
    && Now(c).own.leader == n && c.transfer[n].term == Now(c).term
  }

  function MadeReady(c: Core, n: NodeId): Core
    requires n in c.transfer && n in c.slots
  {
    NewVersion(c, n, Readied(c.slots[n], c.transfer[n].sequence)).(transfer := c.transfer - {n})
  }

  lemma {:induction false} ReadyKeeps(c: Core, n: NodeId)
    requires Durable(c) && Grounded(c) && Synced(c, n)
    ensures Durable(MadeReady(c, n))
  {
    var d := MadeReady(c, n);
    NothingAhead(c, n);
    forall k | k in d.pending
      ensures PendingOk(d.tab, d.data, k, d.slots[k], d.pending[k])
    {
      NothingAhead(c, k);
    }
    forall k | k in d.transfer
      ensures TransferOk(d.tab, d.slots, d.data, k, k !in d.pending, d.transfer[k])
    {
      NothingAhead(c, k);
    }
  }

  // A node may take over version v, keeping its own progress within a term.
  ghost predicate Takeable(c: Core, n: NodeId, v: nat, slot: Slot)
    requires Sized(c)
  {
    && n in c.slots && c.versions[n] < v <= |c.tab| && c.tab[v - 1] == TenureOf(slot)
    && slot.term >= c.slots[n].term && (slot.term == c.slots[n].term ==> slot.applied == c.slots[n].applied)
  }

  function Taken(c: Core, n: NodeId, v: nat, slot: Slot): Core {
    c.(slots := c.slots[n := slot], versions := c.versions[n := v])
  }

  // Whoever takes over a version does not lead in it, nor now.
  lemma {:induction false} TakerFollows(c: Core, n: NodeId, v: nat, slot: Slot)
    requires Durable(c) && Grounded(c) && Takeable(c, n, v, slot)
    ensures n != Now(c).own.leader && slot.own.leader != n
  {
    assert LeaderKnows(c, v - 1) && LeaderKnows(c, |c.tab| - 1);
  }

  lemma {:induction false} TakeKeepsReady(c: Core, n: NodeId, v: nat, slot: Slot)
    requires Durable(c) && Grounded(c) && Takeable(c, n, v, slot)
    ensures ReadyOk(Now(c), Taken(c, n, v, slot).slots, c.pending)
  {
    TakerFollows(c, n, v, slot);
    assert PastOk(c, v - 1);
  }

  lemma {:induction false} TakeKeepsPending(c: Core, n: NodeId, v: nat, slot: Slot, k: NodeId)
    requires Durable(c) && Grounded(c) && Takeable(c, n, v, slot) && k in c.pending
    ensures PendingOk(c.tab, c.data, k, Taken(c, n, v, slot).slots[k], c.pending[k])
  {
    TakerFollows(c, n, v, slot);
    assert PendingOk(c.tab, c.data, k, c.slots[k], c.pending[k]);
    assert OneOwner(c, v - 1, c.pending[k].version - 1);
  }

  lemma {:induction false} TakeKeepsTransfer(c: Core, n: NodeId, v: nat, slot: Slot, k: NodeId)
    requires Durable(c) && Grounded(c) && Takeable(c, n, v, slot) && k in c.transfer
    ensures TransferOk(c.tab, Taken(c, n, v, slot).slots, c.data, k, k !in c.pending, c.transfer[k])
  {
    TakerFollows(c, n, v, slot);
    NothingAhead(c, k);
    assert PastOk(c, v - 1);
    assert TransferOk(c.tab, c.slots, c.data, k, k !in c.pending, c.transfer[k]);
  }

  lemma {:induction false} TakeKeeps(c: Core, n: NodeId, v: nat, slot: Slot)
    requires Durable(c) && Grounded(c) && Takeable(c, n, v, slot)
    ensures Durable(Taken(c, n, v, slot))
  {
    var d := Taken(c, n, v, slot);
    TakeKeepsReady(c, n, v, slot);
    forall k | k in d.pending
      ensures PendingOk(d.tab, d.data, k, d.slots[k], d.pending[k])
    {
      TakeKeepsPending(c, n, v, slot, k);
    }
    forall k | k in d.transfer
      ensures TransferOk(d.tab, d.slots, d.data, k, k !in d.pending, d.transfer[k])
    {
      TakeKeepsTransfer(c, n, v, slot, k);
    }
  }
}
