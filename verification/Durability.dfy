// Durability of acknowledged writes, for one slot: writes in flight, lost
// records, promotions, reassignments and full-slot syncs interleave on top of
// the ownership protocol. A write takes three steps: it is prepared at the
// leader, applied at the replica and finished at the leader.
module Durability {
  import opened Slots
  import opened Metadata
  import O = Ownership
  import opened DurabilityCore

  datatype Sys = Sys(
    o: O.Sys, data: map<NodeId, seq<Write>>, pending: map<NodeId, Pending>, transfer: map<NodeId, Transfer>, acked: set<Write>)

  datatype Event =
    | Change(a: O.Action)                  // promotion, assignment, broadcast
    | Prepare(at: NodeId, write: Write)
    | DeliverRecord(at: NodeId)            // the record reaches the replica
    | GiveUp(at: NodeId)                   // it never does, or its answer is lost
    | Finish(at: NodeId)                   // the answer is in hand
    | StartSync(at: NodeId)
    | DeliverSnapshot(at: NodeId)
    | AbortSync(at: NodeId)
    | FinishSync(at: NodeId)

  // One slot, and data for every node.
  ghost predicate Single(o: O.Sys) {
    && o.hist != [] && (forall v :: 0 <= v < |o.hist| ==> |o.hist[v]| == 1)
    && (forall n :: n in o.nodes ==> |o.nodes[n].slots| == 1)
  }

  ghost predicate OneSlot(s: Sys) {
    && Single(s.o)
    && s.data.Keys == s.o.nodes.Keys && s.pending.Keys <= s.o.nodes.Keys && s.transfer.Keys <= s.o.nodes.Keys
  }

  function SlotAt(s: Sys, n: NodeId): Slot
    requires n in s.o.nodes && |s.o.nodes[n].slots| == 1
  {
    s.o.nodes[n].slots[0]
  }

  function RecordOf(at: NodeId, p: Pending): Record {
    Record(at, 0, p.term, p.sequence)
  }

  // Everything that can happen. Records nobody waits for any more change the
  // counters of replicas at any time; only a finished write moves a leader's.
  ghost predicate Possible(s: Sys, e: Event)
    requires OneSlot(s)
  {
    match e
    case Change(a) => !a.DoCommitLeader? && O.Allowed(s.o, a)
    case Prepare(at, _) => at in s.o.nodes && at !in s.pending && PrepareReplication(s.o.nodes[at], at, 0).Ok?
    case DeliverRecord(at) => at in s.pending && !s.pending[at].answered && s.pending[at].replica in s.o.nodes
    case GiveUp(at) => at in s.pending
    case Finish(at) => at in s.pending && s.pending[at].answered
    case StartSync(at) =>
      at in s.o.nodes && at !in s.transfer && SlotAt(s, at).own.leader == at && SlotAt(s, at).own.replica != NOBODY
    case DeliverSnapshot(at) => at in s.transfer && !s.transfer[at].applied && s.transfer[at].target in s.o.nodes
    case AbortSync(at) => at in s.transfer
    case FinishSync(at) => at in s.transfer && s.transfer[at].applied && O.AtHighest(s.o, at)
  }

  // What durability takes for granted besides. Promotions are of ready replicas;
  // a sync starts only while the replica is not ready; the admission lock keeps
  // a write and a snapshot or a restore of the same engine apart; no answer is
  // lost, and no record arrives after its leader has given up.
  ghost predicate Enabled(s: Sys, e: Event)
    requires OneSlot(s)
  {
    && Possible(s, e)
    && match e
       case Change(a) => (a.DoPromote? && SlotAt(s, a.at).own.ready) || a.DoAssign? || a.Publish? || a.Deliver?
       case GiveUp(at) => !s.pending[at].answered
       case StartSync(at) => at !in s.pending && !SlotAt(s, at).own.ready
       case DeliverSnapshot(at) => s.transfer[at].target !in s.pending
       case _ => true
  }

  ghost function Next(peers: set<NodeId>, s: Sys, e: Event): Sys
    requires OneSlot(s) && Possible(s, e)
  {
    match e
    case Change(a) => s.(o := O.Perform(peers, s.o, a))
    case Prepare(at, write) => AfterPrepare(s, at, write)
    case DeliverRecord(at) => AfterRecord(peers, s, at)
    case GiveUp(at) => s.(pending := s.pending - {at})
    case Finish(at) => AfterFinish(peers, s, at)
    case StartSync(at) => AfterStart(s, at)
    case DeliverSnapshot(at) => AfterSnapshot(peers, s, at)
    case AbortSync(at) => s.(transfer := s.transfer - {at})
    case FinishSync(at) => AfterSync(peers, s, at)
  }

  // The leader claims the next sequence for a write.
  ghost function AfterPrepare(s: Sys, at: NodeId, write: Write): Sys
    requires OneSlot(s) && at in s.o.nodes && PrepareReplication(s.o.nodes[at], at, 0).Ok?
  {
    var m := s.o.nodes[at];
    s.(pending := s.pending[at :=
      Pending(write, m.version, m.slots[0].term, PrepareReplication(m, at, 0).value, m.slots[0].own.replica, false)])
  }

  // The leader snapshots its copy of the slot.
  ghost function AfterStart(s: Sys, at: NodeId): Sys
    requires OneSlot(s) && at in s.o.nodes
  {
    var m := s.o.nodes[at];
    s.(transfer := s.transfer[at :=
      Transfer(m.slots[0].own.replica, m.version, m.slots[0].term, m.slots[0].lastSeq, s.data[at], false)])
  }

  // The leader marks its replica ready.
  ghost function AfterSync(peers: set<NodeId>, s: Sys, at: NodeId): Sys
    requires OneSlot(s) && at in s.transfer && O.AtHighest(s.o, at)
  {
    var x := s.transfer[at];
    s.(o := O.Perform(peers, s.o, O.DoReady(at, 0, x.term, x.sequence)), transfer := s.transfer - {at})
  }

  // The replica applies the record, recognises a duplicate, or refuses, and
  // its answer reaches the leader.
  ghost function AfterRecord(peers: set<NodeId>, s: Sys, at: NodeId): Sys
    requires OneSlot(s) && at in s.pending && s.pending[at].replica in s.o.nodes
  {
    var p := s.pending[at];
    match Validate(s.o.nodes[p.replica], p.replica, RecordOf(at, p))
    case Fail(_) => s.(pending := s.pending - {at})
    case Ok(true) => s.(pending := s.pending[at := p.(answered := true)])
    case Ok(false) =>
      s.(pending := s.pending[at := p.(answered := true)],
         data := s.data[p.replica := s.data[p.replica] + [p.write]],
         o := O.Perform(peers, s.o, O.DoCommitReplica(p.replica, 0, p.term, p.sequence)))
  }

  // The leader commits the sequence, executes the write and answers the client.
  ghost function AfterFinish(peers: set<NodeId>, s: Sys, at: NodeId): Sys
    requires OneSlot(s) && at in s.pending
  {
    var p := s.pending[at];
    match CommitLeader(s.o.nodes[at], at, 0, p.term, p.sequence)
    case Fail(_) => s.(pending := s.pending - {at})
    case Ok(_) =>
      s.(pending := s.pending - {at},
         data := s.data[at := s.data[at] + [p.write]],
         o := O.Perform(peers, s.o, O.DoCommitLeader(at, 0, p.term, p.sequence)),
         acked := s.acked + {p.write})
  }

  // The target checks who it hears from, then replaces its copy of the slot.
  ghost function AfterSnapshot(peers: set<NodeId>, s: Sys, at: NodeId): Sys
    requires OneSlot(s) && at in s.transfer && s.transfer[at].target in s.o.nodes
  {
    var x := s.transfer[at];
    var t := SlotAt(s, x.target);
    if t.own.replica != x.target || t.own.leader != at || t.term != x.term then s.(transfer := s.transfer - {at})
    else
      s.(transfer := s.transfer[at := x.(applied := true)],
         data := s.data[x.target := x.data],
         o := O.Perform(peers, s.o, O.DoSetApplied(x.target, 0, x.term, x.sequence)))
  }

  // ------------------------------------------------- what ownership gives

  // With one slot every version is made by the node that leads in it; within a
  // term a replica that is ready stays ready.
  ghost predicate History(o: O.Sys) {
    && O.Inv(o) && (forall v :: 0 <= v < |o.hist| ==> |o.hist[v]| == 1)
    && (forall v {:trigger Headed(o, v)} :: 0 <= v < |o.hist| ==> Headed(o, v))
    && (forall v {:trigger StaysReady(o, v)} :: 0 <= v < |o.hist| - 1 ==> StaysReady(o, v))
  }

  ghost predicate Headed(o: O.Sys, v: nat)
    requires v < |o.hist| && |o.hist[v]| == 1
  {
    var own := o.hist[v][0].own;
    own.leader != own.replica && own.leader in o.nodes && o.nodes[own.leader].version > v
  }

  ghost predicate StaysReady(o: O.Sys, v: nat)
    requires v + 1 < |o.hist| && |o.hist[v]| == 1 && |o.hist[v + 1]| == 1
  {
    o.hist[v][0].term == o.hist[v + 1][0].term && o.hist[v][0].own.ready ==> o.hist[v + 1][0].own.ready
  }

  ghost function Tab(o: O.Sys): (r: seq<O.Tenure>)
    requires Single(o)
    ensures |r| == |o.hist| && forall v :: 0 <= v < |r| ==> r[v] == o.hist[v][0]
  {
    seq(|o.hist|, v requires 0 <= v < |o.hist| => o.hist[v][0])
  }

  ghost function Versions(o: O.Sys): (r: map<NodeId, nat>)
    ensures r.Keys == o.nodes.Keys && forall n :: n in r ==> r[n] == o.nodes[n].version
  {
    map n | n in o.nodes :: o.nodes[n].version
  }

  ghost function Views(o: O.Sys): (r: map<NodeId, Slot>)
    requires Single(o)
    ensures r.Keys == o.nodes.Keys && forall n :: n in r ==> r[n] == o.nodes[n].slots[0]
  {
    map n | n in o.nodes :: o.nodes[n].slots[0]
  }

  ghost function CoreOf(s: Sys): Core
    requires OneSlot(s)
  {
    Core(Tab(s.o), Versions(s.o), Views(s.o), s.data, s.pending, s.transfer, s.acked)
  }

  ghost predicate Inv(s: Sys) {
    OneSlot(s) && History(s.o) && Durable(CoreOf(s))
  }

  lemma {:induction false} ReadyGrows(o: O.Sys, v: nat, w: nat)
    requires History(o) && v <= w < |o.hist|
    requires o.hist[v][0].term == o.hist[w][0].term && o.hist[v][0].own.ready
    ensures o.hist[w][0].own.ready
    decreases w - v
  {
    if v < w {
      O.TermsGrow(o.hist, v, v + 1, 0);
      O.TermsGrow(o.hist, v + 1, w, 0);
      assert StaysReady(o, v);
      ReadyGrows(o, v + 1, w);
    }
  }

  lemma {:induction false} PastHolds(s: Sys, v: nat)
    requires OneSlot(s) && History(s.o) && v < |s.o.hist|
    ensures Sized(CoreOf(s)) && PastOk(CoreOf(s), v) && LeaderKnows(CoreOf(s), v)
  {
    var c := CoreOf(s);
    var last := |s.o.hist| - 1;
    assert Headed(s.o, v);
    O.TermsGrow(s.o.hist, v, last, 0);
    assert O.FencedAt(s.o, s.o.hist[v][0], 0);
    if s.o.hist[v][0].term == s.o.hist[last][0].term && s.o.hist[v][0].own.ready {
      ReadyGrows(s.o, v, last);
    }
  }

  lemma {:induction false} ViewHolds(s: Sys, n: NodeId)
    requires OneSlot(s) && History(s.o) && n in s.o.nodes
    ensures Sized(CoreOf(s)) && ViewOk(CoreOf(s), n)
  {
    var m := s.o.nodes[n];
    assert O.Recorded(s.o.hist, m);
    assert O.Owners(m)[0] == O.Tenure(m.slots[0].own, m.slots[0].term);
  }

  lemma {:induction false} OwnerHolds(s: Sys, v: nat, w: nat)
    requires OneSlot(s) && History(s.o) && v < |s.o.hist| && w < |s.o.hist|
    ensures Sized(CoreOf(s)) && OneOwner(CoreOf(s), v, w)
  {
    if v <= w {
      O.TermsGrow(s.o.hist, v, w, 0);
    } else {
      O.TermsGrow(s.o.hist, w, v, 0);
    }
  }

  lemma {:induction false} HistoryGrounds(s: Sys)
    requires OneSlot(s) && History(s.o)
    ensures Sized(CoreOf(s)) && Grounded(CoreOf(s))
  {
    var c := CoreOf(s);
    forall v, w | 0 <= v < |c.tab| && 0 <= w < |c.tab|
      ensures OneOwner(c, v, w)
    {
      OwnerHolds(s, v, w);
    }
    forall v | 0 <= v < |c.tab|
      ensures PastOk(c, v) && LeaderKnows(c, v)
    {
      PastHolds(s, v);
    }
    forall n | n in c.slots
      ensures ViewOk(c, n)
    {
      ViewHolds(s, n);
    }
    LeaderIsCurrent(s);
  }

  lemma {:induction false} LeaderIsCurrent(s: Sys)
    requires OneSlot(s) && History(s.o)
    ensures var c := CoreOf(s);
      && Sized(c) && Now(c).own.leader in c.slots && c.versions[Now(c).own.leader] == |c.tab|
      && TenureOf(c.slots[Now(c).own.leader]) == Now(c)
  {
    var last := |s.o.hist| - 1;
    PastHolds(s, last);
    ViewHolds(s, s.o.hist[last][0].own.leader);
  }

  // A node that holds the highest version has the newest view.
  lemma {:induction false} HighestIsCurrent(s: Sys, n: NodeId)
    requires OneSlot(s) && History(s.o) && O.AtHighest(s.o, n)
    ensures var c := CoreOf(s);
      Sized(c) && n in c.slots && c.versions[n] == |c.tab| && TenureOf(c.slots[n]) == Now(c)
  {
    LeaderIsCurrent(s);
    ViewHolds(s, n);
  }

  // ------------------------------------------------------ history goes on

  lemma {:induction false} ReplaceKeepsHistory(o: O.Sys, at: NodeId, m: Meta)
    requires History(o) && at in o.nodes && O.Recorded(o.hist, m) && o.nodes[at].version <= m.version
    requires O.Inv(o.(nodes := o.nodes[at := m]))
    ensures History(o.(nodes := o.nodes[at := m]))
  {
    var o' := o.(nodes := o.nodes[at := m]);
    forall v | 0 <= v < |o.hist|
      ensures Headed(o', v)
    {
      assert Headed(o, v);
    }
    forall v | 0 <= v < |o.hist| - 1
      ensures StaysReady(o', v)
    {
      assert StaysReady(o, v);
    }
  }

  lemma {:induction false} ExtendKeepsHistory(o: O.Sys, o': O.Sys, at: NodeId, m: Meta)
    requires History(o) && O.Inv(o') && at in o.nodes && o.nodes[at].version == |o.hist|
    requires o' == O.Sys(o.nodes[at := m], o.sent + {m}, o.hist + [O.Owners(m)])
    requires |m.slots| == 1 && m.version == |o.hist| + 1
    requires m.slots[0].own.leader == at && m.slots[0].own.replica != at
    requires O.Owners(o.nodes[at]) == o.hist[|o.hist| - 1]
    requires m.slots[0].term == o.nodes[at].slots[0].term && o.nodes[at].slots[0].own.ready ==> m.slots[0].own.ready
    ensures History(o')
  {
    forall v | 0 <= v < |o'.hist|
      ensures Headed(o', v)
    {
      if v < |o.hist| {
        assert Headed(o, v);
      }
    }
    forall v | 0 <= v < |o'.hist| - 1
      ensures StaysReady(o', v)
    {
      if v < |o.hist| - 1 {
        assert StaysReady(o, v);
      }
    }
  }

  // The node that changes the topology leads in the version it makes.
  lemma {:induction false} NewHead(peers: set<NodeId>, m: Meta, a: O.Action)
    requires (a.DoPromote? || a.DoAssign? || a.DoReady?) && O.Operation(peers, m, a).Ok?
    requires |m.slots| == 1 && m.slots[0].own.leader != m.slots[0].own.replica
    requires a.DoPromote? ==> a.slot == 0 && m.slots[0].own.replica == a.at
    requires a.DoAssign? ==> a.slot == 0 && m.slots[0].own.leader == a.at
    ensures var r := O.Operation(peers, m, a).value;
      && |r.slots| == 1 && r.version == m.version + 1
      && r.slots[0].own.leader == a.at && r.slots[0].own.replica != a.at
      && (r.slots[0].term == m.slots[0].term && m.slots[0].own.ready ==> r.slots[0].own.ready)
  {
  }

  // What the node that changes the topology starts from.
  lemma {:induction false} ChangeStart(s: Sys, n: NodeId)
    requires OneSlot(s) && History(s.o) && O.AtHighest(s.o, n)
    ensures var m := s.o.nodes[n];
      m.version == |s.o.hist| && m.slots[0].own.leader != m.slots[0].own.replica && O.Owners(m) == s.o.hist[|s.o.hist| - 1]
  {
    HighestIsCurrent(s, n);
    PastHolds(s, |s.o.hist| - 1);
    assert O.Recorded(s.o.hist, s.o.nodes[n]);
  }

  lemma {:induction false} TopologyKeepsHistory(peers: set<NodeId>, s: Sys, a: O.Action)
    requires OneSlot(s) && History(s.o) && O.Allowed(s.o, a) && (a.DoPromote? || a.DoAssign? || a.DoReady?)
    ensures History(O.Perform(peers, s.o, a))
  {
    var m0 := s.o.nodes[a.at];
    if O.Operation(peers, m0, a).Ok? {
      var m := O.Operation(peers, m0, a).value;
      ChangeStart(s, a.at);
      NewHead(peers, m0, a);
      O.PerformKeepsInv(peers, s.o, a);
      ExtendKeepsHistory(s.o, O.Perform(peers, s.o, a), a.at, m);
    }
  }

  lemma {:induction false} PublishKeepsHistory(peers: set<NodeId>, s: Sys, a: O.Action)
    requires OneSlot(s) && History(s.o) && O.Allowed(s.o, a) && a.Publish?
    ensures History(O.Perform(peers, s.o, a))
  {
    var o' := O.Perform(peers, s.o, a);
    O.PerformKeepsInv(peers, s.o, a);
    forall v | 0 <= v < |o'.hist|
      ensures Headed(o', v)
    {
      assert Headed(s.o, v);
    }
    forall v | 0 <= v < |o'.hist| - 1
      ensures StaysReady(o', v)
    {
      assert StaysReady(s.o, v);
    }
  }

  lemma {:induction false} LocalKeepsHistory(peers: set<NodeId>, s: Sys, a: O.Action)
    requires OneSlot(s) && History(s.o) && O.Allowed(s.o, a)
    requires a.DoCommitLeader? || a.DoCommitReplica? || a.DoSetApplied? || a.Deliver?
    ensures History(O.Perform(peers, s.o, a))
  {
    O.PerformKeepsInv(peers, s.o, a);
    var m0, o' := s.o.nodes[a.at], O.Perform(peers, s.o, a);
    if O.Operation(peers, m0, a).Ok? {
      assert O.Recorded(o'.hist, o'.nodes[a.at]);
      ReplaceKeepsHistory(s.o, a.at, O.Operation(peers, m0, a).value);
    }
  }

  // --------------------------------------------------- events keep it all

  lemma {:induction false} Replaced(o: O.Sys, n: NodeId, m: Meta)
    requires Single(o) && n in o.nodes && |m.slots| == 1
    ensures var o' := o.(nodes := o.nodes[n := m]);
      && Single(o') && Tab(o') == Tab(o)
      && Views(o') == Views(o)[n := m.slots[0]] && Versions(o') == Versions(o)[n := m.version]
  {
  }

  lemma {:induction false} Extended(o: O.Sys, n: NodeId, m: Meta)
    requires Single(o) && n in o.nodes && |m.slots| == 1
    ensures var o' := O.Sys(o.nodes[n := m], o.sent + {m}, o.hist + [O.Owners(m)]);
      && Single(o') && Tab(o') == Tab(o) + [TenureOf(m.slots[0])]
      && Views(o') == Views(o)[n := m.slots[0]] && Versions(o') == Versions(o)[n := m.version]
  {
    assert O.Owners(m)[0] == TenureOf(m.slots[0]);
  }

  // What an event needs to know of its state, and leaves behind.
  ghost predicate Good(s: Sys) {
    OneSlot(s) && Durable(CoreOf(s))
  }

  lemma {:induction false} GoodFrom(s: Sys, c: Core)
    requires OneSlot(s) && CoreOf(s) == c && Durable(c)
    ensures Good(s)
  {
  }

  lemma {:induction false} PrepareCore(s: Sys, at: NodeId, write: Write)
    requires OneSlot(s) && at in s.o.nodes && PrepareReplication(s.o.nodes[at], at, 0).Ok?
    ensures OneSlot(AfterPrepare(s, at, write)) && CoreOf(AfterPrepare(s, at, write)) == Prepared(CoreOf(s), at, write)
    ensures CoreOf(s).slots[at].own.leader == at && CoreOf(s).slots[at].own.ready
  {
  }

  lemma {:induction false} PrepareEvent(s: Sys, at: NodeId, write: Write)
    requires Good(s) && Grounded(CoreOf(s))
    requires at in s.o.nodes && at !in s.pending && PrepareReplication(s.o.nodes[at], at, 0).Ok?
    ensures Good(AfterPrepare(s, at, write))
  {
    PrepareCore(s, at, write);
    PrepareKeeps(CoreOf(s), at, write);
    GoodFrom(AfterPrepare(s, at, write), Prepared(CoreOf(s), at, write));
  }

  lemma {:induction false} StartSyncEvent(s: Sys, at: NodeId)
    requires Good(s) && Grounded(CoreOf(s)) && at in s.o.nodes && at !in s.pending
    requires SlotAt(s, at).own.leader == at && !SlotAt(s, at).own.ready
    ensures Good(AfterStart(s, at))
  {
    StartSyncKeeps(CoreOf(s), at);
  }

  lemma {:induction false} GiveUpEvent(s: Sys, at: NodeId)
    requires Good(s) && Grounded(CoreOf(s)) && at in s.pending
    requires !s.pending[at].answered || SlotAt(s, at).term != s.pending[at].term
    ensures Good(s.(pending := s.pending - {at}))
  {
    DropPendingKeeps(CoreOf(s), at);
  }

  lemma {:induction false} AbortSyncEvent(s: Sys, at: NodeId)
    requires Good(s)
    ensures Good(s.(transfer := s.transfer - {at}))
  {
    DropTransferKeeps(CoreOf(s), at);
  }

  // An action that only replaces the map of the node it runs at.
  lemma {:induction false} Locally(peers: set<NodeId>, o: O.Sys, a: O.Action)
    requires Single(o) && O.Allowed(o, a) && (a.DoCommitLeader? || a.DoCommitReplica? || a.DoSetApplied? || a.Deliver?)
    requires O.Operation(peers, o.nodes[a.at], a).Ok?
    ensures var m, o' := O.Operation(peers, o.nodes[a.at], a).value, O.Perform(peers, o, a);
      && |m.slots| == 1 && Single(o') && o'.nodes.Keys == o.nodes.Keys && Tab(o') == Tab(o)
      && Views(o') == Views(o)[a.at := m.slots[0]]
      && Versions(o') == Versions(o)[a.at := m.version]
      && (!a.Deliver? ==> Versions(o') == Versions(o))
  {
    var m := O.Operation(peers, o.nodes[a.at], a).value;
    Replaced(o, a.at, m);
  }

  // The core after such an action and a change of anything else but it.
  lemma {:induction false} LocalCore(
    peers: set<NodeId>, s: Sys, a: O.Action, data: map<NodeId, seq<Write>>, pending: map<NodeId, Pending>,
    transfer: map<NodeId, Transfer>, acked: set<Write>)
    requires OneSlot(s) && O.Allowed(s.o, a) && (a.DoCommitLeader? || a.DoCommitReplica? || a.DoSetApplied?)
    requires O.Operation(peers, s.o.nodes[a.at], a).Ok?
    requires data.Keys == s.data.Keys && pending.Keys <= s.o.nodes.Keys && transfer.Keys <= s.o.nodes.Keys
    ensures var m, t := O.Operation(peers, s.o.nodes[a.at], a).value, Sys(O.Perform(peers, s.o, a), data, pending, transfer, acked);
      && OneSlot(t) && |m.slots| == 1
      && CoreOf(t) == Core(CoreOf(s).tab, CoreOf(s).versions, CoreOf(s).slots[a.at := m.slots[0]], data, pending, transfer, acked)
  {
    Locally(peers, s.o, a);
  }

  // The slot a local action leaves at its node.
  lemma {:induction false} LocalSlot(peers: set<NodeId>, m: Meta, a: O.Action)
    requires |m.slots| == 1 && (a.DoCommitLeader? || a.DoCommitReplica? || a.DoSetApplied?)
    requires a.slot == 0 && O.Operation(peers, m, a).Ok?
    ensures var r, x := O.Operation(peers, m, a).value, m.slots[0];
      && |r.slots| == 1
      && (a.DoCommitLeader? ==> r.slots[0] == LeaderCommitted(x, a.sequence))
      && (a.DoCommitReplica? ==> r.slots[0] == ReplicaCommitted(x, a.sequence))
      && (a.DoSetApplied? ==> r.slots[0] == x.(applied := a.sequence, lastSeq := a.sequence))
  {
  }

  // The events that touch a node's map, as changes of the core.
  lemma {:induction false} RecordIsAcceptable(s: Sys, at: NodeId)
    requires OneSlot(s) && at in s.pending && !s.pending[at].answered && s.pending[at].replica in s.o.nodes
    requires Validate(s.o.nodes[s.pending[at].replica], s.pending[at].replica, RecordOf(at, s.pending[at])) == Ok(false)
    ensures Sized(CoreOf(s)) && Acceptable(CoreOf(s), at)
  {
  }

  lemma {:induction false} ApplyCore(peers: set<NodeId>, s: Sys, at: NodeId)
    requires OneSlot(s) && at in s.pending && !s.pending[at].answered && s.pending[at].replica in s.o.nodes
    requires Validate(s.o.nodes[s.pending[at].replica], s.pending[at].replica, RecordOf(at, s.pending[at])) == Ok(false)
    ensures OneSlot(AfterRecord(peers, s, at)) && Sized(CoreOf(s)) && Acceptable(CoreOf(s), at)
    ensures CoreOf(AfterRecord(peers, s, at)) == Applied(CoreOf(s), at)
  {
    var p := s.pending[at];
    var a := O.DoCommitReplica(p.replica, 0, p.term, p.sequence);
    RecordIsAcceptable(s, at);
    LocalSlot(peers, s.o.nodes[p.replica], a);
    LocalCore(peers, s, a, s.data[p.replica := s.data[p.replica] + [p.write]], s.pending[at := p.(answered := true)], s.transfer, s.acked);
  }

  lemma {:induction false} ApplyEvent(peers: set<NodeId>, s: Sys, at: NodeId)
    requires Good(s) && Grounded(CoreOf(s)) && at in s.pending && !s.pending[at].answered && s.pending[at].replica in s.o.nodes
    requires Validate(s.o.nodes[s.pending[at].replica], s.pending[at].replica, RecordOf(at, s.pending[at])) == Ok(false)
    ensures Good(AfterRecord(peers, s, at))
  {
    ApplyCore(peers, s, at);
    ApplyRecordKeeps(CoreOf(s), at);
  }

  lemma {:induction false} DuplicateEvent(peers: set<NodeId>, s: Sys, at: NodeId)
    requires Good(s) && Grounded(CoreOf(s)) && at in s.pending && !s.pending[at].answered && s.pending[at].replica in s.o.nodes
    requires Validate(s.o.nodes[s.pending[at].replica], s.pending[at].replica, RecordOf(at, s.pending[at])) == Ok(true)
    ensures Good(AfterRecord(peers, s, at))
  {
    DuplicateKeeps(CoreOf(s), at);
  }

  lemma {:induction false} FinishCore(peers: set<NodeId>, s: Sys, at: NodeId)
    requires OneSlot(s) && at in s.pending && s.pending[at].answered
    requires CommitLeader(s.o.nodes[at], at, 0, s.pending[at].term, s.pending[at].sequence).Ok?
    ensures OneSlot(AfterFinish(peers, s, at)) && Sized(CoreOf(s)) && Finishable(CoreOf(s), at)
    ensures CoreOf(AfterFinish(peers, s, at)) == Finished(CoreOf(s), at)
  {
    var p := s.pending[at];
    var a := O.DoCommitLeader(at, 0, p.term, p.sequence);
    LocalSlot(peers, s.o.nodes[at], a);
    LocalCore(peers, s, a, s.data[at := s.data[at] + [p.write]], s.pending - {at}, s.transfer, s.acked + {p.write});
  }

  lemma {:induction false} FinishEvent(peers: set<NodeId>, s: Sys, at: NodeId)
    requires Good(s) && Grounded(CoreOf(s)) && at in s.pending && s.pending[at].answered
    ensures Good(AfterFinish(peers, s, at))
  {
    var p := s.pending[at];
    if CommitLeader(s.o.nodes[at], at, 0, p.term, p.sequence).Ok? {
      FinishCore(peers, s, at);
      FinishKeeps(CoreOf(s), at);
    } else {
      StuckMeansStale(s, at);
      GiveUpEvent(s, at);
    }
  }

  // An acknowledged write fails to commit only if its term is over.
  lemma {:induction false} StuckMeansStale(s: Sys, at: NodeId)
    requires Good(s) && Grounded(CoreOf(s)) && at in s.pending
    requires CommitLeader(s.o.nodes[at], at, 0, s.pending[at].term, s.pending[at].sequence).Fail?
    ensures SlotAt(s, at).term != s.pending[at].term
  {
    var c := CoreOf(s);
    assert PendingOk(c.tab, c.data, at, c.slots[at], c.pending[at]);
    assert ViewOk(c, at) && OneOwner(c, c.versions[at] - 1, c.pending[at].version - 1);
  }

  lemma {:induction false} SnapshotCore(peers: set<NodeId>, s: Sys, at: NodeId)
    requires OneSlot(s) && at in s.transfer && !s.transfer[at].applied
    requires s.transfer[at].target in s.o.nodes && s.transfer[at].target !in s.pending
    requires var x := s.transfer[at]; var t := SlotAt(s, x.target);
      t.own.replica == x.target && t.own.leader == at && t.term == x.term
    ensures OneSlot(AfterSnapshot(peers, s, at)) && Sized(CoreOf(s)) && Restorable(CoreOf(s), at)
    ensures CoreOf(AfterSnapshot(peers, s, at)) == Restored(CoreOf(s), at)
  {
    var x := s.transfer[at];
    var a := O.DoSetApplied(x.target, 0, x.term, x.sequence);
    LocalSlot(peers, s.o.nodes[x.target], a);
    LocalCore(peers, s, a, s.data[x.target := x.data], s.pending, s.transfer[at := x.(applied := true)], s.acked);
  }

  lemma {:induction false} SnapshotEvent(peers: set<NodeId>, s: Sys, at: NodeId)
    requires Good(s) && Grounded(CoreOf(s)) && at in s.transfer && !s.transfer[at].applied
    requires s.transfer[at].target in s.o.nodes && s.transfer[at].target !in s.pending
    ensures Good(AfterSnapshot(peers, s, at))
  {
    var x := s.transfer[at];
    var t := SlotAt(s, x.target);
    if t.own.replica == x.target && t.own.leader == at && t.term == x.term {
      SnapshotCore(peers, s, at);
      RestoreKeeps(CoreOf(s), at);
    } else {
      AbortSyncEvent(s, at);
    }
  }

  // An action that makes the next version.
  lemma {:induction false} Topologically(peers: set<NodeId>, o: O.Sys, a: O.Action)
    requires Single(o) && O.Allowed(o, a) && (a.DoPromote? || a.DoAssign? || a.DoReady?)
    requires O.Operation(peers, o.nodes[a.at], a).Ok? && o.nodes[a.at].version == |o.hist|
    ensures var m, o' := O.Operation(peers, o.nodes[a.at], a).value, O.Perform(peers, o, a);
      && |m.slots| == 1 && Single(o') && o'.nodes.Keys == o.nodes.Keys
      && Tab(o') == Tab(o) + [TenureOf(m.slots[0])]
      && Views(o') == Views(o)[a.at := m.slots[0]]
      && Versions(o') == Versions(o)[a.at := |o.hist| + 1]
  {
    var m := O.Operation(peers, o.nodes[a.at], a).value;
    Extended(o, a.at, m);
  }

  // The slot a topology action leaves at its node.
  lemma {:induction false} Made(peers: set<NodeId>, m: Meta, a: O.Action)
    requires |m.slots| == 1 && O.Operation(peers, m, a).Ok? && (a.DoPromote? || a.DoAssign? || a.DoReady?)
    ensures var r := O.Operation(peers, m, a).value;
      && a.slot == 0 && |r.slots| == 1
      && (a.DoPromote? ==> r.slots[0] == Promoted(m.slots[0]))
      && (a.DoAssign? ==> r.slots[0] == Reassigned(m.slots[0], a.node))
      && (a.DoReady? ==> r.slots[0] == Readied(m.slots[0], a.sequence) && m.slots[0].own.leader == a.at && m.slots[0].term == a.term)
  {
  }

  lemma {:induction false} ChangeCore(peers: set<NodeId>, s: Sys, a: O.Action)
    requires OneSlot(s) && O.Allowed(s.o, a) && (a.DoPromote? || a.DoAssign? || a.DoReady?)
    requires O.Operation(peers, s.o.nodes[a.at], a).Ok? && s.o.nodes[a.at].version == |s.o.hist|
    ensures var t := s.(o := O.Perform(peers, s.o, a));
      && OneSlot(t) && CoreOf(t) == NewVersion(CoreOf(s), a.at, O.Operation(peers, s.o.nodes[a.at], a).value.slots[0])
  {
    Topologically(peers, s.o, a);
    CoreFrom(s, O.Perform(peers, s.o, a));
  }

  // The core after a change to the ownership state alone.
  lemma {:induction false} CoreFrom(s: Sys, o: O.Sys)
    requires OneSlot(s) && Single(o) && o.nodes.Keys == s.o.nodes.Keys
    ensures OneSlot(s.(o := o))
    ensures CoreOf(s.(o := o)) == CoreOf(s).(tab := Tab(o), slots := Views(o), versions := Versions(o))
  {
  }

  lemma {:induction false} PromoteEvent(peers: set<NodeId>, s: Sys, a: O.Action)
    requires Good(s) && Grounded(CoreOf(s)) && a.DoPromote? && O.Allowed(s.o, a) && SlotAt(s, a.at).own.ready
    requires s.o.nodes[a.at].version == |s.o.hist|
    ensures Good(s.(o := O.Perform(peers, s.o, a)))
  {
    if O.Operation(peers, s.o.nodes[a.at], a).Ok? {
      Made(peers, s.o.nodes[a.at], a);
      ChangeCore(peers, s, a);
      Current(CoreOf(s), a.at);
      PromoteKeeps(CoreOf(s), a.at);
      GoodFrom(s.(o := O.Perform(peers, s.o, a)), NewVersion(CoreOf(s), a.at, Promoted(SlotAt(s, a.at))));
    }
  }

  lemma {:induction false} AssignEvent(peers: set<NodeId>, s: Sys, a: O.Action)
    requires Good(s) && Grounded(CoreOf(s)) && a.DoAssign? && O.Allowed(s.o, a)
    requires s.o.nodes[a.at].version == |s.o.hist|
    ensures Good(s.(o := O.Perform(peers, s.o, a)))
  {
    if O.Operation(peers, s.o.nodes[a.at], a).Ok? {
      Made(peers, s.o.nodes[a.at], a);
      ChangeCore(peers, s, a);
      Current(CoreOf(s), a.at);
      AssignKeeps(CoreOf(s), a.at, a.node);
    }
  }

  lemma {:induction false} SyncCore(peers: set<NodeId>, s: Sys, at: NodeId)
    requires OneSlot(s) && at in s.transfer && O.AtHighest(s.o, at) && s.o.nodes[at].version == |s.o.hist|
    requires MarkReady(s.o.nodes[at], at, 0, s.transfer[at].term, s.transfer[at].sequence).Ok?
    ensures var t := AfterSync(peers, s, at);
      OneSlot(t) && CoreOf(t) == MadeReady(CoreOf(s), at)
  {
    var a := O.DoReady(at, 0, s.transfer[at].term, s.transfer[at].sequence);
    Made(peers, s.o.nodes[at], a);
    ChangeCore(peers, s, a);
  }

  lemma {:induction false} SyncIsReady(s: Sys, at: NodeId)
    requires OneSlot(s) && at in s.transfer && s.transfer[at].applied && s.o.nodes[at].version == |s.o.hist|
    requires MarkReady(s.o.nodes[at], at, 0, s.transfer[at].term, s.transfer[at].sequence).Ok?
    requires Sized(CoreOf(s)) && Grounded(CoreOf(s))
    ensures Synced(CoreOf(s), at)
  {
    Current(CoreOf(s), at);
  }

  lemma {:induction false} SyncRefused(peers: set<NodeId>, s: Sys, at: NodeId)
    requires OneSlot(s) && at in s.transfer && O.AtHighest(s.o, at)
    requires MarkReady(s.o.nodes[at], at, 0, s.transfer[at].term, s.transfer[at].sequence).Fail?
    ensures AfterSync(peers, s, at) == s.(transfer := s.transfer - {at})
  {
  }

  lemma {:induction false} FinishSyncEvent(peers: set<NodeId>, s: Sys, at: NodeId)
    requires Good(s) && Grounded(CoreOf(s)) && at in s.transfer && s.transfer[at].applied && O.AtHighest(s.o, at)
    requires s.o.nodes[at].version == |s.o.hist|
    ensures Good(AfterSync(peers, s, at))
  {
    if MarkReady(s.o.nodes[at], at, 0, s.transfer[at].term, s.transfer[at].sequence).Ok? {
      SyncCore(peers, s, at);
      SyncIsReady(s, at);
      ReadyKeeps(CoreOf(s), at);
      GoodFrom(AfterSync(peers, s, at), MadeReady(CoreOf(s), at));
    } else {
      SyncRefused(peers, s, at);
      AbortSyncEvent(s, at);
    }
  }

  lemma {:induction false} DeliverCore(peers: set<NodeId>, s: Sys, a: O.Action)
    requires OneSlot(s) && a.Deliver? && O.Allowed(s.o, a) && ApplyRemote(s.o.nodes[a.at], a.m).Ok?
    ensures var m := ApplyRemote(s.o.nodes[a.at], a.m).value; var t := s.(o := O.Perform(peers, s.o, a));
      && OneSlot(t) && |m.slots| == 1 && CoreOf(t) == Taken(CoreOf(s), a.at, m.version, m.slots[0])
  {
    Locally(peers, s.o, a);
  }

  // What a delivered map is, against the one it replaces.
  lemma {:induction false} DeliverFacts(o: O.Sys, m0: Meta, incoming: Meta)
    requires O.Chained(o.hist) && O.Recorded(o.hist, m0) && O.Recorded(o.hist, incoming)
    requires |m0.slots| == 1 && ApplyRemote(m0, incoming).Ok?
    ensures var m := ApplyRemote(m0, incoming).value;
      && m0.version < m.version <= |o.hist| && |m.slots| == 1 && |o.hist[m.version - 1]| == 1
      && o.hist[m.version - 1][0] == TenureOf(m.slots[0])
      && m.slots[0].term >= m0.slots[0].term
      && (m.slots[0].term == m0.slots[0].term ==> m.slots[0].applied == m0.slots[0].applied)
  {
    O.TermsGrow(o.hist, m0.version - 1, incoming.version - 1, 0);
    assert O.Owners(m0)[0] == TenureOf(m0.slots[0]) && O.Owners(incoming)[0] == TenureOf(incoming.slots[0]);
  }

  lemma {:induction false} DeliverIsTakeable(s: Sys, at: NodeId, incoming: Meta)
    requires OneSlot(s) && at in s.o.nodes && ApplyRemote(s.o.nodes[at], incoming).Ok?
    requires O.Chained(s.o.hist) && O.Recorded(s.o.hist, s.o.nodes[at]) && O.Recorded(s.o.hist, incoming)
    ensures var m := ApplyRemote(s.o.nodes[at], incoming).value;
      Sized(CoreOf(s)) && |m.slots| == 1 && Takeable(CoreOf(s), at, m.version, m.slots[0])
  {
    DeliverFacts(s.o, s.o.nodes[at], incoming);
  }

  lemma {:induction false} DeliverEvent(peers: set<NodeId>, s: Sys, a: O.Action)
    requires Good(s) && Grounded(CoreOf(s)) && a.Deliver? && O.Allowed(s.o, a)
    requires O.Chained(s.o.hist) && O.Recorded(s.o.hist, s.o.nodes[a.at]) && O.Recorded(s.o.hist, a.m)
    ensures Good(s.(o := O.Perform(peers, s.o, a)))
  {
    if ApplyRemote(s.o.nodes[a.at], a.m).Ok? {
      var m := ApplyRemote(s.o.nodes[a.at], a.m).value;
      DeliverCore(peers, s, a);
      DeliverIsTakeable(s, a.at, a.m);
      TakeKeeps(CoreOf(s), a.at, m.version, m.slots[0]);
    }
  }

  // -------------------------------------------------------------- every run

  lemma {:induction false} RecordEvent(peers: set<NodeId>, s: Sys, at: NodeId)
    requires Good(s) && Grounded(CoreOf(s)) && Enabled(s, DeliverRecord(at))
    ensures Good(AfterRecord(peers, s, at))
  {
    var p := s.pending[at];
    match Validate(s.o.nodes[p.replica], p.replica, RecordOf(at, p))
    case Fail(_) =>
      GiveUpEvent(s, at);
      assert AfterRecord(peers, s, at) == s.(pending := s.pending - {at});
    case Ok(true) => DuplicateEvent(peers, s, at);
    case Ok(false) => ApplyEvent(peers, s, at);
  }

  lemma {:induction false} NewestNode(s: Sys, n: NodeId)
    requires OneSlot(s) && History(s.o) && O.AtHighest(s.o, n)
    ensures s.o.nodes[n].version == |s.o.hist|
  {
    HighestIsCurrent(s, n);
  }

  lemma {:induction false} Delivery(o: O.Sys, n: NodeId, m: Meta)
    requires O.Inv(o) && n in o.nodes && m in o.sent
    ensures O.Chained(o.hist) && O.Recorded(o.hist, o.nodes[n]) && O.Recorded(o.hist, m)
  {
  }

  lemma {:induction false} TopologyEvent(peers: set<NodeId>, s: Sys, a: O.Action)
    requires Inv(s) && Enabled(s, Change(a)) && (a.DoPromote? || a.DoAssign?)
    ensures Good(s.(o := O.Perform(peers, s.o, a)))
  {
    HistoryGrounds(s);
    NewestNode(s, a.at);
    if a.DoPromote? {
      PromoteEvent(peers, s, a);
    } else {
      AssignEvent(peers, s, a);
    }
  }

  lemma {:induction false} BroadcastEvent(peers: set<NodeId>, s: Sys, a: O.Action)
    requires Inv(s) && Enabled(s, Change(a)) && (a.Publish? || a.Deliver?)
    ensures Good(s.(o := O.Perform(peers, s.o, a)))
  {
    if a.Publish? {
      SentIsApart(s, O.Perform(peers, s.o, a));
    } else {
      HistoryGrounds(s);
      Delivery(s.o, a.at, a.m);
      DeliverEvent(peers, s, a);
    }
  }

  // What has been sent is no part of the core.
  lemma {:induction false} SentIsApart(s: Sys, o: O.Sys)
    requires Good(s) && o.nodes == s.o.nodes && o.hist == s.o.hist
    ensures Good(s.(o := o))
  {
    assert Tab(o) == Tab(s.o) && Views(o) == Views(s.o) && Versions(o) == Versions(s.o);
  }

  // Every event leaves the core as it must be.
  lemma {:induction false} NextKeepsGood(peers: set<NodeId>, s: Sys, e: Event)
    requires Inv(s) && Enabled(s, e)
    ensures Good(Next(peers, s, e))
  {
    HistoryGrounds(s);
    match e
    case Change(a) =>
      if a.DoPromote? || a.DoAssign? {
        TopologyEvent(peers, s, a);
      } else {
        BroadcastEvent(peers, s, a);
      }
    case Prepare(at, write) => PrepareEvent(s, at, write);
    case DeliverRecord(at) => RecordEvent(peers, s, at);
    case GiveUp(at) => GiveUpEvent(s, at);
    case Finish(at) => FinishEvent(peers, s, at);
    case StartSync(at) => StartSyncEvent(s, at);
    case DeliverSnapshot(at) => SnapshotEvent(peers, s, at);
    case AbortSync(at) => AbortSyncEvent(s, at);
    case FinishSync(at) =>
      NewestNode(s, at);
      FinishSyncEvent(peers, s, at);
  }

  lemma {:induction false} ChangeKeepsHistory(peers: set<NodeId>, s: Sys, a: O.Action)
    requires OneSlot(s) && History(s.o) && O.Allowed(s.o, a)
    ensures History(O.Perform(peers, s.o, a))
  {
    if a.DoPromote? || a.DoAssign? || a.DoReady? {
      TopologyKeepsHistory(peers, s, a);
    } else if a.Publish? {
      PublishKeepsHistory(peers, s, a);
    } else {
      LocalKeepsHistory(peers, s, a);
    }
  }

  // An event is at most one action of the ownership protocol.
  lemma {:induction false} RecordKeepsHistory(peers: set<NodeId>, s: Sys, at: NodeId)
    requires OneSlot(s) && History(s.o) && Possible(s, DeliverRecord(at))
    ensures History(AfterRecord(peers, s, at).o)
  {
    var p := s.pending[at];
    ChangeKeepsHistory(peers, s, O.DoCommitReplica(p.replica, 0, p.term, p.sequence));
  }

  lemma {:induction false} FinishKeepsHistory(peers: set<NodeId>, s: Sys, at: NodeId)
    requires OneSlot(s) && History(s.o) && Possible(s, Finish(at))
    ensures History(AfterFinish(peers, s, at).o)
  {
    ChangeKeepsHistory(peers, s, O.DoCommitLeader(at, 0, s.pending[at].term, s.pending[at].sequence));
  }

  lemma {:induction false} SnapshotKeepsHistory(peers: set<NodeId>, s: Sys, at: NodeId)
    requires OneSlot(s) && History(s.o) && Possible(s, DeliverSnapshot(at))
    ensures History(AfterSnapshot(peers, s, at).o)
  {
    var x := s.transfer[at];
    ChangeKeepsHistory(peers, s, O.DoSetApplied(x.target, 0, x.term, x.sequence));
  }

  lemma {:induction false} SyncKeepsHistory(peers: set<NodeId>, s: Sys, at: NodeId)
    requires OneSlot(s) && History(s.o) && Possible(s, FinishSync(at))
    ensures History(AfterSync(peers, s, at).o)
  {
    ChangeKeepsHistory(peers, s, O.DoReady(at, 0, s.transfer[at].term, s.transfer[at].sequence));
  }

  lemma {:induction false} NextKeepsHistory(peers: set<NodeId>, s: Sys, e: Event)
    requires OneSlot(s) && History(s.o) && Possible(s, e)
    ensures History(Next(peers, s, e).o)
  {
    match e
    case Change(a) => ChangeKeepsHistory(peers, s, a);
    case DeliverRecord(at) => RecordKeepsHistory(peers, s, at);
    case Finish(at) => FinishKeepsHistory(peers, s, at);
    case DeliverSnapshot(at) => SnapshotKeepsHistory(peers, s, at);
    case FinishSync(at) => SyncKeepsHistory(peers, s, at);
    case _ =>
  }

  lemma {:induction false} NextKeepsInv(peers: set<NodeId>, s: Sys, e: Event)
    requires Inv(s) && Enabled(s, e)
    ensures Inv(Next(peers, s, e))
  {
    NextKeepsGood(peers, s, e);
    NextKeepsHistory(peers, s, e);
  }

  // How well the nodes and the network behave: as durability takes for granted,
  // save that answers get lost, or anyhow.
  datatype Conduct = Orderly | LosingAnswers | Unruly

  ghost predicate May(c: Conduct, s: Sys, e: Event)
    requires OneSlot(s)
  {
    Possible(s, e) && (Enabled(s, e) || c == Unruly || (c == LosingAnswers && e.GiveUp?))
  }

  // A run: every event is one that may happen where it does.
  ghost predicate Runs(c: Conduct, peers: set<NodeId>, s: Sys, run: seq<Event>)
    decreases |run|
  {
    run == [] || (OneSlot(s) && May(c, s, run[0]) && Runs(c, peers, Next(peers, s, run[0]), run[1..]))
  }

  ghost function After(c: Conduct, peers: set<NodeId>, s: Sys, run: seq<Event>): Sys
    requires Runs(c, peers, s, run)
    decreases |run|
  {
    if run == [] then s else After(c, peers, Next(peers, s, run[0]), run[1..])
  }

  lemma {:induction false} RunsKeepInv(peers: set<NodeId>, s: Sys, run: seq<Event>)
    requires Inv(s) && Runs(Orderly, peers, s, run)
    ensures Inv(After(Orderly, peers, s, run))
    decreases |run|
  {
    if run != [] {
      NextKeepsInv(peers, s, run[0]);
      RunsKeepInv(peers, Next(peers, s, run[0]), run[1..]);
    }
  }

  // A slot begins with an existing leader and another node as its replica,
  // both level, nothing under way and nothing acknowledged.
  ghost predicate Start(s: Sys) {
    && O.Start(s.o) && OneSlot(s) && s.pending == map[] && s.transfer == map[] && s.acked == {}
    && (forall n :: n in s.o.nodes ==> StartSlot(s.o.nodes.Keys, SlotAt(s, n)))
  }

  ghost predicate StartSlot(nodes: set<NodeId>, x: Slot) {
    && x.own.leader in nodes && x.own.leader != x.own.replica && x.applied == x.lastSeq
    && (x.own.ready ==> x.own.replica in nodes)
  }

  lemma {:induction false} StartHasHistory(s: Sys)
    requires Start(s)
    ensures History(s.o)
  {
    O.StartHasInv(s.o);
    var n :| n in s.o.nodes;
    assert O.Owners(s.o.nodes[n])[0] == TenureOf(SlotAt(s, n));
    assert s.o.hist[0][0] == TenureOf(SlotAt(s, n));
    assert Headed(s.o, 0);
  }

  lemma {:induction false} StartHasInv(s: Sys)
    requires Start(s)
    ensures Inv(s)
  {
    StartHasHistory(s);
    LeaderIsCurrent(s);
  }

  // Whatever was acknowledged in a run is held by the leader of the newest
  // version, and by its replica too whenever that replica may be promoted.
  lemma {:induction false} AcknowledgedWritesSurvive(peers: set<NodeId>, s: Sys, run: seq<Event>, w: Write)
    requires Start(s) && Runs(Orderly, peers, s, run) && w in After(Orderly, peers, s, run).acked
    ensures var t := After(Orderly, peers, s, run);
      OneSlot(t) && Safe(Now(CoreOf(t)), t.data, w)
  {
    StartHasInv(s);
    RunsKeepInv(peers, s, run);
  }
}
