// Ownership across the cluster: several nodes with maps of their own, and
// metadata broadcasts that may be lost, repeated, delayed or reordered. Every
// topology change runs at a node that holds the highest version, promotions at
// the replica and assignments at the leader, as the executor arranges.
module Ownership {
  import opened Slots
  import opened Metadata

  datatype Tenure = Tenure(own: Own, term: nat)

  // The ownership part of a map.
  function Owners(m: Meta): (r: seq<Tenure>)
    ensures |r| == |m.slots|
    ensures forall i :: 0 <= i < |r| ==> r[i] == Tenure(m.slots[i].own, m.slots[i].term)
  {
    seq(|m.slots|, i requires 0 <= i < |m.slots| => Tenure(m.slots[i].own, m.slots[i].term))
  }

  // hist[v] is the table that version v + 1 stands for.
  datatype Sys = Sys(nodes: map<NodeId, Meta>, sent: set<Meta>, hist: seq<seq<Tenure>>)

  datatype Action =
    | DoPromote(at: NodeId, slot: nat)
    | DoAssign(at: NodeId, slot: nat, node: NodeId)
    | DoReady(at: NodeId, slot: nat, term: nat, sequence: nat)
    | DoCommitLeader(at: NodeId, slot: nat, term: nat, sequence: nat)
    | DoCommitReplica(at: NodeId, slot: nat, term: nat, sequence: nat)
    | DoSetApplied(at: NodeId, slot: nat, term: nat, sequence: nat)
    | Publish(at: NodeId)
    | Deliver(at: NodeId, m: Meta)

  predicate AtHighest(s: Sys, at: NodeId) {
    at in s.nodes && forall n :: n in s.nodes ==> s.nodes[n].version <= s.nodes[at].version
  }

  // The metadata operation of an action at the node it runs at.
  function Operation(peers: set<NodeId>, m: Meta, a: Action): Result<Meta> {
    match a
    case DoPromote(_, slot) => Promote(m, slot)
    case DoAssign(_, slot, node) => Assign(m, peers, slot, node)
    case DoReady(at, slot, term, sequence) => MarkReady(m, at, slot, term, sequence)
    case DoCommitLeader(at, slot, term, sequence) => CommitLeader(m, at, slot, term, sequence)
    case DoCommitReplica(at, slot, term, sequence) => CommitReplica(m, at, slot, term, sequence)
    case DoSetApplied(at, slot, term, sequence) => SetReplicaApplied(m, at, slot, term, sequence)
    case Publish(_) => Ok(m)
    case Deliver(_, incoming) => ApplyRemote(m, incoming)
  }

  // Topology changes run where the highest version is known, a promotion at
  // the slot's replica and an assignment at its leader.
  predicate Allowed(s: Sys, a: Action) {
    a.at in s.nodes &&
    match a
    case DoPromote(at, slot) => AtHighest(s, at) && slot < |s.nodes[at].slots| && s.nodes[at].slots[slot].own.replica == at
    case DoAssign(at, slot, node) => AtHighest(s, at) && slot < |s.nodes[at].slots| && s.nodes[at].slots[slot].own.leader == at
    case DoReady(at, _, _, _) => AtHighest(s, at)
    case Deliver(_, m) => m in s.sent
    case _ => true
  }

  function Perform(peers: set<NodeId>, s: Sys, a: Action): Sys
    requires Allowed(s, a)
  {
    match Operation(peers, s.nodes[a.at], a)
    case Fail(_) => s
    case Ok(m) =>
      if a.DoPromote? || a.DoAssign? || a.DoReady? then Sys(s.nodes[a.at := m], s.sent + {m}, s.hist + [Owners(m)])
      else if a.Publish? then s.(sent := s.sent + {m})
      else s.(nodes := s.nodes[a.at := m])
  }

  // -------------------------------------------------------------- invariant

  // From one version to the next a slot keeps its owners or starts a new term.
  ghost predicate Succeeds(a: seq<Tenure>, b: seq<Tenure>) {
    && |a| == |b|
    && forall i :: 0 <= i < |a| ==>
         || (b[i].term == a[i].term && b[i].own.leader == a[i].own.leader && b[i].own.replica == a[i].own.replica)
         || b[i].term == a[i].term + 1
  }

  ghost predicate Recorded(hist: seq<seq<Tenure>>, m: Meta) {
    1 <= m.version <= |hist| && Owners(m) == hist[m.version - 1] && ValidSlots(m.slots)
  }

  ghost predicate Chained(hist: seq<seq<Tenure>>) {
    forall v {:trigger Succeeds(hist[v], hist[v + 1])} :: 0 <= v < |hist| - 1 ==> Succeeds(hist[v], hist[v + 1])
  }

  // A term that has ended is known to have ended by its leader or its replica.
  ghost predicate Fenced(s: Sys) {
    forall v, i {:trigger FencedAt(s, s.hist[v][i], i)} :: 0 <= v < |s.hist| && 0 <= i < |s.hist[v]| ==> FencedAt(s, s.hist[v][i], i)
  }

  ghost predicate FencedAt(s: Sys, t: Tenure, i: nat) {
    s.hist != [] && i < |s.hist[|s.hist| - 1]| && t.term < s.hist[|s.hist| - 1][i].term ==>
      Knows(s, t.own.leader, i, t.term) || Knows(s, t.own.replica, i, t.term)
  }

  ghost predicate Knows(s: Sys, n: NodeId, i: nat, term: nat) {
    n in s.nodes && i < |s.nodes[n].slots| && s.nodes[n].slots[i].term > term
  }

  ghost predicate Inv(s: Sys) {
    && s.hist != [] && Chained(s.hist)
    && (forall n {:trigger Recorded(s.hist, s.nodes[n])} :: n in s.nodes ==> Recorded(s.hist, s.nodes[n]))
    && (forall m {:trigger Recorded(s.hist, m)} :: m in s.sent ==> Recorded(s.hist, m))
    && (exists n :: n in s.nodes && s.nodes[n].version == |s.hist|)
    && Fenced(s)
  }

  lemma {:induction false} SameLength(hist: seq<seq<Tenure>>, v: nat, w: nat)
    requires Chained(hist) && v <= w < |hist|
    ensures |hist[v]| == |hist[w]|
    decreases w - v
  {
    if v < w {
      assert Succeeds(hist[v], hist[v + 1]);
      SameLength(hist, v + 1, w);
    }
  }

  // Terms never go down as versions go up, and a term has one leader and one
  // replica.
  lemma {:induction false} TermsGrow(hist: seq<seq<Tenure>>, v: nat, w: nat, i: nat)
    requires Chained(hist) && v <= w < |hist| && i < |hist[v]|
    ensures |hist[v]| == |hist[w]|
    ensures hist[v][i].term <= hist[w][i].term
    ensures hist[v][i].term == hist[w][i].term ==>
      hist[v][i].own.leader == hist[w][i].own.leader && hist[v][i].own.replica == hist[w][i].own.replica
    decreases w - v
  {
    if v < w {
      assert Succeeds(hist[v], hist[v + 1]);
      TermsGrow(hist, v + 1, w, i);
    }
  }

  // ----------------------------------------------------------- preservation

  // Knowledge is not lost when no node's terms go down.
  ghost predicate Upward(s: Sys, t: Sys) {
    forall n, i :: n in s.nodes && 0 <= i < |s.nodes[n].slots| ==>
      n in t.nodes && i < |t.nodes[n].slots| && s.nodes[n].slots[i].term <= t.nodes[n].slots[i].term
  }

  lemma {:induction false} FencedUpward(s: Sys, t: Sys)
    requires Fenced(s) && Upward(s, t) && t.hist == s.hist
    ensures Fenced(t)
  {
    forall v, i | 0 <= v < |t.hist| && 0 <= i < |t.hist[v]|
      ensures FencedAt(t, t.hist[v][i], i)
    {
      assert FencedAt(s, s.hist[v][i], i);
    }
  }

  // Sequence counters are no part of ownership.
  lemma {:induction false} LocalKeepsOwners(peers: set<NodeId>, m: Meta, a: Action)
    requires a.DoCommitLeader? || a.DoCommitReplica? || a.DoSetApplied?
    requires Operation(peers, m, a).Ok? && ValidSlots(m.slots)
    ensures var r := Operation(peers, m, a).value;
      r.version == m.version && Owners(r) == Owners(m) && ValidSlots(r.slots)
  {
    var r := Operation(peers, m, a).value;
    assert forall i :: 0 <= i < |m.slots| ==> Owners(r)[i] == Owners(m)[i];
  }

  // A change of topology gives the next version its table.
  lemma {:induction false} TopologySucceeds(peers: set<NodeId>, m: Meta, a: Action)
    requires a.DoPromote? || a.DoAssign? || a.DoReady?
    requires Operation(peers, m, a).Ok? && ValidSlots(m.slots)
    ensures var r := Operation(peers, m, a).value;
      && r.version == m.version + 1 && Succeeds(Owners(m), Owners(r)) && ValidSlots(r.slots)
      && (forall i :: 0 <= i < |m.slots| ==> m.slots[i].term <= r.slots[i].term)
      && (forall i :: 0 <= i < |m.slots| && m.slots[i].term < r.slots[i].term ==> i == a.slot && !a.DoReady?)
  {
  }

  lemma {:induction false} TopologyKeepsFence(s: Sys, t: Sys, at: NodeId, m: Meta, slot: nat)
    requires Inv(s) && at in s.nodes && s.nodes[at].version == |s.hist|
    requires t == Sys(s.nodes[at := m], s.sent + {m}, s.hist + [Owners(m)])
    requires Succeeds(Owners(s.nodes[at]), Owners(m))
    requires forall i :: 0 <= i < |m.slots| && s.nodes[at].slots[i].term < m.slots[i].term ==>
      i == slot && at in {s.nodes[at].slots[slot].own.leader, s.nodes[at].slots[slot].own.replica}
    ensures Fenced(t)
  {
    var now := |s.hist| - 1;
    assert Recorded(s.hist, s.nodes[at]) && Owners(s.nodes[at]) == s.hist[now];
    assert Upward(s, t);
    forall v, i | 0 <= v < |t.hist| && 0 <= i < |t.hist[v]|
      ensures FencedAt(t, t.hist[v][i], i)
    {
      if v <= now {
        assert FencedAt(s, s.hist[v][i], i);
        TermsGrow(s.hist, v, now, i);
        var x := s.hist[v][i];
        if x.term == s.hist[now][i].term && x.term < m.slots[i].term {
          assert Knows(t, at, i, x.term);
        }
      }
    }
  }

  lemma {:induction false} RecordedLonger(hist: seq<seq<Tenure>>, row: seq<Tenure>, m: Meta)
    requires Recorded(hist, m)
    ensures Recorded(hist + [row], m)
  {
  }

  lemma {:induction false} ChainedLonger(hist: seq<seq<Tenure>>, row: seq<Tenure>)
    requires Chained(hist) && hist != [] && Succeeds(hist[|hist| - 1], row)
    ensures Chained(hist + [row])
  {
    var longer := hist + [row];
    forall v | 0 <= v < |longer| - 1
      ensures Succeeds(longer[v], longer[v + 1])
    {
      if v < |hist| - 1 {
        assert Succeeds(hist[v], hist[v + 1]);
      }
    }
  }

  lemma {:induction false} TopologyKeepsInv(peers: set<NodeId>, s: Sys, a: Action)
    requires Inv(s) && Allowed(s, a) && (a.DoPromote? || a.DoAssign? || a.DoReady?)
    ensures Inv(Perform(peers, s, a))
  {
    var m0 := s.nodes[a.at];
    var top :| top in s.nodes && s.nodes[top].version == |s.hist|;
    assert Recorded(s.hist, m0) && m0.version == |s.hist|;
    if Operation(peers, m0, a).Ok? {
      var m := Operation(peers, m0, a).value;
      var t := Perform(peers, s, a);
      TopologySucceeds(peers, m0, a);
      TopologyKeepsFence(s, t, a.at, m, a.slot);
      ChainedLonger(s.hist, Owners(m));
      assert t.nodes[a.at].version == |t.hist|;
      assert Recorded(t.hist, m);
      forall n | n in t.nodes
        ensures Recorded(t.hist, t.nodes[n])
      {
        if n != a.at { RecordedLonger(s.hist, Owners(m), s.nodes[n]); }
      }
      forall x | x in t.sent
        ensures Recorded(t.hist, x)
      {
        if x != m { RecordedLonger(s.hist, Owners(m), x); }
      }
    }
  }

  lemma {:induction false} ReplaceUpward(s: Sys, at: NodeId, m: Meta)
    requires Inv(s) && at in s.nodes && Recorded(s.hist, m) && s.nodes[at].version <= m.version
    ensures Upward(s, s.(nodes := s.nodes[at := m]))
  {
    var m0 := s.nodes[at];
    assert Recorded(s.hist, m0);
    SameLength(s.hist, m0.version - 1, m.version - 1);
    forall i | 0 <= i < |m0.slots|
      ensures i < |m.slots| && m0.slots[i].term <= m.slots[i].term
    {
      TermsGrow(s.hist, m0.version - 1, m.version - 1, i);
      assert Owners(m0)[i].term == m0.slots[i].term && Owners(m)[i].term == m.slots[i].term;
    }
  }

  // A node may move to any recorded map that is not older than its own.
  lemma {:induction false} ReplaceKeepsInv(s: Sys, at: NodeId, m: Meta)
    requires Inv(s) && at in s.nodes && Recorded(s.hist, m) && s.nodes[at].version <= m.version
    ensures Inv(s.(nodes := s.nodes[at := m]))
  {
    var t := s.(nodes := s.nodes[at := m]);
    ReplaceUpward(s, at, m);
    FencedUpward(s, t);
    var top :| top in s.nodes && s.nodes[top].version == |s.hist|;
    assert t.nodes[top].version == |t.hist|;
  }

  lemma {:induction false} DeliverKeepsInv(peers: set<NodeId>, s: Sys, a: Action)
    requires Inv(s) && Allowed(s, a) && a.Deliver?
    ensures Inv(Perform(peers, s, a))
  {
    var m0 := s.nodes[a.at];
    if Operation(peers, m0, a).Ok? {
      var m := Operation(peers, m0, a).value;
      assert Recorded(s.hist, a.m) && Owners(m) == Owners(a.m);
      ReplaceKeepsInv(s, a.at, m);
    }
  }

  lemma {:induction false} LocalKeepsInv(peers: set<NodeId>, s: Sys, a: Action)
    requires Inv(s) && Allowed(s, a) && (a.DoCommitLeader? || a.DoCommitReplica? || a.DoSetApplied?)
    ensures Inv(Perform(peers, s, a))
  {
    var m0 := s.nodes[a.at];
    assert Recorded(s.hist, m0);
    if Operation(peers, m0, a).Ok? {
      LocalKeepsOwners(peers, m0, a);
      ReplaceKeepsInv(s, a.at, Operation(peers, m0, a).value);
    }
  }

  lemma {:induction false} PerformKeepsInv(peers: set<NodeId>, s: Sys, a: Action)
    requires Inv(s) && Allowed(s, a)
    ensures Inv(Perform(peers, s, a))
  {
    match a
    case DoPromote(_, _) => TopologyKeepsInv(peers, s, a);
    case DoAssign(_, _, _) => TopologyKeepsInv(peers, s, a);
    case DoReady(_, _, _, _) => TopologyKeepsInv(peers, s, a);
    case Deliver(_, _) => DeliverKeepsInv(peers, s, a);
    case Publish(_) => FencedUpward(s, Perform(peers, s, a));
    case _ => LocalKeepsInv(peers, s, a);
  }

  // --------------------------------------------------------------- all runs

  // Every action of a run is one the executor and the nodes can take.
  predicate Runs(peers: set<NodeId>, s: Sys, run: seq<Action>)
    decreases |run|
  {
    run == [] || (Allowed(s, run[0]) && Runs(peers, Perform(peers, s, run[0]), run[1..]))
  }

  function After(peers: set<NodeId>, s: Sys, run: seq<Action>): Sys
    requires Runs(peers, s, run)
    decreases |run|
  {
    if run == [] then s else After(peers, Perform(peers, s, run[0]), run[1..])
  }

  lemma {:induction false} RunsKeepInv(peers: set<NodeId>, s: Sys, run: seq<Action>)
    requires Inv(s) && Runs(peers, s, run)
    ensures Inv(After(peers, s, run))
    decreases |run|
  {
    if run != [] {
      PerformKeepsInv(peers, s, run[0]);
      RunsKeepInv(peers, Perform(peers, s, run[0]), run[1..]);
    }
  }

  // A cluster starts with every node on the same first map.
  ghost predicate Start(s: Sys) {
    && s.nodes != map[] && s.sent == {}
    && exists m: Meta :: m.version == 1 && ValidSlots(m.slots) && s.hist == [Owners(m)] && forall n :: n in s.nodes ==> s.nodes[n] == m
  }

  lemma {:induction false} OneTable(t: Sys, a: NodeId, b: NodeId, i: nat)
    requires Inv(t) && a in t.nodes && b in t.nodes && i < |t.nodes[a].slots| && t.nodes[a].version <= t.nodes[b].version
    ensures var x, y := t.nodes[a], t.nodes[b];
      && |x.slots| == |y.slots|
      && (x.version == y.version ==> Owners(x) == Owners(y))
      && x.slots[i].term <= y.slots[i].term
      && (x.slots[i].term == y.slots[i].term ==>
            x.slots[i].own.leader == y.slots[i].own.leader && x.slots[i].own.replica == y.slots[i].own.replica)
  {
    var x, y := t.nodes[a], t.nodes[b];
    assert Recorded(t.hist, x) && Recorded(t.hist, y);
    TermsGrow(t.hist, x.version - 1, y.version - 1, i);
    assert Owners(x)[i] == Tenure(x.slots[i].own, x.slots[i].term);
    assert Owners(y)[i] == Tenure(y.slots[i].own, y.slots[i].term);
  }

  // In every state of every run: nodes at one version have one table, newer
  // versions have no older terms, and a term has one leader and one replica.
  lemma {:induction false} OneTablePerVersion(peers: set<NodeId>, s: Sys, run: seq<Action>, t: Sys, a: NodeId, b: NodeId, i: nat)
    requires Start(s) && Runs(peers, s, run) && t == After(peers, s, run)
    requires a in t.nodes && b in t.nodes && i < |t.nodes[a].slots| && t.nodes[a].version <= t.nodes[b].version
    ensures var x, y := t.nodes[a], t.nodes[b];
      && |x.slots| == |y.slots|
      && (x.version == y.version ==> Owners(x) == Owners(y))
      && x.slots[i].term <= y.slots[i].term
      && (x.slots[i].term == y.slots[i].term ==>
            x.slots[i].own.leader == y.slots[i].own.leader && x.slots[i].own.replica == y.slots[i].own.replica)
  {
    StartHasInv(s);
    RunsKeepInv(peers, s, run);
    OneTable(t, a, b, i);
  }

  lemma {:induction false} StartHasInv(s: Sys)
    requires Start(s)
    ensures Inv(s)
  {
    var n :| n in s.nodes;
  }

  // ------------------------------------------------------- ended terms

  // What a node has learnt of a term's end it does not forget.
  lemma {:induction false} KnowsStep(peers: set<NodeId>, s: Sys, a: Action, n: NodeId, i: nat, term: nat)
    requires Inv(s) && Allowed(s, a) && Knows(s, n, i, term)
    ensures Knows(Perform(peers, s, a), n, i, term)
  {
    var m0 := s.nodes[a.at];
    if n == a.at && Operation(peers, m0, a).Ok? && !a.Publish? {
      var m := Operation(peers, m0, a).value;
      assert Recorded(s.hist, m0);
      if a.DoPromote? || a.DoAssign? || a.DoReady? {
        TopologySucceeds(peers, m0, a);
      } else if a.Deliver? {
        assert Recorded(s.hist, a.m) && Owners(m) == Owners(a.m);
        ReplaceUpward(s, a.at, m);
      } else {
        LocalKeepsOwners(peers, m0, a);
        ReplaceUpward(s, a.at, m);
      }
    }
  }

  lemma {:induction false} KnowsLasts(peers: set<NodeId>, s: Sys, run: seq<Action>, n: NodeId, i: nat, term: nat)
    requires Inv(s) && Runs(peers, s, run) && Knows(s, n, i, term)
    ensures Knows(After(peers, s, run), n, i, term)
    decreases |run|
  {
    if run != [] {
      KnowsStep(peers, s, run[0], n, i, term);
      PerformKeepsInv(peers, s, run[0]);
      KnowsLasts(peers, Perform(peers, s, run[0]), run[1..], n, i, term);
    }
  }

  // Once any node is past a term, its leader or its replica is.
  lemma {:induction false} EndIsKnown(t: Sys, v: nat, i: nat, n: NodeId)
    requires Inv(t) && v < |t.hist| && i < |t.hist[v]| && Knows(t, n, i, t.hist[v][i].term)
    ensures var x := t.hist[v][i];
      Knows(t, x.own.leader, i, x.term) || Knows(t, x.own.replica, i, x.term)
  {
    var m := t.nodes[n];
    assert Recorded(t.hist, m) && Owners(m)[i].term == m.slots[i].term;
    TermsGrow(t.hist, m.version - 1, |t.hist| - 1, i);
    assert FencedAt(t, t.hist[v][i], i);
  }

  // From the moment any node is past a term, a write stamped with it has one
  // of its two steps closed for good: whatever happens after, in two runs that
  // need not have anything in common, the replica refuses it in the one or the
  // leader's commit refuses it in the other.
  lemma {:induction false} EndedTermsAreRefused(
    peers: set<NodeId>, s: Sys, run: seq<Action>, t: Sys, v: nat, n: NodeId, rec: Record, first: seq<Action>, second: seq<Action>)
    requires Start(s) && Runs(peers, s, run) && t == After(peers, s, run)
    requires Runs(peers, t, first) && Runs(peers, t, second)
    requires v < |t.hist| && rec.slot < |t.hist[v]|
    requires t.hist[v][rec.slot].term == rec.term && t.hist[v][rec.slot].own.leader == rec.source
    requires Knows(t, n, rec.slot, rec.term)
    ensures var replica, x, y := t.hist[v][rec.slot].own.replica, After(peers, t, first), After(peers, t, second);
      || (replica in x.nodes && Validate(x.nodes[replica], replica, rec).Fail?)
      || (rec.source in y.nodes && CommitLeader(y.nodes[rec.source], rec.source, rec.slot, rec.term, rec.sequence).Fail?)
  {
    StartHasInv(s);
    RunsKeepInv(peers, s, run);
    EndIsKnown(t, v, rec.slot, n);
    var replica := t.hist[v][rec.slot].own.replica;
    if Knows(t, replica, rec.slot, rec.term) {
      KnowsLasts(peers, t, first, replica, rec.slot, rec.term);
    } else {
      KnowsLasts(peers, t, second, rec.source, rec.slot, rec.term);
    }
  }

  // An assignment ends the term at its leader for good: over every run after it
  // the leader refuses to commit a write stamped with the former term.
  lemma {:induction false} AssignmentEndsTerm(
    peers: set<NodeId>, s: Sys, run: seq<Action>, t: Sys, a: Action, later: seq<Action>, sequence: nat)
    requires Start(s) && Runs(peers, s, run) && t == After(peers, s, run)
    requires a.DoAssign? && Allowed(t, a) && Operation(peers, t.nodes[a.at], a).Ok? && Runs(peers, Perform(peers, t, a), later)
    ensures var u := After(peers, Perform(peers, t, a), later);
      a.at in u.nodes && CommitLeader(u.nodes[a.at], a.at, a.slot, t.nodes[a.at].slots[a.slot].term, sequence).Fail?
  {
    StartHasInv(s);
    RunsKeepInv(peers, s, run);
    PerformKeepsInv(peers, t, a);
    KnowsLasts(peers, Perform(peers, t, a), later, a.at, a.slot, t.nodes[a.at].slots[a.slot].term);
  }
}
