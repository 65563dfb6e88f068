// When a write is acknowledged after its term has ended. The replica's promotion
// ends a term without its leader's knowledge, so a record that was answered
// before may still be finished. Nothing is taken for granted here: answers get
// lost, stray records arrive, replicas are promoted unready, and slots are
// transferred at any time.
module LateWrites {
  import opened Options
  import opened Slots
  import opened Metadata
  import O = Ownership
  import opened DurabilityCore
  import opened Durability

  // The event acknowledges a write of this node, stamped with this term.
  ghost predicate Acknowledges(s: Sys, e: Event, at: NodeId, term: nat)
    requires OneSlot(s)
  {
    && e == Finish(at) && at in s.pending && s.pending[at].answered && s.pending[at].term == term
    && CommitLeader(s.o.nodes[at], at, 0, term, s.pending[at].sequence).Ok?
  }

  // Some event of the run does.
  ghost predicate AcknowledgesIn(c: Conduct, peers: set<NodeId>, s: Sys, run: seq<Event>, at: NodeId, term: nat)
    requires Runs(c, peers, s, run)
    decreases |run|
  {
    run != [] &&
    (Acknowledges(s, run[0], at, term) || AcknowledgesIn(c, peers, Next(peers, s, run[0]), run[1..], at, term))
  }

  // Nothing else enters the acknowledged writes.
  lemma {:induction false} OnlyThenAcknowledged(peers: set<NodeId>, s: Sys, e: Event)
    requires OneSlot(s) && Possible(s, e)
    ensures Next(peers, s, e).acked ==
      if e.Finish? && Acknowledges(s, e, e.at, s.pending[e.at].term) then s.acked + {s.pending[e.at].write} else s.acked
  {
  }

  lemma {:induction false} EntersByAcknowledgement(c: Conduct, peers: set<NodeId>, s: Sys, run: seq<Event>, w: Write)
    returns (at: NodeId, term: nat)
    requires Runs(c, peers, s, run) && w !in s.acked && w in After(c, peers, s, run).acked
    ensures AcknowledgesIn(c, peers, s, run, at, term)
    decreases |run|
  {
    var e, t := run[0], Next(peers, s, run[0]);
    OnlyThenAcknowledged(peers, s, e);
    if w in t.acked {
      at, term := e.at, s.pending[e.at].term;
    } else {
      at, term := EntersByAcknowledgement(c, peers, t, run[1..], w);
    }
  }

  // ------------------------------------------------------------ one event

  // The action of the ownership protocol that an event is, if any.
  ghost function ActionOf(s: Sys, e: Event): Option<O.Action>
    requires OneSlot(s) && Possible(s, e)
  {
    match e
    case Change(a) => Some(a)
    case DeliverRecord(at) =>
      var p := s.pending[at];
      if Validate(s.o.nodes[p.replica], p.replica, RecordOf(at, p)) == Ok(false)
      then Some(O.DoCommitReplica(p.replica, 0, p.term, p.sequence)) else None
    case Finish(at) => Some(O.DoCommitLeader(at, 0, s.pending[at].term, s.pending[at].sequence))
    case DeliverSnapshot(at) =>
      var x := s.transfer[at];
      var t := SlotAt(s, x.target);
      if t.own.replica != x.target || t.own.leader != at || t.term != x.term then None
      else Some(O.DoSetApplied(x.target, 0, x.term, x.sequence))
    case FinishSync(at) => Some(O.DoReady(at, 0, s.transfer[at].term, s.transfer[at].sequence))
    case _ => None
  }

  lemma {:induction false} NextIsAction(peers: set<NodeId>, s: Sys, e: Event)
    requires OneSlot(s) && Possible(s, e)
    ensures ActionOf(s, e).Some? ==> O.Allowed(s.o, ActionOf(s, e).value)
    ensures Next(peers, s, e).o == if ActionOf(s, e).Some? then O.Perform(peers, s.o, ActionOf(s, e).value) else s.o
    ensures forall at :: ActionOf(s, e).Some? && ActionOf(s, e).value.DoCommitLeader? && ActionOf(s, e).value.at == at ==> e == Finish(at)
  {
  }

  lemma {:induction false} NextKnows(peers: set<NodeId>, s: Sys, e: Event, n: NodeId, term: nat)
    requires OneSlot(s) && O.Inv(s.o) && Possible(s, e) && O.Knows(s.o, n, 0, term)
    ensures O.Knows(Next(peers, s, e).o, n, 0, term)
  {
    NextIsAction(peers, s, e);
    if ActionOf(s, e).Some? {
      O.KnowsStep(peers, s.o, ActionOf(s, e).value, n, 0, term);
    }
  }

  // Versions are never rewritten, and nodes stay.
  lemma {:induction false} PerformAdds(peers: set<NodeId>, o: O.Sys, a: O.Action)
    requires O.Allowed(o, a)
    ensures o.hist <= O.Perform(peers, o, a).hist && O.Perform(peers, o, a).nodes.Keys == o.nodes.Keys
  {
  }

  lemma {:induction false} NextAdds(peers: set<NodeId>, s: Sys, e: Event)
    requires OneSlot(s) && Possible(s, e)
    ensures s.o.hist <= Next(peers, s, e).o.hist && Next(peers, s, e).o.nodes.Keys == s.o.nodes.Keys
  {
    NextIsAction(peers, s, e);
    if ActionOf(s, e).Some? {
      PerformAdds(peers, s.o, ActionOf(s, e).value);
    }
  }

  // What an event may do to the pending write of a node.
  lemma {:induction false} NextPending(peers: set<NodeId>, s: Sys, e: Event, at: NodeId)
    requires OneSlot(s) && Possible(s, e)
    ensures var t := Next(peers, s, e).pending;
      at in t ==>
        || (at in s.pending && t[at] == s.pending[at] && e != Finish(at))
        || (at in s.pending && t[at] == s.pending[at].(answered := true) && e == DeliverRecord(at))
        || (e.Prepare? && e.at == at && t == AfterPrepare(s, at, e.write).pending)
  {
  }

  // ------------------------------------------------ what every run keeps

  // A pending write was prepared in a recorded tenure of its leader.
  ghost predicate Framed(o: O.Sys, n: NodeId, p: Pending)
    requires Single(o)
  {
    1 <= p.version <= |o.hist| && o.hist[p.version - 1][0] == O.Tenure(Own(n, p.replica, true), p.term)
  }

  ghost predicate Kept(s: Sys) {
    OneSlot(s) && History(s.o) && forall n :: n in s.pending ==> Framed(s.o, n, s.pending[n])
  }

  lemma {:induction false} HistoryIsSingle(o: O.Sys)
    requires History(o)
    ensures Single(o)
  {
    forall n | n in o.nodes
      ensures |o.nodes[n].slots| == 1
    {
      assert O.Recorded(o.hist, o.nodes[n]);
    }
  }

  lemma {:induction false} NextKeys(peers: set<NodeId>, s: Sys, e: Event)
    requires OneSlot(s) && Possible(s, e)
    ensures var t := Next(peers, s, e);
      t.data.Keys == s.data.Keys && t.pending.Keys <= s.o.nodes.Keys && t.transfer.Keys <= s.o.nodes.Keys
  {
  }

  lemma {:induction false} NextOneSlot(peers: set<NodeId>, s: Sys, e: Event)
    requires OneSlot(s) && History(s.o) && Possible(s, e)
    ensures OneSlot(Next(peers, s, e)) && History(Next(peers, s, e).o)
  {
    NextKeepsHistory(peers, s, e);
    HistoryIsSingle(Next(peers, s, e).o);
    NextAdds(peers, s, e);
    NextKeys(peers, s, e);
  }

  lemma {:induction false} FramedStays(o: O.Sys, later: O.Sys, n: NodeId, p: Pending, q: Pending)
    requires Single(o) && Single(later) && o.hist <= later.hist && Framed(o, n, p)
    requires q == p || q == p.(answered := true)
    ensures Framed(later, n, q)
  {
  }

  lemma {:induction false} PreparedIsFramed(s: Sys, at: NodeId, write: Write)
    requires OneSlot(s) && History(s.o) && Possible(s, Prepare(at, write))
    ensures Framed(s.o, at, AfterPrepare(s, at, write).pending[at])
  {
    var m := s.o.nodes[at];
    assert O.Recorded(s.o.hist, m) && O.Owners(m)[0] == TenureOf(m.slots[0]);
  }

  lemma {:induction false} NextFramed(peers: set<NodeId>, s: Sys, e: Event, n: NodeId)
    requires Kept(s) && Possible(s, e) && OneSlot(Next(peers, s, e)) && n in Next(peers, s, e).pending
    ensures Framed(Next(peers, s, e).o, n, Next(peers, s, e).pending[n])
  {
    var t := Next(peers, s, e);
    NextPending(peers, s, e, n);
    NextAdds(peers, s, e);
    if e.Prepare? && e.at == n {
      PreparedIsFramed(s, n, e.write);
    } else {
      FramedStays(s.o, t.o, n, s.pending[n], t.pending[n]);
    }
  }

  lemma {:induction false} NextKeepsKept(peers: set<NodeId>, s: Sys, e: Event)
    requires Kept(s) && Possible(s, e)
    ensures Kept(Next(peers, s, e))
  {
    NextOneSlot(peers, s, e);
    var t := Next(peers, s, e);
    forall n | n in t.pending
      ensures Framed(t.o, n, t.pending[n])
    {
      NextFramed(peers, s, e, n);
    }
  }

  lemma {:induction false} RunsKeepKept(c: Conduct, peers: set<NodeId>, s: Sys, run: seq<Event>)
    requires Kept(s) && Runs(c, peers, s, run)
    ensures Kept(After(c, peers, s, run))
    decreases |run|
  {
    if run != [] {
      NextKeepsKept(peers, s, run[0]);
      RunsKeepKept(c, peers, Next(peers, s, run[0]), run[1..]);
    }
  }

  // ----------------------------------------------------- an ended term

  // A tenure and its leader's view of it: the leader has not heard of the end.
  ghost predicate Unaware(s: Sys, v: nat)
    requires OneSlot(s) && v < |s.o.hist|
  {
    var x := s.o.hist[v][0];
    x.own.leader in s.o.nodes && SlotAt(s, x.own.leader).term == x.term
  }

  // The leader has an answered write of the tenure, and its sequence is the one
  // the leader would commit next.
  ghost predicate Ripe(s: Sys, x: O.Tenure)
    requires OneSlot(s)
  {
    var at := x.own.leader;
    && at in s.pending && s.pending[at].answered && s.pending[at].term == x.term
    && SlotAt(s, at).lastSeq + 1 == s.pending[at].sequence
  }

  // A write of the tenure that its replica has answered while its leader has not
  // heard of the end.
  ghost predicate Outstanding(s: Sys, v: nat)
    requires OneSlot(s) && v < |s.o.hist|
  {
    Unaware(s, v) && Ripe(s, s.o.hist[v][0])
  }

  // The leader knows of the end, or the replica does and has answered nothing
  // that can still be finished.
  ghost predicate Silenced(s: Sys, x: O.Tenure)
    requires OneSlot(s)
  {
    O.Knows(s.o, x.own.leader, 0, x.term) || (O.Knows(s.o, x.own.replica, 0, x.term) && !Ripe(s, x))
  }

  lemma {:induction false} LeaderHasTerm(s: Sys, v: nat)
    requires OneSlot(s) && History(s.o) && v < |s.o.hist|
    ensures var x := s.o.hist[v][0];
      x.own.leader in s.o.nodes && SlotAt(s, x.own.leader).term >= x.term
  {
    assert Headed(s.o, v);
    var m := s.o.nodes[s.o.hist[v][0].own.leader];
    assert O.Recorded(s.o.hist, m) && O.Owners(m)[0].term == m.slots[0].term;
    O.TermsGrow(s.o.hist, v, m.version - 1, 0);
  }

  // In its own view an unaware leader leads.
  lemma {:induction false} UnawareLeads(s: Sys, v: nat)
    requires OneSlot(s) && History(s.o) && v < |s.o.hist| && Unaware(s, v)
    ensures var x := s.o.hist[v][0];
      var own := SlotAt(s, x.own.leader).own;
      own.leader == x.own.leader && own.replica == x.own.replica && own.replica != own.leader
  {
    var at := s.o.hist[v][0].own.leader;
    ViewHolds(s, at);
    OwnerHolds(s, v, s.o.nodes[at].version - 1);
    assert Headed(s.o, v);
  }

  // While some node knows of the end, an unaware leader has an older map.
  lemma {:induction false} UnawareIsBehind(s: Sys, v: nat, n: NodeId)
    requires OneSlot(s) && History(s.o) && v < |s.o.hist| && Unaware(s, v) && O.Knows(s.o, n, 0, s.o.hist[v][0].term)
    ensures !O.AtHighest(s.o, s.o.hist[v][0].own.leader)
  {
    var at := s.o.hist[v][0].own.leader;
    if O.AtHighest(s.o, at) {
      HighestIsCurrent(s, at);
      ViewHolds(s, n);
      O.TermsGrow(s.o.hist, s.o.nodes[n].version - 1, |s.o.hist| - 1, 0);
    }
  }

  // A newer map ends the term for it: it has seen all versions of its own term.
  lemma {:induction false} NewerEndsTerm(s: Sys, v: nat, m: Meta)
    requires OneSlot(s) && History(s.o) && v < |s.o.hist| && Unaware(s, v) && O.Recorded(s.o.hist, m)
    requires m.version > s.o.nodes[s.o.hist[v][0].own.leader].version
    ensures |m.slots| == 1 && m.slots[0].term > s.o.hist[v][0].term
  {
    var at := s.o.hist[v][0].own.leader;
    ViewHolds(s, at);
    UnawareLeads(s, v);
    assert O.Owners(m)[0] == TenureOf(m.slots[0]);
    assert Headed(s.o, m.version - 1);
    O.TermsGrow(s.o.hist, s.o.nodes[at].version - 1, m.version - 1, 0);
  }

  // The counter of an unaware leader moves by its own commits only.
  lemma {:induction false} CounterStays(peers: set<NodeId>, s: Sys, a: O.Action, v: nat, n: NodeId)
    requires OneSlot(s) && History(s.o) && v < |s.o.hist| && Unaware(s, v) && O.Knows(s.o, n, 0, s.o.hist[v][0].term)
    requires O.Allowed(s.o, a) && !(a.DoCommitLeader? && a.at == s.o.hist[v][0].own.leader)
    ensures var at, o := s.o.hist[v][0].own.leader, O.Perform(peers, s.o, a);
      O.Knows(o, at, 0, s.o.hist[v][0].term) ||
      (at in o.nodes && |o.nodes[at].slots| == 1 && o.nodes[at].slots[0].lastSeq == SlotAt(s, at).lastSeq)
  {
    var at := s.o.hist[v][0].own.leader;
    if a.at == at {
      UnawareLeads(s, v);
      UnawareIsBehind(s, v, n);
      if a.Deliver? && O.Operation(peers, s.o.nodes[at], a).Ok? {
        assert O.Recorded(s.o.hist, a.m);
        NewerEndsTerm(s, v, a.m);
      }
    }
  }

  // A record of the tenure goes to the tenure's replica.
  lemma {:induction false} SameReplica(s: Sys, v: nat)
    requires Kept(s) && v < |s.o.hist|
    ensures var x := s.o.hist[v][0];
      x.own.leader in s.pending && s.pending[x.own.leader].term == x.term ==> s.pending[x.own.leader].replica == x.own.replica
  {
    var x := s.o.hist[v][0];
    if x.own.leader in s.pending && s.pending[x.own.leader].term == x.term {
      assert Framed(s.o, x.own.leader, s.pending[x.own.leader]);
      OwnerHolds(s, v, s.pending[x.own.leader].version - 1);
    }
  }

  // A replica past the term refuses its record.
  lemma {:induction false} RefusedRecord(peers: set<NodeId>, s: Sys, at: NodeId)
    requires OneSlot(s) && at in s.pending && s.pending[at].replica in s.o.nodes
    requires O.Knows(s.o, s.pending[at].replica, 0, s.pending[at].term)
    ensures AfterRecord(peers, s, at) == s.(pending := s.pending - {at})
  {
  }

  lemma {:induction false} LeaderStaysSilent(peers: set<NodeId>, s: Sys, e: Event, x: O.Tenure)
    requires OneSlot(s) && O.Inv(s.o) && Possible(s, e) && O.Knows(s.o, x.own.leader, 0, x.term)
    requires OneSlot(Next(peers, s, e))
    ensures Silenced(Next(peers, s, e), x) && !Acknowledges(s, e, x.own.leader, x.term)
  {
    NextKnows(peers, s, e, x.own.leader, x.term);
  }

  // The leader's counter after an event that is not its own commit.
  lemma {:induction false} NextCounter(peers: set<NodeId>, s: Sys, e: Event, v: nat)
    requires Kept(s) && Possible(s, e) && v < |s.o.hist| && Unaware(s, v) && e != Finish(s.o.hist[v][0].own.leader)
    requires O.Knows(s.o, s.o.hist[v][0].own.replica, 0, s.o.hist[v][0].term) && OneSlot(Next(peers, s, e))
    ensures var at, t := s.o.hist[v][0].own.leader, Next(peers, s, e);
      O.Knows(t.o, at, 0, s.o.hist[v][0].term) || (at in t.o.nodes && SlotAt(t, at).lastSeq == SlotAt(s, at).lastSeq)
  {
    NextIsAction(peers, s, e);
    if ActionOf(s, e).Some? {
      CounterStays(peers, s, ActionOf(s, e).value, v, s.o.hist[v][0].own.replica);
    }
  }

  // Nothing becomes ripe once the replica knows of the end.
  lemma {:induction false} NothingRipens(peers: set<NodeId>, s: Sys, e: Event, v: nat)
    requires Kept(s) && Possible(s, e) && v < |s.o.hist| && Unaware(s, v) && !Ripe(s, s.o.hist[v][0])
    requires O.Knows(s.o, s.o.hist[v][0].own.replica, 0, s.o.hist[v][0].term) && OneSlot(Next(peers, s, e))
    ensures var t, x := Next(peers, s, e), s.o.hist[v][0];
      O.Knows(t.o, x.own.leader, 0, x.term) || !Ripe(t, x)
  {
    var t, x := Next(peers, s, e), s.o.hist[v][0];
    var at := x.own.leader;
    NextPending(peers, s, e, at);
    SameReplica(s, v);
    if Ripe(t, x) {
      if e == DeliverRecord(at) {
        RefusedRecord(peers, s, at);
      } else {
        NextCounter(peers, s, e, v);
      }
    }
  }

  lemma {:induction false} SilencedStep(peers: set<NodeId>, s: Sys, e: Event, v: nat)
    requires Kept(s) && Possible(s, e) && v < |s.o.hist| && Silenced(s, s.o.hist[v][0]) && OneSlot(Next(peers, s, e))
    ensures Silenced(Next(peers, s, e), s.o.hist[v][0])
    ensures !Acknowledges(s, e, s.o.hist[v][0].own.leader, s.o.hist[v][0].term)
  {
    var x := s.o.hist[v][0];
    if O.Knows(s.o, x.own.leader, 0, x.term) {
      LeaderStaysSilent(peers, s, e, x);
    } else {
      LeaderHasTerm(s, v);
      NextKnows(peers, s, e, x.own.replica, x.term);
      NothingRipens(peers, s, e, v);
    }
  }

  // ---------------------------------------------------------- every run

  lemma {:induction false} SilencedRun(c: Conduct, peers: set<NodeId>, s: Sys, run: seq<Event>, v: nat)
    requires Kept(s) && Runs(c, peers, s, run) && v < |s.o.hist| && Silenced(s, s.o.hist[v][0])
    ensures !AcknowledgesIn(c, peers, s, run, s.o.hist[v][0].own.leader, s.o.hist[v][0].term)
    decreases |run|
  {
    if run != [] {
      NextKeepsKept(peers, s, run[0]);
      SilencedStep(peers, s, run[0], v);
      NextAdds(peers, s, run[0]);
      SilencedRun(c, peers, Next(peers, s, run[0]), run[1..], v);
    }
  }

  ghost predicate CanAcknowledge(c: Conduct, peers: set<NodeId>, s: Sys, at: NodeId, term: nat) {
    exists run :: Runs(c, peers, s, run) && AcknowledgesIn(c, peers, s, run, at, term)
  }

  lemma {:induction false} SilencedNever(c: Conduct, peers: set<NodeId>, s: Sys, v: nat)
    requires Kept(s) && v < |s.o.hist| && Silenced(s, s.o.hist[v][0])
    ensures !CanAcknowledge(c, peers, s, s.o.hist[v][0].own.leader, s.o.hist[v][0].term)
  {
    forall run | Runs(c, peers, s, run)
      ensures !AcknowledgesIn(c, peers, s, run, s.o.hist[v][0].own.leader, s.o.hist[v][0].term)
    {
      SilencedRun(c, peers, s, run, v);
    }
  }

  // The term of version v is over.
  ghost predicate Over(s: Sys, v: nat)
    requires OneSlot(s) && v < |s.o.hist|
  {
    s.o.hist[v][0].term < s.o.hist[|s.o.hist| - 1][0].term
  }

  lemma {:induction false} EndedIsSilenced(s: Sys, v: nat)
    requires OneSlot(s) && History(s.o) && v < |s.o.hist| && Over(s, v) && !Outstanding(s, v)
    ensures Silenced(s, s.o.hist[v][0])
  {
    LeaderHasTerm(s, v);
    assert O.FencedAt(s.o, s.o.hist[v][0], 0);
  }

  lemma {:induction false} OutstandingFinishes(c: Conduct, peers: set<NodeId>, s: Sys, v: nat)
    requires OneSlot(s) && History(s.o) && v < |s.o.hist| && Outstanding(s, v)
    ensures CanAcknowledge(c, peers, s, s.o.hist[v][0].own.leader, s.o.hist[v][0].term)
  {
    var at, term := s.o.hist[v][0].own.leader, s.o.hist[v][0].term;
    UnawareLeads(s, v);
    var run := [Finish(at)];
    assert run[1..] == [] && Runs(c, peers, Next(peers, s, run[0]), []);
    assert Acknowledges(s, run[0], at, term);
    assert Runs(c, peers, s, run) && AcknowledgesIn(c, peers, s, run, at, term);
  }

  lemma {:induction false} LateWithin(c: Conduct, peers: set<NodeId>, s: Sys, v: nat)
    requires Kept(s) && v < |s.o.hist| && Over(s, v)
    ensures CanAcknowledge(c, peers, s, s.o.hist[v][0].own.leader, s.o.hist[v][0].term) <==> Outstanding(s, v)
  {
    if Outstanding(s, v) {
      OutstandingFinishes(c, peers, s, v);
    } else {
      EndedIsSilenced(s, v);
      SilencedNever(c, peers, s, v);
    }
  }

  lemma {:induction false} StartIsKept(s: Sys)
    requires Start(s)
    ensures Kept(s)
  {
    StartHasHistory(s);
  }

  // In every state of every run, however nodes and network behave, and for
  // every tenure whose term is over: a write stamped with the term can still be
  // acknowledged, now or at any later time, if and only if the replica has
  // answered it, its sequence is the leader's next, and the leader has not yet
  // heard of the end.
  lemma {:induction false} LateExactly(c: Conduct, peers: set<NodeId>, s: Sys, run: seq<Event>, t: Sys, v: nat)
    requires Start(s) && Runs(c, peers, s, run) && t == After(c, peers, s, run)
    requires OneSlot(t) && v < |t.o.hist| && Over(t, v)
    ensures CanAcknowledge(c, peers, t, t.o.hist[v][0].own.leader, t.o.hist[v][0].term) <==> Outstanding(t, v)
  {
    StartIsKept(s);
    RunsKeepKept(c, peers, s, run);
    LateWithin(c, peers, t, v);
  }

  lemma {:induction false} AssignerKnows(peers: set<NodeId>, t: Sys, a: O.Action)
    requires OneSlot(t) && History(t.o) && a.DoAssign? && O.Allowed(t.o, a) && O.Operation(peers, t.o.nodes[a.at], a).Ok?
    ensures var x, o := t.o.hist[|t.o.hist| - 1][0], O.Perform(peers, t.o, a);
      && x.own.leader == a.at && x.term == SlotAt(t, a.at).term && O.Knows(o, a.at, 0, x.term)
      && |o.hist| == |t.o.hist| + 1 && o.hist[|t.o.hist| - 1][0] == x
  {
    ChangeStart(t, a.at);
    assert O.Owners(t.o.nodes[a.at])[0] == TenureOf(SlotAt(t, a.at));
    Made(peers, t.o.nodes[a.at], a);
  }

  lemma {:induction false} AssignmentWithin(c: Conduct, peers: set<NodeId>, t: Sys, a: O.Action)
    requires Kept(t) && a.DoAssign? && O.Allowed(t.o, a) && O.Operation(peers, t.o.nodes[a.at], a).Ok?
    ensures !CanAcknowledge(c, peers, Next(peers, t, Change(a)), a.at, SlotAt(t, a.at).term)
  {
    NextKeepsKept(peers, t, Change(a));
    AssignerKnows(peers, t, a);
    SilencedNever(c, peers, Next(peers, t, Change(a)), |t.o.hist| - 1);
  }

  // A leader that assigns another replica has ended the term itself: no write
  // of the old term is acknowledged any more, whatever was under way.
  lemma {:induction false} AssignmentEndsAtOnce(c: Conduct, peers: set<NodeId>, s: Sys, run: seq<Event>, t: Sys, a: O.Action)
    requires Start(s) && Runs(c, peers, s, run) && t == After(c, peers, s, run)
    requires OneSlot(t) && a.DoAssign? && O.Allowed(t.o, a) && O.Operation(peers, t.o.nodes[a.at], a).Ok?
    ensures !CanAcknowledge(c, peers, Next(peers, t, Change(a)), a.at, SlotAt(t, a.at).term)
  {
    StartIsKept(s);
    RunsKeepKept(c, peers, s, run);
    AssignmentWithin(c, peers, t, a);
  }
}
