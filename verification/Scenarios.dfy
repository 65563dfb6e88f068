// Runs of three nodes that show what durability takes for granted, and that it
// needs exactly that.
module Scenarios {
  import opened Slots
  import opened Metadata
  import O = Ownership
  import opened DurabilityCore
  import opened Durability
  import opened LateWrites
  import opened Trios

  // ------------------------------------------------------------- the maps

  const LED_BY_A := Meta(1, [Slot(0, Own(A, B, true), 1, 0, 0)])
  const ONE_WRITE := Meta(1, [Slot(0, Own(A, B, true), 1, 1, 1)])
  const C_ASSIGNED := Meta(2, [Slot(0, Own(A, C, false), 2, 0, 0)])
  const C_LEADS := Meta(3, [Slot(0, Own(C, NOBODY, false), 3, 0, 0)])
  const B_LEADS := Meta(2, [Slot(0, Own(B, NOBODY, false), 2, 0, 0)])

  // The write that B applies, and another one.
  const W: Write := 7
  const Y: Write := 8

  function Under(w: Write, answered: bool): map<NodeId, Pending> {
    map[A := Pending(w, 1, 1, 1, B, answered)]
  }

  ghost function Cluster(o: O.Sys, data: map<NodeId, seq<Write>>, pending: map<NodeId, Pending>, acked: set<Write>): Sys {
    Sys(o, data, pending, map[], acked)
  }

  // The states the runs pass through. A write w may be answered without being
  // the one that B has applied.
  ghost function Begun(): Sys {
    Cluster(O.Sys(Trio(LED_BY_A, LED_BY_A, LED_BY_A), {}, [O.Owners(LED_BY_A)]), Trio([], [], []), map[], {})
  }

  ghost function Answered(w: Write): Sys {
    Cluster(O.Sys(Trio(LED_BY_A, ONE_WRITE, LED_BY_A), {}, [O.Owners(LED_BY_A)]), Trio([], [W], []), Under(w, true), {})
  }

  ghost function Acknowledged(w: Write): Sys {
    Cluster(O.Sys(Trio(ONE_WRITE, ONE_WRITE, LED_BY_A), {}, [O.Owners(LED_BY_A)]), Trio([w], [W], []), map[], {w})
  }

  ghost function Assigned(): Sys {
    Acknowledged(W).(o := O.Sys(Trio(C_ASSIGNED, ONE_WRITE, LED_BY_A), {C_ASSIGNED}, [O.Owners(LED_BY_A), O.Owners(C_ASSIGNED)]))
  }

  ghost function Informed(): Sys {
    Acknowledged(W).(o := O.Sys(Trio(C_ASSIGNED, ONE_WRITE, C_ASSIGNED), {C_ASSIGNED}, [O.Owners(LED_BY_A), O.Owners(C_ASSIGNED)]))
  }

  ghost function TakenOver(w: Write): Sys {
    Cluster(O.Sys(Trio(LED_BY_A, B_LEADS, LED_BY_A), {B_LEADS}, [O.Owners(LED_BY_A), O.Owners(B_LEADS)]),
            Trio([], [W], []), Under(w, true), {})
  }

  ghost function FinishedLate(w: Write): Sys {
    Cluster(O.Sys(Trio(ONE_WRITE, B_LEADS, LED_BY_A), {B_LEADS}, [O.Owners(LED_BY_A), O.Owners(B_LEADS)]),
            Trio([w], [W], []), map[], {w})
  }

  // ------------------------------------------------------------- the steps

  ghost predicate Step(c: Conduct, peers: set<NodeId>, s: Sys, e: Event, t: Sys) {
    OneSlot(s) && May(c, s, e) && Next(peers, s, e) == t
  }

  lemma {:induction false} StepFirst(c: Conduct, peers: set<NodeId>, s: Sys, e: Event, t: Sys, run: seq<Event>)
    requires Step(c, peers, s, e, t) && Runs(c, peers, t, run)
    ensures Runs(c, peers, s, [e] + run) && After(c, peers, s, [e] + run) == After(c, peers, t, run)
  {
    assert ([e] + run)[0] == e && ([e] + run)[1..] == run;
  }

  lemma {:induction false} BegunStarts()
    ensures Start(Begun())
  {
    var s := Begun();
    assert A in s.o.nodes && ValidSlots(LED_BY_A.slots);
    assert O.Start(s.o);
  }

  lemma {:induction false} Prepares(c: Conduct, peers: set<NodeId>, s: Sys, w: Write)
    requires s == Begun() || s == Answered(W).(pending := map[])
    ensures Step(c, peers, s, Prepare(A, w), s.(pending := Under(w, false)))
  {
  }

  lemma {:induction false} Delivers(c: Conduct, peers: set<NodeId>)
    ensures Step(c, peers, Begun().(pending := Under(W, false)), DeliverRecord(A), Answered(W))
  {
    var s := Begun().(pending := Under(W, false));
    var t := Next(peers, s, DeliverRecord(A));
    assert t.o.nodes[B] == ONE_WRITE && t.o.nodes == Trio(LED_BY_A, ONE_WRITE, LED_BY_A);
    assert t.data[B] == [W] && t.data == Trio([], [W], []);
    assert t.pending[A] == Under(W, true)[A] && t.pending == Under(W, true);
  }

  lemma {:induction false} Finishes(c: Conduct, peers: set<NodeId>, w: Write)
    ensures Step(c, peers, Answered(w), Finish(A), Acknowledged(w))
  {
    var t := Next(peers, Answered(w), Finish(A));
    assert t.o.nodes[A] == ONE_WRITE && t.o.nodes == Trio(ONE_WRITE, ONE_WRITE, LED_BY_A);
    assert t.data[A] == [w] && t.data == Trio([w], [W], []) && t.pending == map[];
  }

  lemma {:induction false} Assigns(c: Conduct, peers: set<NodeId>)
    requires C in peers
    ensures Step(c, peers, Acknowledged(W), Change(O.DoAssign(A, 0, C)), Assigned())
  {
    var t := Next(peers, Acknowledged(W), Change(O.DoAssign(A, 0, C)));
    assert t.o.nodes[A] == C_ASSIGNED && t.o.nodes == Trio(C_ASSIGNED, ONE_WRITE, LED_BY_A);
  }

  lemma {:induction false} Informs(c: Conduct, peers: set<NodeId>)
    ensures Step(c, peers, Assigned(), Change(O.Deliver(C, C_ASSIGNED)), Informed())
  {
    var t := Next(peers, Assigned(), Change(O.Deliver(C, C_ASSIGNED)));
    assert t.o.nodes[C].slots == C_ASSIGNED.slots;
    assert t.o.nodes == Trio(C_ASSIGNED, ONE_WRITE, C_ASSIGNED);
  }

  lemma {:induction false} TakesOverMaps(peers: set<NodeId>, w: Write)
    ensures OneSlot(Answered(w)) && Enabled(Answered(w), Change(O.DoPromote(B, 0)))
    ensures O.Perform(peers, Answered(w).o, O.DoPromote(B, 0)) == TakenOver(w).o
  {
    var o := O.Perform(peers, Answered(w).o, O.DoPromote(B, 0));
    assert o.nodes[B] == B_LEADS && o.nodes == Trio(LED_BY_A, B_LEADS, LED_BY_A);
  }

  lemma {:induction false} TakesOver(c: Conduct, peers: set<NodeId>, w: Write)
    ensures Step(c, peers, Answered(w), Change(O.DoPromote(B, 0)), TakenOver(w))
  {
    TakesOverMaps(peers, w);
  }

  lemma {:induction false} FinishesLate(c: Conduct, peers: set<NodeId>, w: Write)
    ensures Step(c, peers, TakenOver(w), Finish(A), FinishedLate(w))
  {
    var t := Next(peers, TakenOver(w), Finish(A));
    assert t.o.nodes[A] == ONE_WRITE && t.o.nodes == Trio(ONE_WRITE, B_LEADS, LED_BY_A);
    assert t.data[A] == [w] && t.data == Trio([w], [W], []) && t.pending == map[];
  }

  // The answer is lost; the record of the next write has the same sequence.
  lemma {:induction false} Forgets(c: Conduct, peers: set<NodeId>)
    requires c != Orderly
    ensures Step(c, peers, Answered(W), GiveUp(A), Answered(W).(pending := map[]))
  {
    assert Next(peers, Answered(W), GiveUp(A)).pending == map[];
  }

  lemma {:induction false} TakesForDuplicate(c: Conduct, peers: set<NodeId>)
    ensures Step(c, peers, Answered(W).(pending := Under(Y, false)), DeliverRecord(A), Answered(Y))
  {
    var s := Answered(W).(pending := Under(Y, false));
    assert Validate(s.o.nodes[B], B, RecordOf(A, s.pending[A])) == Ok(true);
    var t := Next(peers, s, DeliverRecord(A));
    assert t.pending[A] == Under(Y, true)[A] && t.pending == Under(Y, true);
  }

  // --------------------------------------------------------- the runs

  // To a write that B has applied, or, once an answer has been lost, to one that
  // B only takes for it.
  lemma {:induction false} AnsweredReached(c: Conduct, peers: set<NodeId>, rest: seq<Event>, w: Write) returns (run: seq<Event>)
    requires Runs(c, peers, Answered(w), rest) && (w == W || (w == Y && c != Orderly))
    ensures Runs(c, peers, Begun(), run) && After(c, peers, Begun(), run) == After(c, peers, Answered(w), rest)
  {
    run := rest;
    if w == Y {
      TakesForDuplicate(c, peers);
      StepFirst(c, peers, Answered(W).(pending := Under(Y, false)), DeliverRecord(A), Answered(Y), run);
      run := [DeliverRecord(A)] + run;
      Prepares(c, peers, Answered(W).(pending := map[]), Y);
      StepFirst(c, peers, Answered(W).(pending := map[]), Prepare(A, Y), Answered(W).(pending := Under(Y, false)), run);
      run := [Prepare(A, Y)] + run;
      Forgets(c, peers);
      StepFirst(c, peers, Answered(W), GiveUp(A), Answered(W).(pending := map[]), run);
      run := [GiveUp(A)] + run;
    }
    Delivers(c, peers);
    StepFirst(c, peers, Begun().(pending := Under(W, false)), DeliverRecord(A), Answered(W), run);
    run := [DeliverRecord(A)] + run;
    Prepares(c, peers, Begun(), W);
    StepFirst(c, peers, Begun(), Prepare(A, W), Begun().(pending := Under(W, false)), run);
    run := [Prepare(A, W)] + run;
  }

  lemma {:induction false} AcknowledgedReached(c: Conduct, peers: set<NodeId>, rest: seq<Event>, w: Write) returns (run: seq<Event>)
    requires Runs(c, peers, Acknowledged(w), rest) && (w == W || (w == Y && c != Orderly))
    ensures Runs(c, peers, Begun(), run) && After(c, peers, Begun(), run) == After(c, peers, Acknowledged(w), rest)
  {
    Finishes(c, peers, w);
    StepFirst(c, peers, Answered(w), Finish(A), Acknowledged(w), rest);
    run := AnsweredReached(c, peers, [Finish(A)] + rest, w);
  }

  // ------------------------------------------------------- late writes

  lemma {:induction false} TakenOverReached(c: Conduct, peers: set<NodeId>, w: Write) returns (run: seq<Event>)
    requires w == W || (w == Y && c != Orderly)
    ensures Runs(c, peers, Begun(), run) && After(c, peers, Begun(), run) == TakenOver(w)
  {
    TakesOver(c, peers, w);
    StepFirst(c, peers, Answered(w), Change(O.DoPromote(B, 0)), TakenOver(w), []);
    run := AnsweredReached(c, peers, [Change(O.DoPromote(B, 0))] + [], w);
  }

  lemma {:induction false} LateByNow(c: Conduct, peers: set<NodeId>, w: Write) returns (run: seq<Event>)
    ensures OneSlot(TakenOver(w)) && Over(TakenOver(w), 0) && Runs(c, peers, TakenOver(w), run)
    ensures AcknowledgesIn(c, peers, TakenOver(w), run, A, 1) && After(c, peers, TakenOver(w), run) == FinishedLate(w)
  {
    run := [Finish(A)] + [];
    FinishesLate(c, peers, w);
    StepFirst(c, peers, TakenOver(w), Finish(A), FinishedLate(w), []);
    assert Acknowledges(TakenOver(w), run[0], A, 1);
  }

  // The first run ends a term, and the second acknowledges a write w in it.
  ghost predicate Late(c: Conduct, peers: set<NodeId>, s: Sys, before: seq<Event>, t: Sys, after: seq<Event>, u: Sys, w: Write) {
    && Start(s) && Runs(c, peers, s, before) && After(c, peers, s, before) == t
    && Runs(c, peers, t, after) && After(c, peers, t, after) == u
    && OneSlot(t) && Over(t, 0) && AcknowledgesIn(c, peers, t, after, A, t.o.hist[0][0].term) && w !in t.acked && w in u.acked
  }

  // A write acknowledged in term 1 after its replica B has been promoted into
  // term 2. It need not be one that B has: not if an answer was lost before.
  lemma {:induction false} PromotionLeavesOneLate(c: Conduct, peers: set<NodeId>, w: Write)
    returns (s: Sys, before: seq<Event>, t: Sys, after: seq<Event>, u: Sys)
    requires w == W || (w == Y && c != Orderly)
    ensures Late(c, peers, s, before, t, after, u, w) && (Holds(u.data, B, w) <==> w == W)
  {
    BegunStarts();
    s, t, u := Begun(), TakenOver(w), FinishedLate(w);
    before := TakenOverReached(c, peers, w);
    after := LateByNow(c, peers, w);
    assert t.o.hist[0][0].term == 1 && u.data[B] == [W];
  }

  // ------------------------------------------------- what survival needs

  // Every acknowledged write is one nobody can lose, in every state of every run.
  ghost predicate Survives(c: Conduct) {
    forall peers, s, run, w {:trigger Acked(c, peers, s, run, w)} ::
      Acked(c, peers, s, run, w) ==> SafeIn(After(c, peers, s, run), w)
  }

  ghost predicate Acked(c: Conduct, peers: set<NodeId>, s: Sys, run: seq<Event>, w: Write) {
    Start(s) && Runs(c, peers, s, run) && w in After(c, peers, s, run).acked
  }

  ghost predicate SafeIn(t: Sys, w: Write) {
    OneSlot(t) && Safe(Now(CoreOf(t)), t.data, w)
  }

  // B, which is ready, does not have the other write.
  lemma {:induction false} UnappliedIsUnsafe()
    ensures Y in Acknowledged(Y).acked && !SafeIn(Acknowledged(Y), Y)
  {
    var t := Acknowledged(Y);
    assert t.data[B] == [W] && t.o.hist[0][0] == O.Tenure(Own(A, B, true), 1);
    if OneSlot(t) {
      assert Now(CoreOf(t)) == t.o.hist[0][0];
    }
  }

  // Acknowledged writes survive every run if and only if the nodes and the
  // network behave as durability takes for granted; lost answers are enough to
  // break it.
  lemma {:induction false} SurvivesExactly(c: Conduct)
    ensures Survives(c) <==> c == Orderly
  {
    if c == Orderly {
      forall peers, s, run, w | Acked(c, peers, s, run, w)
        ensures SafeIn(After(c, peers, s, run), w)
      {
        AcknowledgedWritesSurvive(peers, s, run, w);
      }
    } else {
      BegunStarts();
      var run := AcknowledgedReached(c, {}, [], Y);
      UnappliedIsUnsafe();
      assert Acked(c, {}, Begun(), run, Y);
    }
  }

  // ----------------------------------------------- promotions and readiness

  // A reachable state in which a node may be promoted, ready or not.
  ghost predicate Promotable(c: Conduct, peers: set<NodeId>, s: Sys, run: seq<Event>, a: O.Action, ready: bool) {
    && Start(s) && Runs(c, peers, s, run) && OneSlot(After(c, peers, s, run))
    && a.DoPromote? && O.Allowed(After(c, peers, s, run).o, a) && SlotAt(After(c, peers, s, run), a.at).own.ready == ready
  }

  ghost predicate KeepsWrites(peers: set<NodeId>, t: Sys, a: O.Action)
    requires O.Allowed(t.o, a)
  {
    var u := t.(o := O.Perform(peers, t.o, a));
    OneSlot(u) && forall w :: w in t.acked ==> Safe(Now(CoreOf(u)), u.data, w)
  }

  // From every reachable state, promoting a node whose slot says this about
  // readiness keeps every acknowledged write.
  ghost predicate PromotionsKeep(c: Conduct, ready: bool) {
    forall peers, s, run, a {:trigger Promotable(c, peers, s, run, a, ready)} ::
      Promotable(c, peers, s, run, a, ready) ==> KeepsWrites(peers, After(c, peers, s, run), a)
  }

  lemma {:induction false} ReadyKeepsWrites(peers: set<NodeId>, s: Sys, run: seq<Event>, a: O.Action)
    requires Promotable(Orderly, peers, s, run, a, true)
    ensures KeepsWrites(peers, After(Orderly, peers, s, run), a)
  {
    var t := After(Orderly, peers, s, run);
    StartHasInv(s);
    RunsKeepInv(peers, s, run);
    NextKeepsGood(peers, t, Change(a));
  }

  // C holds the newest map, which names it as the unready replica.
  lemma {:induction false} UnreadyLoses(peers: set<NodeId>)
    ensures OneSlot(Informed()) && O.Allowed(Informed().o, O.DoPromote(C, 0)) && !SlotAt(Informed(), C).own.ready
    ensures W in Informed().acked && !KeepsWrites(peers, Informed(), O.DoPromote(C, 0))
  {
    var a := O.DoPromote(C, 0);
    var o := O.Perform(peers, Informed().o, a);
    assert o.nodes[C] == C_LEADS && o.hist[|o.hist| - 1] == O.Owners(C_LEADS) && O.Owners(C_LEADS)[0].own.leader == C;
    assert Informed().data[C] == [];
    var u := Informed().(o := o);
    if OneSlot(u) {
      assert Now(CoreOf(u)) == o.hist[|o.hist| - 1][0];
      assert !Safe(Now(CoreOf(u)), u.data, W);
    }
  }

  // B is the ready replica and has not got the write that was acknowledged.
  lemma {:induction false} ReadyLoses(peers: set<NodeId>)
    ensures OneSlot(Acknowledged(Y)) && O.Allowed(Acknowledged(Y).o, O.DoPromote(B, 0)) && SlotAt(Acknowledged(Y), B).own.ready
    ensures Y in Acknowledged(Y).acked && !KeepsWrites(peers, Acknowledged(Y), O.DoPromote(B, 0))
  {
    var o := O.Perform(peers, Acknowledged(Y).o, O.DoPromote(B, 0));
    assert o.nodes[B] == B_LEADS && o.hist[|o.hist| - 1] == O.Owners(B_LEADS) && O.Owners(B_LEADS)[0].own.leader == B;
    assert Acknowledged(Y).data[B] == [W];
    var u := Acknowledged(Y).(o := o);
    if OneSlot(u) {
      assert Now(CoreOf(u)) == o.hist[|o.hist| - 1][0];
      assert !Safe(Now(CoreOf(u)), u.data, Y);
    }
  }

  // A run of events that durability allows ends in an acknowledged write and a
  // promotion the metadata allows, after which the new leader does not hold it.
  lemma {:induction false} UnreadyPromotionLoses(c: Conduct, peers: set<NodeId>) returns (run: seq<Event>)
    requires C in peers
    ensures Promotable(c, peers, Begun(), run, O.DoPromote(C, 0), false)
    ensures W in After(c, peers, Begun(), run).acked && !KeepsWrites(peers, After(c, peers, Begun(), run), O.DoPromote(C, 0))
  {
    var inform, assign := Change(O.Deliver(C, C_ASSIGNED)), Change(O.DoAssign(A, 0, C));
    BegunStarts();
    Informs(c, peers);
    StepFirst(c, peers, Assigned(), inform, Informed(), []);
    Assigns(c, peers);
    StepFirst(c, peers, Acknowledged(W), assign, Assigned(), [inform] + []);
    run := AcknowledgedReached(c, peers, [assign] + ([inform] + []), W);
    UnreadyLoses(peers);
  }

  // The metadata operation does not ask about readiness. Promotions keep every
  // acknowledged write from every reachable state if and only if they are of
  // ready replicas and the nodes and the network behave as durability takes for
  // granted; once answers get lost, ready replicas lack writes too.
  lemma {:induction false} PromotionsKeepExactly(c: Conduct, ready: bool)
    ensures PromotionsKeep(c, ready) <==> ready && c == Orderly
  {
    if !ready {
      var run := UnreadyPromotionLoses(c, {C});
    } else if c != Orderly {
      BegunStarts();
      var run := AcknowledgedReached(c, {}, [], Y);
      ReadyLoses({});
      assert Promotable(c, {}, Begun(), run, O.DoPromote(B, 0), true);
    } else {
      forall peers, s, run, a | Promotable(c, peers, s, run, a, true)
        ensures KeepsWrites(peers, After(c, peers, s, run), a)
      {
        ReadyKeepsWrites(peers, s, run, a);
      }
    }
  }
}
