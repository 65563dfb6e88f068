// What the controller's state is after a log of commands, in terms of the log:
// every part is what the last command that concerns it has made it.
module FsmLog {
  import opened Options
  import opened Slots
  import opened Plans
  import opened Fsm

  // The last place where a mark is set.
  ghost predicate Last(marks: seq<bool>, k: nat) {
    k < |marks| && marks[k] && forall j :: k < j < |marks| ==> !marks[j]
  }

  ghost predicate Never(marks: seq<bool>) {
    forall j :: 0 <= j < |marks| ==> !marks[j]
  }

  lemma {:induction false} LastOn(marks: seq<bool>, b: bool, k: nat)
    ensures Last(marks + [b], k) <==> if b then k == |marks| else Last(marks, k)
  {
    var more := marks + [b];
    if Last(more, k) && k < |marks| {
      assert !more[|marks|];
      forall j | k < j < |marks|
        ensures !marks[j]
      {
        assert !more[j];
      }
    }
  }

  lemma {:induction false} NeverOn(marks: seq<bool>, b: bool)
    ensures Never(marks + [b]) <==> !b && Never(marks)
  {
    var more := marks + [b];
    if Never(more) {
      assert !more[|marks|];
      forall j | 0 <= j < |marks|
        ensures !marks[j]
      {
        assert !more[j];
      }
    }
  }

  // ------------------------------------------------------- the log, backwards

  lemma {:induction false} ApplyAllOn(s: State, index: nat, log: seq<Command>, c: Command)
    ensures ApplyAll(s, index, log + [c]) == ApplyLog(ApplyAll(s, index, log), index + |log|, c)
    decreases |log|
  {
    if log == [] {
      assert log + [c] == [c] && [c][1..] == [];
      assert ApplyAll(ApplyLog(s, index, c), index + 1, []) == ApplyLog(s, index, c);
    } else {
      assert (log + [c])[1..] == log[1..] + [c];
      ApplyAllOn(ApplyLog(s, index, log[0]), index + 1, log[1..], c);
    }
  }

  // The command at place k is accepted in the state it meets.
  ghost predicate Accepted(s: State, index: nat, log: seq<Command>, k: nat)
    requires k < |log|
  {
    ApplyCommand(ApplyAll(s, index, log[..k]), log[k]).Some?
  }

  // Marks for the commands that concern a part of the state.
  ghost function Observing(log: seq<Command>): seq<bool> {
    seq(|log|, k requires 0 <= k < |log| => log[k].ObserveView?)
  }

  ghost predicate Admits(c: Command, n: NodeId) {
    c.AdmitReturningNode? && c.node == n && n != NOBODY
  }

  ghost function Admitting(log: seq<Command>, n: NodeId): seq<bool> {
    seq(|log|, k requires 0 <= k < |log| => Admits(log[k], n))
  }

  ghost predicate Mentions(c: Command, n: nat) {
    c.RecordLost? && exists i :: 0 <= i < |c.slots| && c.slots[i].0 == n
  }

  ghost function Losing(log: seq<Command>, n: nat): seq<bool> {
    seq(|log|, k requires 0 <= k < |log| => Mentions(log[k], n))
  }

  ghost function Accepting(s: State, index: nat, log: seq<Command>): seq<bool> {
    seq(|log|, k requires 0 <= k < |log| => Accepted(s, index, log, k))
  }

  ghost function Completing(s: State, index: nat, log: seq<Command>): seq<bool> {
    seq(|log|, k requires 0 <= k < |log| => log[k].PlanComplete? && Accepted(s, index, log, k))
  }

  // The plan a command at place k meets.
  ghost function Met(s: State, index: nat, log: seq<Command>, k: nat): Option<Active>
    requires k <= |log|
  {
    ApplyAll(s, index, log[..k]).active
  }

  ghost predicate CompletesMoves(s: State, index: nat, log: seq<Command>, k: nat)
    requires k < |log|
  {
    log[k].PlanComplete? && Accepted(s, index, log, k)
      && Met(s, index, log, k).Some? && Met(s, index, log, k).value.plan.kind == Rebalancing
  }

  ghost function Moves(s: State, index: nat, log: seq<Command>): seq<bool> {
    seq(|log|, k requires 0 <= k < |log| => CompletesMoves(s, index, log, k))
  }

  // Only commands about a plan can be refused: about one that is not active, a
  // step it does not have, or a nameless successor; and admissions of nobody.
  lemma {:induction false} AcceptedExactly(s: State, c: Command)
    ensures ApplyCommand(s, c).Some? <==>
      && (c.StepDone? ==> s.active.Some? && s.active.value.id == c.id && 0 <= c.index < |s.active.value.plan.steps|)
      && (c.PlanComplete? ==> s.active.Some? && s.active.value.id == c.id)
      && (c.SupersedePlan? ==> s.active.Some? && s.active.value.id == c.former && c.id != [])
      && (c.AdmitReturningNode? ==> c.node != NOBODY)
  {
  }

  // ------------------------------------------------------------- the view

  ghost predicate ViewTold(s: State, log: seq<Command>, t: State) {
    && (forall k: nat :: Last(Observing(log), k) ==> t.view == log[k].view)
    && (Never(Observing(log)) ==> t.view == s.view)
  }

  lemma {:induction false} ViewOn(s: State, front: seq<Command>, u: State, index: nat, c: Command)
    requires ViewTold(s, front, u)
    ensures ViewTold(s, front + [c], ApplyLog(u, index, c))
  {
    var log := front + [c];
    assert Observing(log) == Observing(front) + [c.ObserveView?];
    NeverOn(Observing(front), c.ObserveView?);
    forall k: nat | Last(Observing(log), k)
      ensures ApplyLog(u, index, c).view == log[k].view
    {
      LastOn(Observing(front), c.ObserveView?, k);
    }
  }

  lemma {:induction false} ViewIsLast(s: State, index: nat, log: seq<Command>)
    ensures ViewTold(s, log, ApplyAll(s, index, log))
    decreases |log|
  {
    if log != [] {
      var n := |log| - 1;
      ViewIsLast(s, index, log[..n]);
      ApplyAllOn(s, index, log[..n], log[n]);
      ViewOn(s, log[..n], ApplyAll(s, index, log[..n]), index + n, log[n]);
      assert log == log[..n] + [log[n]];
    }
  }

  // ------------------------------------------------------ returning nodes

  ghost predicate AdmissionTold(s: State, log: seq<Command>, t: State, n: NodeId) {
    && (forall k: nat :: Last(Admitting(log, n), k) ==> n in t.returning && t.returning[n] == log[k].admitted)
    && (Never(Admitting(log, n)) ==> (n in t.returning <==> n in s.returning) && (n in s.returning ==> t.returning[n] == s.returning[n]))
  }

  lemma {:induction false} AdmissionStep(u: State, index: nat, c: Command, n: NodeId)
    ensures var t := ApplyLog(u, index, c);
      if Admits(c, n) then n in t.returning && t.returning[n] == c.admitted
      else (n in t.returning <==> n in u.returning) && (n in u.returning ==> t.returning[n] == u.returning[n])
  {
  }

  lemma {:induction false} AdmissionOn(s: State, front: seq<Command>, u: State, index: nat, c: Command, n: NodeId)
    requires AdmissionTold(s, front, u, n)
    ensures AdmissionTold(s, front + [c], ApplyLog(u, index, c), n)
  {
    var log, t := front + [c], ApplyLog(u, index, c);
    AdmissionStep(u, index, c, n);
    assert Admitting(log, n) == Admitting(front, n) + [Admits(c, n)];
    NeverOn(Admitting(front, n), Admits(c, n));
    forall k: nat | Last(Admitting(log, n), k)
      ensures n in t.returning && t.returning[n] == log[k].admitted
    {
      LastOn(Admitting(front, n), Admits(c, n), k);
    }
  }

  ghost predicate AdmissionTells(s: State, index: nat, log: seq<Command>, n: NodeId) {
    AdmissionTold(s, log, ApplyAll(s, index, log), n)
  }

  lemma {:induction false} AdmissionAppend(s: State, index: nat, front: seq<Command>, c: Command, n: NodeId)
    requires AdmissionTells(s, index, front, n)
    ensures AdmissionTells(s, index, front + [c], n)
  {
    ApplyAllOn(s, index, front, c);
    AdmissionOn(s, front, ApplyAll(s, index, front), index + |front|, c, n);
  }

  lemma {:induction false} AdmissionIsLast(s: State, index: nat, log: seq<Command>, n: NodeId)
    ensures AdmissionTells(s, index, log, n)
    decreases |log|
  {
    if log != [] {
      var m := |log| - 1;
      AdmissionIsLast(s, index, log[..m], n);
      AdmissionAppend(s, index, log[..m], log[m], n);
      assert log == log[..m] + [log[m]];
    }
  }

  // ---------------------------------------------------------- lost slots

  // The last record of a list for a slot.
  ghost predicate LastRecord(slots: seq<(nat, Lost)>, n: nat, i: nat) {
    i < |slots| && slots[i].0 == n && forall j :: i < j < |slots| ==> slots[j].0 != n
  }

  lemma {:induction false} MarkAllIs(m: map<nat, Lost>, slots: seq<(nat, Lost)>, n: nat)
    ensures forall i: nat :: LastRecord(slots, n, i) ==> n in MarkAll(m, slots) && MarkAll(m, slots)[n] == slots[i].1
    ensures (forall i :: 0 <= i < |slots| ==> slots[i].0 != n) ==>
      (n in MarkAll(m, slots) <==> n in m) && (n in m ==> MarkAll(m, slots)[n] == m[n])
    decreases |slots|
  {
    if slots != [] {
      var k := |slots| - 1;
      var front := slots[..k];
      MarkAllIs(m, front, n);
      forall i: nat | LastRecord(slots, n, i)
        ensures n in MarkAll(m, slots) && MarkAll(m, slots)[n] == slots[i].1
      {
        if i < k {
          assert slots[k].0 != n;
          assert LastRecord(front, n, i) by {
            assert forall j :: i < j < |front| ==> front[j] == slots[j];
          }
        }
      }
      if forall i :: 0 <= i < |slots| ==> slots[i].0 != n {
        assert slots[k].0 != n;
        assert forall i :: 0 <= i < |front| ==> front[i] == slots[i];
      }
    }
  }

  ghost predicate LossTold(s: State, log: seq<Command>, t: State, n: nat) {
    && (forall k: nat, i: nat :: Last(Losing(log, n), k) && LastRecord(log[k].slots, n, i) ==>
          n in t.unavailable && t.unavailable[n] == log[k].slots[i].1)
    && (Never(Losing(log, n)) ==> (n in t.unavailable <==> n in s.unavailable) && (n in s.unavailable ==> t.unavailable[n] == s.unavailable[n]))
  }

  lemma {:induction false} LossStep(s: State, index: nat, c: Command, n: nat)
    ensures var t := ApplyLog(s, index, c);
      && (!Mentions(c, n) ==> (n in t.unavailable <==> n in s.unavailable) && (n in s.unavailable ==> t.unavailable[n] == s.unavailable[n]))
      && (c.RecordLost? ==> forall i: nat :: LastRecord(c.slots, n, i) ==> n in t.unavailable && t.unavailable[n] == c.slots[i].1)
  {
    if c.RecordLost? {
      MarkAllIs(s.unavailable, c.slots, n);
      if !Mentions(c, n) {
        assert forall i :: 0 <= i < |c.slots| ==> c.slots[i].0 != n;
      }
    }
  }

  lemma {:induction false} LossIsLast(s: State, index: nat, log: seq<Command>, n: nat)
    ensures LossTold(s, log, ApplyAll(s, index, log), n)
    decreases |log|
  {
    if log != [] {
      var m := |log| - 1;
      var front, c := log[..m], log[m];
      var u, t := ApplyAll(s, index, front), ApplyAll(s, index, log);
      assert log == front + [c];
      LossIsLast(s, index, front, n);
      ApplyAllOn(s, index, front, c);
      LossStep(u, index + m, c, n);
      assert Losing(log, n) == Losing(front, n) + [Mentions(c, n)];
      NeverOn(Losing(front, n), Mentions(c, n));
      forall k: nat, i: nat | Last(Losing(log, n), k) && LastRecord(log[k].slots, n, i)
        ensures n in t.unavailable && t.unavailable[n] == log[k].slots[i].1
      {
        LastOn(Losing(front, n), Mentions(c, n), k);
      }
    }
  }

  // ---------------------------------------------------- accepted commands

  ghost predicate IndexTold(s: State, index: nat, log: seq<Command>, t: State) {
    && (forall k: nat :: Last(Accepting(s, index, log), k) ==> t.controlIndex == index + k)
    && (Never(Accepting(s, index, log)) ==> t == s)
  }

  lemma {:induction false} AcceptedOn(s: State, index: nat, front: seq<Command>, c: Command)
    ensures var log, b := front + [c], ApplyCommand(ApplyAll(s, index, front), c).Some?;
      && Accepting(s, index, log) == Accepting(s, index, front) + [b]
      && Completing(s, index, log) == Completing(s, index, front) + [c.PlanComplete? && b]
      && Accepted(s, index, log, |front|) == b && Met(s, index, log, |front|) == ApplyAll(s, index, front).active
  {
    var log := front + [c];
    assert log[..|front|] == front;
    assert forall k :: 0 <= k < |front| ==> log[..k] == front[..k];
  }

  lemma {:induction false} MovesOn(s: State, index: nat, front: seq<Command>, c: Command)
    ensures Moves(s, index, front + [c]) == Moves(s, index, front) + [CompletesMoves(s, index, front + [c], |front|)]
  {
    var log := front + [c];
    forall k | 0 <= k < |front|
      ensures CompletesMoves(s, index, log, k) == CompletesMoves(s, index, front, k)
    {
      assert log[..k] == front[..k];
    }
  }

  lemma {:induction false} IndexIsLast(s: State, index: nat, log: seq<Command>)
    ensures IndexTold(s, index, log, ApplyAll(s, index, log))
    decreases |log|
  {
    if log != [] {
      var n := |log| - 1;
      var front, c := log[..n], log[n];
      var b := ApplyCommand(ApplyAll(s, index, front), c).Some?;
      assert log == front + [c];
      IndexIsLast(s, index, front);
      ApplyAllOn(s, index, front, c);
      AcceptedOn(s, index, front, c);
      NeverOn(Accepting(s, index, front), b);
      forall k: nat | Last(Accepting(s, index, log), k)
        ensures ApplyAll(s, index, log).controlIndex == index + k
      {
        LastOn(Accepting(s, index, front), b, k);
      }
    }
  }

  ghost predicate CompletionTold(s: State, index: nat, log: seq<Command>, t: State) {
    && (forall k: nat :: Last(Completing(s, index, log), k) ==> t.lastCompleted == log[k].id)
    && (Never(Completing(s, index, log)) ==> t.lastCompleted == s.lastCompleted)
  }

  lemma {:induction false} CompletionIsLast(s: State, index: nat, log: seq<Command>)
    ensures CompletionTold(s, index, log, ApplyAll(s, index, log))
    decreases |log|
  {
    if log != [] {
      var n := |log| - 1;
      var front, c := log[..n], log[n];
      var b := c.PlanComplete? && ApplyCommand(ApplyAll(s, index, front), c).Some?;
      assert log == front + [c];
      CompletionIsLast(s, index, front);
      ApplyAllOn(s, index, front, c);
      AcceptedOn(s, index, front, c);
      NeverOn(Completing(s, index, front), b);
      forall k: nat | Last(Completing(s, index, log), k)
        ensures ApplyAll(s, index, log).lastCompleted == log[k].id
      {
        LastOn(Completing(s, index, front), b, k);
      }
    }
  }

  // The last rebalancing that was completed, with its epoch and its place. Places
  // in the log count from one.
  ghost predicate Indexed(s: State) {
    s.lastRebalance.Some? ==> s.lastRebalance.value.controlIndex > 0
  }

  // In terms of which commands complete a rebalancing and the plans they meet.
  ghost predicate RebalanceTold(s: State, index: nat, log: seq<Command>, moves: seq<bool>, met: seq<Option<Active>>, t: State) {
    && |moves| == |met| == |log|
    && (forall k: nat :: Last(moves, k) && log[k].PlanComplete? && met[k].Some? ==>
          t.lastRebalance == Some(Completed(log[k].id, met[k].value.plan.epoch, index + k)))
    && (Never(moves) ==> t.lastRebalance == s.lastRebalance)
  }

  // The plan that each command meets.
  ghost function AllMet(s: State, index: nat, log: seq<Command>): seq<Option<Active>> {
    seq(|log|, k requires 0 <= k < |log| => Met(s, index, log, k))
  }

  lemma {:induction false} RebalanceStep(s: State, index: nat, c: Command)
    requires Indexed(s) && index > 0
    ensures var t := ApplyLog(s, index, c);
      && Indexed(t)
      && t.lastRebalance == if c.PlanComplete? && s.active.Some? && s.active.value.id == c.id && s.active.value.plan.kind == Rebalancing
                            then Some(Completed(c.id, s.active.value.plan.epoch, index)) else s.lastRebalance
  {
  }

  lemma {:induction false} RebalanceOn(
    s: State, index: nat, front: seq<Command>, moves: seq<bool>, met: seq<Option<Active>>, u: State, c: Command, b: bool)
    requires RebalanceTold(s, index, front, moves, met, u) && Indexed(u) && index > 0
    requires b <==> c.PlanComplete? && u.active.Some? && u.active.value.id == c.id && u.active.value.plan.kind == Rebalancing
    ensures RebalanceTold(s, index, front + [c], moves + [b], met + [u.active], ApplyLog(u, index + |front|, c))
  {
    var log, t := front + [c], ApplyLog(u, index + |front|, c);
    RebalanceStep(u, index + |front|, c);
    NeverOn(moves, b);
    forall k: nat | Last(moves + [b], k) && log[k].PlanComplete? && (met + [u.active])[k].Some?
      ensures t.lastRebalance == Some(Completed(log[k].id, (met + [u.active])[k].value.plan.epoch, index + k))
    {
      LastOn(moves, b, k);
    }
  }

  lemma {:induction false} AllMetOn(s: State, index: nat, front: seq<Command>, c: Command)
    ensures AllMet(s, index, front + [c]) == AllMet(s, index, front) + [ApplyAll(s, index, front).active]
  {
    var log := front + [c];
    assert log[..|front|] == front;
    assert forall k :: 0 <= k < |front| ==> log[..k] == front[..k];
  }

  lemma {:induction false} MoveIs(s: State, index: nat, front: seq<Command>, c: Command)
    ensures var u := ApplyAll(s, index, front);
      CompletesMoves(s, index, front + [c], |front|) <==>
        c.PlanComplete? && u.active.Some? && u.active.value.id == c.id && u.active.value.plan.kind == Rebalancing
  {
    assert (front + [c])[..|front|] == front;
  }

  ghost predicate RebalanceTells(s: State, index: nat, log: seq<Command>) {
    RebalanceTold(s, index, log, Moves(s, index, log), AllMet(s, index, log), ApplyAll(s, index, log))
  }

  lemma {:induction false} IndexedStays(s: State, index: nat, log: seq<Command>)
    requires Indexed(s) && index > 0
    ensures Indexed(ApplyAll(s, index, log))
    decreases |log|
  {
    if log != [] {
      RebalanceStep(s, index, log[0]);
      IndexedStays(ApplyLog(s, index, log[0]), index + 1, log[1..]);
    }
  }

  lemma {:induction false} RebalanceAppend(s: State, index: nat, front: seq<Command>, c: Command)
    requires Indexed(s) && index > 0 && RebalanceTells(s, index, front)
    ensures RebalanceTells(s, index, front + [c])
  {
    var u := ApplyAll(s, index, front);
    IndexedStays(s, index, front);
    ApplyAllOn(s, index, front, c);
    MoveIs(s, index, front, c);
    MovesOn(s, index, front, c);
    AllMetOn(s, index, front, c);
    RebalanceOn(s, index, front, Moves(s, index, front), AllMet(s, index, front), u, c, CompletesMoves(s, index, front + [c], |front|));
  }

  lemma {:induction false} RebalanceIsLast(s: State, index: nat, log: seq<Command>)
    requires Indexed(s) && index > 0
    ensures RebalanceTells(s, index, log)
    decreases |log|
  {
    if log == [] {
      assert ApplyAll(s, index, log) == s && Moves(s, index, log) == [] && AllMet(s, index, log) == [];
    } else {
      var n := |log| - 1;
      RebalanceIsLast(s, index, log[..n]);
      RebalanceAppend(s, index, log[..n], log[n]);
      assert log == log[..n] + [log[n]];
    }
  }

  // ------------------------------------------------------ the active plan

  // A plan that was proposed, or took the place of another, stays until the next
  // is, or until it is completed, and gains exactly the steps reported since.
  lemma {:induction false} ProposedIsActive(s: State, index: nat, log: seq<Command>, k: nat, id: PlanId, plan: Plan, done: set<nat>)
    requires k < |log| && Accepted(s, index, log, k)
    requires log[k] == ProposePlan(id, plan, done) || (log[k].SupersedePlan? && log[k] == SupersedePlan(log[k].former, id, plan, done))
    requires forall c :: c in log[k + 1..] ==> Spares(id, c)
    ensures var a := Active(id, plan, done);
      ApplyAll(s, index, log).active == Some(a.(done := done + Reported(a, log[k + 1..])))
  {
    var u := ApplyAll(s, index, log[..k]);
    var t := ApplyLog(u, index + k, log[k]);
    Resumed(s, index, log, k);
    assert t.active == Some(Active(id, plan, done));
    PlanSurvivesLog(t, index + k + 1, log[k + 1..]);
  }

  // And once it is completed there is none until another is proposed.
  lemma {:induction false} CompletedIsGone(s: State, index: nat, log: seq<Command>, k: nat)
    requires k < |log| && log[k].PlanComplete? && Accepted(s, index, log, k)
    requires forall c :: c in log[k + 1..] ==> !c.ProposePlan?
    ensures ApplyAll(s, index, log).active.None?
  {
    var u := ApplyAll(s, index, log[..k]);
    Resumed(s, index, log, k);
    StaysGone(ApplyLog(u, index + k, log[k]), index + k + 1, log[k + 1..]);
  }

  lemma {:induction false} StaysGone(s: State, index: nat, log: seq<Command>)
    requires s.active.None? && forall c :: c in log ==> !c.ProposePlan?
    ensures ApplyAll(s, index, log).active.None?
    decreases |log|
  {
    if log != [] {
      assert log[0] in log;
      StaysGone(ApplyLog(s, index, log[0]), index + 1, log[1..]);
    }
  }

  lemma {:induction false} Resumed(s: State, index: nat, log: seq<Command>, k: nat)
    requires k < |log|
    ensures ApplyAll(s, index, log) == ApplyAll(ApplyLog(ApplyAll(s, index, log[..k]), index + k, log[k]), index + k + 1, log[k + 1..])
    decreases |log|
  {
    if k > 0 {
      Resumed(ApplyLog(s, index, log[0]), index + 1, log[1..], k - 1);
      assert log[1..][..k - 1] == log[1..k] && log[..k][1..] == log[1..k] && log[1..][k..] == log[k + 1..];
    } else {
      assert log[..0] == [] && ApplyAll(s, index, log[..0]) == s;
    }
  }

  // ----------------------------------------------------------- the status

  // The first step of a plan that is not done.
  ghost predicate FirstOpen(a: Active, i: nat) {
    i < |a.plan.steps| && i !in a.done && forall j: nat :: j < i ==> j in a.done
  }

  function StatusOf(k: StepKind): Status {
    match k
    case Promote => Promoting
    case AssignReplica => Repairing
    case Sync => Repairing
    case MarkUnavailable => PotentialDataLoss
  }

  // With a rebalancing under way the status says so; with a recovery, what its
  // first open step is about.
  ghost predicate StatusTells(s: State) {
    s.active.Some? ==>
      var a := s.active.value;
      if a.plan.kind == Rebalancing then s.status == Moving
      else forall i: nat :: FirstOpen(a, i) ==> s.status == StatusOf(a.plan.steps[i].kind)
  }

  lemma {:induction false} PlanStatusTells(a: Active, from: nat, otherwise: Status, i: nat)
    requires a.plan.kind != Rebalancing && FirstOpen(a, i) && from <= i
    ensures PlanStatus(a, from, otherwise) == StatusOf(a.plan.steps[i].kind)
    decreases i - from
  {
    if from < i {
      assert from in a.done;
      PlanStatusTells(a, from + 1, otherwise, i);
    }
  }

  lemma {:induction false} WithStatusTells(s: State)
    ensures StatusTells(WithStatus(s))
  {
    if s.active.Some? && s.active.value.plan.kind != Rebalancing {
      var a := s.active.value;
      forall i: nat | FirstOpen(a, i)
        ensures WithStatus(s).status == StatusOf(a.plan.steps[i].kind)
      {
        PlanStatusTells(a, 0, s.status, i);
      }
    }
  }

  lemma {:induction false} StatusStep(s: State, index: nat, c: Command)
    requires StatusTells(s)
    ensures StatusTells(ApplyLog(s, index, c))
  {
    var t := ApplyCommand(s, c);
    match c
    case ObserveView(view, status) => WithStatusTells(t.value.(controlIndex := index));
    case ProposePlan(id, plan, done) => WithStatusTells(s.(active := Some(Active(id, plan, done))));
    case StepDone(id, i) =>
      if t.Some? {
        WithStatusTells(s.(active := Some(s.active.value.(done := s.active.value.done + {i}))));
      }
    case SupersedePlan(former, id, plan, done) => WithStatusTells(s.(active := Some(Active(id, plan, done))));
    case _ =>
  }

  lemma {:induction false} StatusIsTold(s: State, index: nat, log: seq<Command>)
    requires StatusTells(s)
    ensures StatusTells(ApplyAll(s, index, log))
    decreases |log|
  {
    if log != [] {
      StatusStep(s, index, log[0]);
      StatusIsTold(ApplyLog(s, index, log[0]), index + 1, log[1..]);
    }
  }

  // Without an active plan the status is the one last observed, or what the last
  // plan left it at.
  lemma {:induction false} ObservedStatus(s: State, index: nat, c: Command)
    requires c.ObserveView? && s.active.None?
    ensures ApplyLog(s, index, c).status == c.status
  {
  }
}
