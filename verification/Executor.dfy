// The plan executor: it runs the steps of the active plan in order, skips a
// step whose postcondition already holds, and can be interrupted anywhere.
module Executor {
  import opened Slots
  import opened Plans
  import opened Views
  import opened Fsm

  // The converged ownership table the nodes report.
  type Rows = map<nat, Own>

  ghost predicate WellRows(rows: Rows) {
    forall n :: n in rows ==> rows[n].leader != rows[n].replica
  }

  // What the executor looks for before and after a call.
  predicate Postcondition(rows: Rows, s: Step) {
    s.slot in rows &&
    var o := rows[s.slot];
    match s.kind
    case Promote => o.leader == s.target && o.replica == NOBODY && !o.ready
    case AssignReplica => o.replica == s.target && !o.ready && o.leader != s.target
    case Sync => o.replica == s.target && o.ready && o.leader != s.target
    case MarkUnavailable => false
  }

  // Whether a call that arrives changes the metadata, and how.
  predicate Succeeds(peers: set<NodeId>, rows: Rows, s: Step) {
    s.slot in rows &&
    var o := rows[s.slot];
    match s.kind
    case Promote => o.replica != NOBODY
    case AssignReplica => o.leader != NOBODY && s.target in peers && s.target != o.leader
    case Sync => o.leader != NOBODY && s.target == o.replica && s.target != NOBODY
    case MarkUnavailable => false
  }

  function Effect(rows: Rows, s: Step): Rows
    requires s.slot in rows
  {
    var o := rows[s.slot];
    match s.kind
    case Promote => rows[s.slot := PromoteOwn(o)]
    case AssignReplica => rows[s.slot := AssignOwn(o, s.target)]
    case Sync => rows[s.slot := ReadyOwn(o)]
    case MarkUnavailable => rows
  }

  // A step run without interruption.
  function RunStep(peers: set<NodeId>, rows: Rows, s: Step): Rows {
    if !Postcondition(rows, s) && Succeeds(peers, rows, s) then Effect(rows, s) else rows
  }

  // A plan run from start to end without interruption.
  function StraightLine(peers: set<NodeId>, rows: Rows, steps: seq<Step>): Rows {
    if steps == [] then rows
    else RunStep(peers, StraightLine(peers, rows, steps[..|steps| - 1]), steps[|steps| - 1])
  }

  // A call that has taken effect cannot take effect again: either the step's
  // postcondition now holds, or there is no replica left to promote.
  lemma EffectIsFinal(peers: set<NodeId>, rows: Rows, s: Step)
    requires WellRows(rows) && Succeeds(peers, rows, s)
    ensures WellRows(Effect(rows, s))
    ensures Postcondition(Effect(rows, s), s) || !Succeeds(peers, Effect(rows, s), s)
  {
  }

  lemma RunStepIdempotent(peers: set<NodeId>, rows: Rows, s: Step)
    requires WellRows(rows)
    ensures WellRows(RunStep(peers, rows, s))
    ensures RunStep(peers, RunStep(peers, rows, s), s) == RunStep(peers, rows, s)
  {
    if !Postcondition(rows, s) && Succeeds(peers, rows, s) {
      EffectIsFinal(peers, rows, s);
    }
  }

  lemma {:induction false} StraightLineWell(peers: set<NodeId>, rows: Rows, steps: seq<Step>)
    requires WellRows(rows)
    ensures WellRows(StraightLine(peers, rows, steps))
  {
    if steps != [] {
      StraightLineWell(peers, rows, steps[..|steps| - 1]);
      RunStepIdempotent(peers, StraightLine(peers, rows, steps[..|steps| - 1]), steps[|steps| - 1]);
    }
  }

  // How one attempt at a step goes wrong, if it does, and what others get
  // committed before it.
  datatype Commit = Committed | NotCommitted | CommittedReplyLost

  datatype Luck = Luck(
    meanwhile: seq<Command>, reachable: bool, delivered: bool, verified: bool, recorded: Commit, marked: Commit)

  // Commands of others: observed views, returning nodes, lost slots, and what
  // belongs to other plans.
  predicate Foreign(id: PlanId, log: seq<Command>) {
    forall c :: c in log ==> Spares(id, c) && !(c.StepDone? && c.id == id)
  }

  predicate Lucky(l: Luck) {
    l.reachable && l.delivered && l.verified && l.recorded == Committed && l.marked == Committed
  }

  // One pass over a plan: what others get committed before it, and how it goes.
  datatype Pass = Pass(before: seq<Command>, luck: nat -> Luck, completion: Commit)

  ghost predicate Apart(id: PlanId, p: Pass) {
    Foreign(id, p.before) && forall i :: Foreign(id, p.luck(i).meanwhile)
  }

  // Every call of an uninterrupted run leaves what the executor looks for.
  ghost predicate Achievable(peers: set<NodeId>, start: Rows, steps: seq<Step>) {
    forall i :: 0 <= i < |steps| && steps[i].kind != MarkUnavailable ==>
      Postcondition(StraightLine(peers, start, steps[..i + 1]), steps[i])
  }

  // ---------------------------------------------- where a resumed run stands

  // k steps are marked done; the rows are those of an uninterrupted run of the
  // k steps, or of one more whose call took effect before it could be marked.
  // The calls that took effect belong to different steps, in plan order.
  ghost predicate Resumable(peers: set<NodeId>, start: Rows, steps: seq<Step>, done: set<nat>, rows: Rows, effects: seq<nat>, k: nat) {
    && k <= |steps| && WellRows(start)
    && (forall i: nat :: i in done <==> i < k)
    && (forall i, j :: 0 <= i < j < |effects| ==> effects[i] < effects[j])
    && (|| (rows == StraightLine(peers, start, steps[..k]) && (forall i :: 0 <= i < |effects| ==> effects[i] < k))
        || (k < |steps| && rows == StraightLine(peers, start, steps[..k + 1])
            && (Postcondition(rows, steps[k]) || !Succeeds(peers, rows, steps[k]))
            && (forall i :: 0 <= i < |effects| ==> effects[i] <= k)))
  }

  // The rows of a step that has been run, and the calls made so far.
  ghost predicate Reached(peers: set<NodeId>, start: Rows, steps: seq<Step>, rows: Rows, effects: seq<nat>, k: nat) {
    && k <= |steps| && rows == StraightLine(peers, start, steps[..k])
    && (forall i, j :: 0 <= i < j < |effects| ==> effects[i] < effects[j])
    && (forall i :: 0 <= i < |effects| ==> effects[i] < k)
  }

  lemma StraightLineNext(peers: set<NodeId>, start: Rows, steps: seq<Step>, k: nat)
    requires k < |steps|
    ensures StraightLine(peers, start, steps[..k + 1]) == RunStep(peers, StraightLine(peers, start, steps[..k]), steps[k])
  {
    assert steps[..k + 1][..k] == steps[..k];
  }

  // Who owned a lost slot when it was last observed.
  function UnavailableRecord(dead: seq<NodeId>, slots: seq<SlotView>, number: nat): Lost {
    if slots == [] then Lost(NOBODY, NOBODY, dead)
    else if slots[0].number == number then Lost(slots[0].own.leader, slots[0].own.replica, dead)
    else UnavailableRecord(dead, slots[1..], number)
  }

  // The record names the owners of the first observed slot with the number, or
  // nobody.
  lemma {:induction false} RecordNamesOwners(dead: seq<NodeId>, slots: seq<SlotView>, number: nat, i: nat)
    ensures i < |slots| && slots[i].number == number && (forall j :: 0 <= j < i ==> slots[j].number != number) ==>
      UnavailableRecord(dead, slots, number) == Lost(slots[i].own.leader, slots[i].own.replica, dead)
    ensures (forall j :: 0 <= j < |slots| ==> slots[j].number != number) ==> UnavailableRecord(dead, slots, number) == Lost(NOBODY, NOBODY, dead)
    decreases |slots|
  {
    if slots != [] && slots[0].number != number {
      RecordNamesOwners(dead, slots[1..], number, if i > 0 then i - 1 else 0);
      if i < |slots| && (forall j :: 0 <= j < i ==> slots[j].number != number) {
        assert forall j :: 0 <= j < i - 1 ==> slots[1..][j].number == slots[j + 1].number;
      }
      if forall j :: 0 <= j < |slots| ==> slots[j].number != number {
        assert forall j :: 0 <= j < |slots| - 1 ==> slots[1..][j].number == slots[j + 1].number;
      }
    }
  }

  class Executor {
    const peers: set<NodeId>
    var state: State
    var index: nat
    var rows: Rows
    ghost var effects: seq<nat>

    constructor (peers: set<NodeId>, state: State, index: nat, rows: Rows)
      ensures this.peers == peers && this.state == state && this.index == index && this.rows == rows && effects == []
    {
      this.peers, this.state, this.index, this.rows := peers, state, index, rows;
      effects := [];
    }

    // A plan is under way, started on the given rows, with k steps done.
    ghost predicate Running(id: PlanId, plan: Plan, start: Rows, k: nat)
      reads this
    {
      && state.active.Some? && state.active.value.id == id && state.active.value.plan == plan
      && Resumable(peers, start, plan.steps, state.active.value.done, rows, effects, k)
      && (forall i :: 0 <= i < k && plan.steps[i].kind == MarkUnavailable ==> plan.steps[i].slot in state.unavailable)
    }

    // Proposes a command: the reply may be lost after it has been committed.
    method Propose(c: Command, luck: Commit) returns (ok: bool)
      modifies this`state, this`index
      ensures state == if luck == NotCommitted then old(state) else ApplyLog(old(state), index, c)
      ensures ok <==> luck == Committed && ApplyCommand(old(state), c).Some?
    {
      ok := false;
      if luck != NotCommitted {
        index := index + 1;
        ok := luck == Committed && ApplyCommand(state, c).Some?;
        state := ApplyLog(state, index, c);
      }
    }

    // Commands of others get committed.
    method Absorb(log: seq<Command>, ghost id: PlanId, ghost plan: Plan, ghost start: Rows, ghost k: nat)
      requires Running(id, plan, start, k) && Foreign(id, log)
      modifies this`state, this`index
      ensures Running(id, plan, start, k)
      ensures state == ApplyAll(old(state), old(index) + 1, log)
    {
      ghost var first := index + 1;
      for i := 0 to |log|
        invariant index + 1 == first + i && state.active == old(state.active)
        invariant old(state).unavailable.Keys <= state.unavailable.Keys
        invariant ApplyAll(state, index + 1, log[i..]) == ApplyAll(old(state), first, log)
      {
        assert log[i] in log && log[i..][1..] == log[i + 1..];
        ActivePlanPersists(state, index + 1, log[i]);
        if log[i].RecordLost? {
          LostStays(state.unavailable, log[i].slots);
        }
        index := index + 1;
        state := ApplyLog(state, index, log[i]);
      }
    }

    // One topology step: check, call, check again.
    method ExecuteTopologyStep(step: Step, luck: Luck, ghost id: PlanId, ghost plan: Plan, ghost start: Rows, k: nat) returns (ok: bool)
      requires Running(id, plan, start, k) && k < |plan.steps| && step == plan.steps[k] && step.kind != MarkUnavailable
      modifies this`rows, this`effects
      ensures Running(id, plan, start, k)
      ensures ok ==> Reached(peers, start, plan.steps, rows, effects, k + 1)
      ensures Lucky(luck) && Postcondition(StraightLine(peers, start, plan.steps[..k + 1]), step) ==> ok
    {
      StraightLineNext(peers, start, plan.steps, k);
      if !luck.reachable {
        return false;
      }
      if Postcondition(rows, step) {
        return true;
      }
      if luck.delivered && Succeeds(peers, rows, step) {
        StraightLineWell(peers, start, plan.steps[..k]);
        EffectIsFinal(peers, rows, step);
        rows := Effect(rows, step);
        effects := effects + [k];
      }
      ok := luck.verified && Postcondition(rows, step);
    }

    // Marks step k done once its rows have been reached.
    method Mark(luck: Commit, ghost plan: Plan, ghost start: Rows, id: PlanId, k: nat) returns (ok: bool)
      requires Running(id, plan, start, k) && k < |plan.steps|
      requires Reached(peers, start, plan.steps, rows, effects, k + 1)
      requires plan.steps[k].kind == MarkUnavailable ==> plan.steps[k].slot in state.unavailable
      modifies this`state, this`index
      ensures Running(id, plan, start, k) || Running(id, plan, start, k + 1)
      ensures ok ==> Running(id, plan, start, k + 1)
      ensures luck == Committed ==> ok
    {
      ActivePlanPersists(state, index + 1, StepDone(id, k));
      ok := Propose(StepDone(id, k), luck);
    }

    // A slot without a copy is recorded, once.
    method Record(step: Step, luck: Commit, ghost id: PlanId, ghost plan: Plan, ghost start: Rows, k: nat) returns (ok: bool)
      requires Running(id, plan, start, k) && k < |plan.steps| && step == plan.steps[k] && step.kind == MarkUnavailable
      modifies this`state, this`index
      ensures Running(id, plan, start, k)
      ensures ok ==> step.slot in state.unavailable && Reached(peers, start, plan.steps, rows, effects, k + 1)
      ensures state.unavailable == old(state.unavailable)
        || (step.slot !in old(state.unavailable) && state.unavailable ==
              old(state.unavailable)[step.slot := UnavailableRecord(plan.dead, old(state.view.slots), step.slot)])
      ensures luck == Committed ==> ok
    {
      StraightLineNext(peers, start, plan.steps, k);
      if step.slot in state.unavailable {
        return true;
      }
      var a := state.active.value;
      var entry := [(step.slot, UnavailableRecord(a.plan.dead, state.view.slots, step.slot))];
      assert entry[..0] == [] && MarkAll(state.unavailable, entry) == state.unavailable[step.slot := entry[0].1];
      ActivePlanPersists(state, index + 1, RecordLost(entry));
      ok := Propose(RecordLost(entry), luck);
    }

    // One step of the active plan, up to its StepDone.
    method ExecuteStep(luck: Luck, ghost plan: Plan, ghost start: Rows, id: PlanId, k: nat) returns (ok: bool)
      requires Running(id, plan, start, k) && k < |plan.steps| && Foreign(id, luck.meanwhile)
      modifies this
      ensures Running(id, plan, start, k) || Running(id, plan, start, k + 1)
      ensures ok ==> Running(id, plan, start, k + 1)
      ensures Lucky(luck) && Achievable(peers, start, plan.steps) ==> ok
    {
      Absorb(luck.meanwhile, id, plan, start, k);
      var step := state.active.value.plan.steps[k];
      if step.kind == MarkUnavailable {
        ok := Record(step, luck.recorded, id, plan, start, k);
      } else {
        ok := ExecuteTopologyStep(step, luck, id, plan, start, k);
      }
      if ok {
        ok := Mark(luck.marked, plan, start, id, k);
      }
    }

    // What holds when the completion of a plan has been committed: every step
    // is done, no call took effect twice, and the rows are those of one
    // uninterrupted run.
    ghost predicate Finished(id: PlanId, plan: Plan, start: Rows)
      reads this
    {
      && state.active.None? && state.lastCompleted == id
      && rows == StraightLine(peers, start, plan.steps)
      && (forall i, j :: 0 <= i < j < |effects| ==> effects[i] < effects[j])
      && (forall i :: 0 <= i < |effects| ==> effects[i] < |plan.steps|)
      && (forall i :: 0 <= i < |plan.steps| && plan.steps[i].kind == MarkUnavailable ==> plan.steps[i].slot in state.unavailable)
    }

    // The steps that are not done yet, in order, up to the first that fails.
    method ExecuteSteps(luck: nat -> Luck, ghost id: PlanId, ghost plan: Plan, ghost start: Rows, ghost k0: nat)
      returns (ok: bool, ghost k: nat)
      requires Running(id, plan, start, k0) && forall i :: Foreign(id, luck(i).meanwhile)
      modifies this
      ensures k0 <= k <= |plan.steps| && Running(id, plan, start, k)
      ensures ok ==> k == |plan.steps|
      ensures (forall i :: Lucky(luck(i))) && Achievable(peers, start, plan.steps) ==> ok
    {
      k := k0;
      var planId := state.active.value.id;
      var steps := state.active.value.plan.steps;
      for i := 0 to |steps|
        invariant planId == id && steps == plan.steps
        invariant i <= k && k0 <= k <= |steps| && Running(id, plan, start, k)
      {
        if i in state.active.value.done {
          continue;
        }
        ok := ExecuteStep(luck(i), plan, start, planId, i);
        if !ok {
          if Running(id, plan, start, i + 1) { k := i + 1; }
          return;
        }
        k := i + 1;
      }
      ok := true;
    }

    method Complete(luck: Commit, ghost plan: Plan, ghost start: Rows, id: PlanId) returns (ok: bool)
      requires Running(id, plan, start, |plan.steps|)
      modifies this`state, this`index
      ensures if luck == NotCommitted then Running(id, plan, start, |plan.steps|) else Finished(id, plan, start)
      ensures ok <==> luck == Committed
    {
      assert plan.steps[..|plan.steps|] == plan.steps;
      ActivePlanPersists(state, index + 1, PlanComplete(id));
      ok := Propose(PlanComplete(id), luck);
    }

    // One pass over the active plan. Whatever goes wrong on the way, the plan
    // stays resumable from where it got to; it completes only when every step
    // is marked done, and if nothing goes wrong it does.
    method ExecuteOnce(luck: nat -> Luck, completion: Commit, ghost id: PlanId, ghost plan: Plan, ghost start: Rows, ghost k0: nat)
      returns (ok: bool, ghost k: nat)
      requires Running(id, plan, start, k0) && forall i :: Foreign(id, luck(i).meanwhile)
      modifies this
      ensures k0 <= k <= |plan.steps|
      ensures Running(id, plan, start, k) || (k == |plan.steps| && Finished(id, plan, start))
      ensures ok ==> Finished(id, plan, start)
      ensures (forall i :: Lucky(luck(i))) && completion == Committed && Achievable(peers, start, plan.steps) ==> ok
    {
      var planId := state.active.value.id;
      ok, k := ExecuteSteps(luck, id, plan, start, k0);
      if ok {
        ok := Complete(completion, plan, start, planId);
      }
    }

    // Any number of passes, each interrupted as it may be, with commands of
    // others committed between and during them.
    method ExecuteRepeatedly(passes: seq<Pass>, ghost id: PlanId, ghost plan: Plan, ghost start: Rows) returns (finished: bool)
      requires Running(id, plan, start, 0) && forall p :: p in passes ==> Apart(id, p)
      modifies this
      ensures finished ==> Finished(id, plan, start)
      ensures Finished(id, plan, start) || exists k :: Running(id, plan, start, k)
    {
      ghost var k: nat := 0;
      for i := 0 to |passes|
        invariant Running(id, plan, start, k)
      {
        var p := passes[i];
        assert Apart(id, p);
        Absorb(p.before, id, plan, start, k);
        var ok;
        ok, k := ExecuteOnce(p.luck, p.completion, id, plan, start, k);
        if state.active.None? {
          return true;
        }
      }
      return false;
    }
  }

  // ------------------------------------- execution and replay are the same

  ghost function Owns(t: Table): Rows {
    map n | n in t :: t[n].own
  }

  lemma RunStepIsApply(peers: set<NodeId>, members: set<NodeId>, t: Table, s: Step)
    requires members <= peers && Safe(t) && Applicable(members, t, s)
    ensures RunStep(peers, Owns(t), s) == Owns(Apply(t, s))
  {
    assert s.slot in t ==> Owns(t)[s.slot] == t[s.slot].own;
  }

  // A plan that can be replayed step by step is executed to exactly the
  // ownership the replay gives.
  lemma {:induction false} ExecutionIsReplay(peers: set<NodeId>, members: set<NodeId>, t: Table, steps: seq<Step>)
    requires members <= peers && Safe(t) && Replayable(members, t, steps)
    ensures StraightLine(peers, Owns(t), steps) == Owns(Replay(t, steps))
    decreases |steps|
  {
    if steps != [] {
      var k := |steps| - 1;
      PrefixSafe(members, t, steps, k);
      ExecutionIsReplay(peers, members, t, steps[..k]);
      RunStepIsApply(peers, members, Replay(t, steps[..k]), steps[k]);
      assert steps == steps[..k] + [steps[k]];
      ReplayAppend(members, t, steps[..k], [steps[k]]);
      ReplayOne(members, Replay(t, steps[..k]), steps[k]);
    }
  }

  lemma {:induction false} AppliedHolds(members: set<NodeId>, t: Table, s: Step)
    requires Safe(t) && Applicable(members, t, s) && s.kind != MarkUnavailable
    ensures Postcondition(Owns(Apply(t, s)), s)
  {
    assert s.slot in Owns(Apply(t, s)) && Owns(Apply(t, s))[s.slot] == Apply(t, s)[s.slot].own;
  }

  // A plan that can be replayed never waits for a postcondition in vain.
  lemma {:induction false} ReplayableIsAchievable(peers: set<NodeId>, members: set<NodeId>, t: Table, steps: seq<Step>)
    requires members <= peers && Safe(t) && Replayable(members, t, steps)
    ensures Achievable(peers, Owns(t), steps)
  {
    forall i | 0 <= i < |steps| && steps[i].kind != MarkUnavailable
      ensures Postcondition(StraightLine(peers, Owns(t), steps[..i + 1]), steps[i])
    {
      PrefixSafe(members, t, steps, i);
      PrefixSafe(members, t, steps, i + 1);
      ExecutionIsReplay(peers, members, t, steps[..i + 1]);
      assert steps[..i + 1] == steps[..i] + [steps[i]];
      ReplayAppend(members, t, steps[..i], [steps[i]]);
      ReplayOne(members, Replay(t, steps[..i]), steps[i]);
      AppliedHolds(members, Replay(t, steps[..i]), steps[i]);
    }
  }
}
