// The replicated state machine of the controller: plans, the steps of the
// active plan that are done, and slots recorded as lost.
module Fsm {
  import opened Options
  import opened Ordering
  import opened Slots
  import opened Plans
  import opened Views

  type PlanId = Bytes

  datatype Active = Active(id: PlanId, plan: Plan, done: set<nat>)

  datatype Lost = Lost(leader: NodeId, replica: NodeId, failures: seq<NodeId>)

  datatype Completed = Completed(id: PlanId, epoch: nat, controlIndex: nat)

  datatype Status = Observed(n: nat) | Promoting | Repairing | Moving | PotentialDataLoss

  datatype State = State(
    view: View, status: Status, active: Option<Active>, controlIndex: nat,
    unavailable: map<nat, Lost>, returning: map<NodeId, bool>,
    lastCompleted: PlanId, lastRebalance: Option<Completed>)

  datatype Command =
    | ObserveView(view: View, status: Status)
    | ProposePlan(id: PlanId, plan: Plan, done: set<nat>)
    | StepDone(id: PlanId, index: int)
    | PlanComplete(id: PlanId)
    | SupersedePlan(former: PlanId, id: PlanId, plan: Plan, done: set<nat>)
    | RecordLost(slots: seq<(nat, Lost)>)
    | AdmitReturningNode(node: NodeId, admitted: bool)

  // The status of the first step that is not done.
  function PlanStatus(a: Active, from: nat, otherwise: Status): Status
    requires from <= |a.plan.steps|
    decreases |a.plan.steps| - from
  {
    if a.plan.kind == Rebalancing then Moving
    else if from == |a.plan.steps| then otherwise
    else if from in a.done then PlanStatus(a, from + 1, otherwise)
    else match a.plan.steps[from].kind
      case Promote => Promoting
      case AssignReplica => Repairing
      case Sync => Repairing
      case MarkUnavailable => PotentialDataLoss
  }

  function WithStatus(s: State): State {
    if s.active.Some? then s.(status := PlanStatus(s.active.value, 0, s.status)) else s
  }

  function MarkAll(m: map<nat, Lost>, slots: seq<(nat, Lost)>): map<nat, Lost> {
    if slots == [] then m else MarkAll(m, slots[..|slots| - 1])[slots[|slots| - 1].0 := slots[|slots| - 1].1]
  }

  // A committed command either changes the state as a whole or is refused.
  function ApplyCommand(s: State, c: Command): Option<State> {
    match c
    case ObserveView(view, status) => Some(s.(view := view, status := status))
    case ProposePlan(id, plan, done) => Some(WithStatus(s.(active := Some(Active(id, plan, done)))))
    case StepDone(id, index) =>
      if s.active.None? || s.active.value.id != id then None
      else if index < 0 || index >= |s.active.value.plan.steps| then None
      else Some(WithStatus(s.(active := Some(s.active.value.(done := s.active.value.done + {index})))))
    case PlanComplete(id) =>
      if s.active.None? || s.active.value.id != id then None
      else
        var a := s.active.value;
        Some(s.(lastCompleted := id, active := None,
                lastRebalance := if a.plan.kind == Rebalancing then Some(Completed(id, a.plan.epoch, 0)) else s.lastRebalance))
    case SupersedePlan(former, id, plan, done) =>
      if s.active.None? || s.active.value.id != former || id == [] then None
      else Some(WithStatus(s.(active := Some(Active(id, plan, done)))))
    case RecordLost(slots) => Some(s.(unavailable := MarkAll(s.unavailable, slots)))
    case AdmitReturningNode(node, admitted) =>
      if node == NOBODY then None else Some(s.(returning := s.returning[node := admitted]))
  }

  // One log entry, with the bookkeeping that depends on its index.
  function ApplyLog(s: State, index: nat, c: Command): State {
    match ApplyCommand(s, c)
    case None => s
    case Some(t) =>
      var u := t.(controlIndex := index);
      var v :=
        if c.PlanComplete? && u.lastRebalance.Some? && u.lastRebalance.value.controlIndex == 0
        then u.(lastRebalance := Some(u.lastRebalance.value.(controlIndex := index))) else u;
      if c.ObserveView? then WithStatus(v) else v
  }

  // Only completion and replacement take an active plan away, and nothing but
  // its own StepDone changes which of its steps are done.
  lemma ActivePlanPersists(s: State, index: nat, c: Command)
    requires s.active.Some?
    ensures var a, t := s.active.value, ApplyLog(s, index, c);
      match c
      case ProposePlan(id, plan, done) => t.active == Some(Active(id, plan, done))
      case StepDone(id, i) =>
        t.active == if id == a.id && 0 <= i < |a.plan.steps| then Some(a.(done := a.done + {i})) else s.active
      case PlanComplete(id) => t.active == if id == a.id then None else s.active
      case SupersedePlan(former, id, plan, done) =>
        t.active == if former == a.id && id != [] then Some(Active(id, plan, done)) else s.active
      case _ => t.active == s.active
  {
  }

  // ------------------------------------------------------------ a whole log

  // A command that neither proposes a plan nor ends the one with this name.
  predicate Spares(id: PlanId, c: Command) {
    match c
    case ProposePlan(_, _, _) => false
    case PlanComplete(other) => other != id
    case SupersedePlan(former, next, _, _) => former != id || next == []
    case _ => true
  }

  function ApplyAll(s: State, index: nat, log: seq<Command>): State
    decreases |log|
  {
    if log == [] then s else ApplyAll(ApplyLog(s, index, log[0]), index + 1, log[1..])
  }

  // The steps of a plan that a log reports done.
  ghost function Reported(a: Active, log: seq<Command>): set<nat> {
    set i: nat | i < |a.plan.steps| && StepDone(a.id, i) in log
  }

  lemma {:induction false} LostStays(m: map<nat, Lost>, slots: seq<(nat, Lost)>)
    ensures m.Keys <= MarkAll(m, slots).Keys
    decreases |slots|
  {
    if slots != [] {
      LostStays(m, slots[..|slots| - 1]);
    }
  }

  lemma {:induction false} ReportedFirst(a: Active, c: Command, log: seq<Command>)
    ensures Reported(a, [c] + log) == Reported(a, log) +
      if c.StepDone? && c.id == a.id && 0 <= c.index < |a.plan.steps| then {c.index} else {}
  {
    assert forall d :: d in [c] + log <==> d == c || d in log;
  }

  // Over any stretch of the log that does not propose or end a plan, the active
  // plan stays, exactly the steps reported done are added to those that are,
  // and no slot recorded as lost is forgotten.
  lemma {:induction false} PlanSurvivesLog(s: State, index: nat, log: seq<Command>)
    requires s.active.Some? && forall c :: c in log ==> Spares(s.active.value.id, c)
    ensures var a, t := s.active.value, ApplyAll(s, index, log);
      t.active == Some(a.(done := a.done + Reported(a, log))) && s.unavailable.Keys <= t.unavailable.Keys
    decreases |log|
  {
    var a := s.active.value;
    if log == [] {
      assert a.done + Reported(a, log) == a.done;
    } else {
      var c, rest := log[0], log[1..];
      var u := ApplyLog(s, index, c);
      assert Spares(a.id, c) && log == [c] + rest;
      ActivePlanPersists(s, index, c);
      if c.RecordLost? {
        LostStays(s.unavailable, c.slots);
      }
      PlanSurvivesLog(u, index + 1, rest);
      ReportedFirst(a, c, rest);
      assert Reported(u.active.value, rest) == Reported(a, rest);
      assert u.active.value.done + Reported(a, rest) == a.done + Reported(a, log);
    }
  }

  class FSM {
    var state: State

    constructor (view: View)
      ensures state == State(view, Observed(0), None, 0, map[], map[], [], None)
    {
      state := State(view, Observed(0), None, 0, map[], map[], [], None);
    }

    // Applies one committed entry; a refused one changes nothing.
    method Apply(index: nat, c: Command) returns (ok: bool)
      modifies this
      ensures ok <==> ApplyCommand(old(state), c).Some?
      ensures state == ApplyLog(old(state), index, c)
    {
      ok := Perform(c);
      if !ok {
        return;
      }
      state := state.(controlIndex := index);
      if c.PlanComplete? && state.lastRebalance.Some? && state.lastRebalance.value.controlIndex == 0 {
        state := state.(lastRebalance := Some(state.lastRebalance.value.(controlIndex := index)));
      }
      if c.ObserveView? {
        UpdatePlanStatus();
      }
    }

    method Perform(c: Command) returns (ok: bool)
      modifies this
      ensures ok <==> ApplyCommand(old(state), c).Some?
      ensures state == if ok then ApplyCommand(old(state), c).value else old(state)
    {
      match c {
        case ObserveView(view, status) =>
          state := state.(view := view, status := status);
        case ProposePlan(id, plan, done) =>
          state := state.(active := Some(Active(id, plan, done)));
          UpdatePlanStatus();
        case StepDone(id, index) =>
          if state.active.None? || state.active.value.id != id {
            return false;
          }
          if index < 0 || index >= |state.active.value.plan.steps| {
            return false;
          }
          state := state.(active := Some(state.active.value.(done := state.active.value.done + {index})));
          UpdatePlanStatus();
        case PlanComplete(id) =>
          if state.active.None? || state.active.value.id != id {
            return false;
          }
          state := state.(lastCompleted := id);
          if state.active.value.plan.kind == Rebalancing {
            state := state.(lastRebalance := Some(Completed(id, state.active.value.plan.epoch, 0)));
          }
          state := state.(active := None);
        case SupersedePlan(former, id, plan, done) =>
          if state.active.None? || state.active.value.id != former || id == [] {
            return false;
          }
          state := state.(active := Some(Active(id, plan, done)));
          UpdatePlanStatus();
        case RecordLost(slots) =>
          for i := 0 to |slots|
            invariant state == old(state).(unavailable := MarkAll(old(state).unavailable, slots[..i]))
          {
            assert slots[..i + 1][..i] == slots[..i];
            state := state.(unavailable := state.unavailable[slots[i].0 := slots[i].1]);
          }
          assert slots[..|slots|] == slots;
        case AdmitReturningNode(node, admitted) =>
          if node == NOBODY {
            return false;
          }
          state := state.(returning := state.returning[node := admitted]);
      }
      return true;
    }

    method UpdatePlanStatus()
      modifies this
      ensures state == WithStatus(old(state))
    {
      if state.active.None? {
        return;
      }
      var a := state.active.value;
      if a.plan.kind == Rebalancing {
        state := state.(status := Moving);
        return;
      }
      for i := 0 to |a.plan.steps|
        invariant state == old(state) && PlanStatus(a, 0, state.status) == PlanStatus(a, i, state.status)
      {
        if i !in a.done {
          match a.plan.steps[i].kind {
            case Promote => state := state.(status := Promoting);
            case AssignReplica => state := state.(status := Repairing);
            case Sync => state := state.(status := Repairing);
            case MarkUnavailable => state := state.(status := PotentialDataLoss);
          }
          return;
        }
      }
    }
  }
}
