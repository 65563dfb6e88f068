// Recovery planning after failures: which slots still have a copy, and the
// steps that give each of them an available leader and a fresh replica.
module Failover {
  import opened Options
  import opened Ordering
  import opened Slots
  import opened Sorting
  import opened Plans
  import opened Views

  datatype SlotClass = Unaffected | Leaderless | ReplicaLost | NoSurvivingCopy

  function Classify(nodes: map<NodeId, NodeView>, o: Own): SlotClass {
    var leaderAvailable := OwnerAvailable(nodes, o.leader);
    var replicaAvailable := o.ready && OwnerAvailable(nodes, o.replica);
    if leaderAvailable && replicaAvailable then Unaffected
    else if replicaAvailable then Leaderless
    else if leaderAvailable then ReplicaLost
    else NoSurvivingCopy
  }

  // A node still holds the slot's data and can be reached.
  ghost predicate Survives(nodes: map<NodeId, NodeView>, o: Own) {
    OwnerAvailable(nodes, o.leader) || (o.ready && OwnerAvailable(nodes, o.replica))
  }

  // ------------------------------------------------- the lightest candidate

  // The node every other candidate is heavier than.
  ghost function Pick(ids: set<NodeId>, loads: Loads): (r: Option<NodeId>)
    ensures r.None? <==> ids == {}
    ensures r.Some? ==> r.value in ids && forall m :: m in ids && m != r.value ==> Lighter(loads, r.value, m)
  {
    if ids == {} then None
    else
      var x :| x in ids;
      match Pick(ids - {x}, loads)
      case None =>
        assert forall m :: m in ids && m != x ==> m in ids - {x};
        Some(x)
      case Some(y) =>
        LighterTotal(loads, x, y);
        var best := if Lighter(loads, x, y) then x else y;
        assert forall m :: m in ids && m != best ==> Lighter(loads, best, m) by { BestStays(ids, loads, x, y, best); }
        Some(best)
  }

  lemma BestStays(ids: set<NodeId>, loads: Loads, x: NodeId, y: NodeId, best: NodeId)
    requires x in ids && y in ids && x != y
    requires forall m :: m in ids - {x} && m != y ==> Lighter(loads, y, m)
    requires best == if Lighter(loads, x, y) then x else y
    ensures forall m :: m in ids && m != best ==> Lighter(loads, best, m)
  {
    LighterTotal(loads, x, y);
    forall m | m in ids && m != best
      ensures Lighter(loads, best, m)
    {
      if best == x && m != y {
        LighterTransitive(loads, x, y, m);
      }
    }
  }

  lemma PickUnique(ids: set<NodeId>, loads: Loads, n: NodeId)
    requires n in ids && forall m :: m in ids && m != n ==> Lighter(loads, n, m)
    ensures Pick(ids, loads) == Some(n)
  {
    var p := Pick(ids, loads).value;
    LighterTotal(loads, n, p);
  }

  method LeastLoadedEligible(view: View, loads: Loads, excluded: NodeId) returns (r: Option<NodeId>)
    ensures r == Pick(UsableNodes(view) - {excluded}, loads)
  {
    var ids := UsableNodes(view) - {excluded};
    var candidates := Arrange(ids, loads);
    ListsMembers(loads, candidates, ids);
    if |candidates| == 0 {
      return None;
    }
    PickUnique(ids, loads, candidates[0]);
    return Some(candidates[0]);
  }

  // ---------------------------------------------------- planning one slot

  datatype Draft = Draft(loads: Loads, steps: seq<Step>, unrecoverable: seq<nat>, blocked: seq<nat>)

  // A new replica for the slot, wherever the load is least.
  ghost function Refill(view: View, d: Draft, number: nat, leader: NodeId): Draft {
    match Pick(UsableNodes(view) - {leader}, d.loads)
    case None => d
    case Some(target) =>
      d.(steps := d.steps + [Step(AssignReplica, number, target), Step(Sync, number, target)],
         loads := d.loads[target := Load(d.loads, target) + 1])
  }

  ghost function Advance(view: View, d: Draft, v: SlotView): Draft {
    match Classify(view.nodes, v.own)
    case Unaffected => d
    case Leaderless =>
      Refill(view,
             d.(steps := d.steps + [Step(Promote, v.number, v.own.replica)], blocked := d.blocked + [v.number]),
             v.number, v.own.replica)
    case ReplicaLost =>
      if OwnerAvailable(view.nodes, v.own.replica)
      then d.(steps := d.steps + [Step(Sync, v.number, v.own.replica)])
      else Refill(view, d, v.number, v.own.leader)
    case NoSurvivingCopy =>
      d.(unrecoverable := d.unrecoverable + [v.number], steps := d.steps + [Step(MarkUnavailable, v.number, NOBODY)])
  }

  ghost function AdvanceAll(view: View, d: Draft, slots: seq<SlotView>): Draft {
    if slots == [] then d else Advance(view, AdvanceAll(view, d, slots[..|slots| - 1]), slots[|slots| - 1])
  }

  method RefillStep(view: View, d: Draft, number: nat, leader: NodeId) returns (r: Draft)
    ensures r == Refill(view, d, number, leader)
  {
    var pick := LeastLoadedEligible(view, d.loads, leader);
    r := d;
    if pick.Some? {
      var target := pick.value;
      r := d.(steps := d.steps + [Step(AssignReplica, number, target), Step(Sync, number, target)],
              loads := d.loads[target := Load(d.loads, target) + 1]);
    }
  }

  function InitialLoads(view: View): Loads {
    map id | id in view.nodes :: view.nodes[id].leaderSlots + view.nodes[id].replicaSlots
  }

  method PlanSlots(view: View, sorted: seq<SlotView>) returns (d: Draft)
    ensures d == AdvanceAll(view, Draft(InitialLoads(view), [], [], []), sorted)
    ensures Consists(view, sorted, d.steps, d.unrecoverable, d.blocked)
  {
    PlanConsists(view, sorted);
    d := Draft(InitialLoads(view), [], [], []);
    for k := 0 to |sorted|
      invariant d == AdvanceAll(view, Draft(InitialLoads(view), [], [], []), sorted[..k])
    {
      var v := sorted[k];
      assert sorted[..k + 1][..k] == sorted[..k];
      match Classify(view.nodes, v.own)
      case Leaderless =>
        d := d.(steps := d.steps + [Step(Promote, v.number, v.own.replica)], blocked := d.blocked + [v.number]);
        d := RefillStep(view, d, v.number, v.own.replica);
      case ReplicaLost =>
        if OwnerAvailable(view.nodes, v.own.replica) {
          d := d.(steps := d.steps + [Step(Sync, v.number, v.own.replica)]);
        } else {
          d := RefillStep(view, d, v.number, v.own.leader);
        }
      case NoSurvivingCopy =>
        d := d.(unrecoverable := d.unrecoverable + [v.number], steps := d.steps + [Step(MarkUnavailable, v.number, NOBODY)]);
      case Unaffected =>
    }
    assert sorted[..|sorted|] == sorted;
  }

  // ------------------------------------------------------------- the plan

  const NUMBER: SlotView -> nat := (v: SlotView) => v.number

  // The plan in terms of the slots in number order.
  ghost predicate IsPlan(view: View, sorted: seq<SlotView>, plan: Plan) {
    var d := AdvanceAll(view, Draft(InitialLoads(view), [], [], []), sorted);
    && plan.kind == Recovery && plan.epoch == view.version
    && plan.steps == d.steps && plan.unrecoverable == d.unrecoverable && plan.blocked == d.blocked
    && Lists(map[], plan.dead, FailedNodes(view))
  }

  ghost predicate InOrder(view: View, sorted: seq<SlotView>) {
    multiset(sorted) == multiset(view.slots) && AscendingBy(NUMBER, sorted)
  }

  method PlanFailover(view: View) returns (plan: Option<Plan>, sorted: seq<SlotView>)
    ensures InOrder(view, sorted)
    ensures plan.Some? ==> IsPlan(view, sorted, plan.value) && plan.value.steps != []
    ensures plan.None? ==> AdvanceAll(view, Draft(InitialLoads(view), [], [], []), sorted).steps == []
    ensures plan.Some? ==> Consists(view, sorted, plan.value.steps, plan.value.unrecoverable, plan.value.blocked)
    ensures plan.None? ==> Consists(view, sorted, [], [], [])
  {
    var dead := Arrange(FailedNodes(view), map[]);
    sorted := SortBy(NUMBER, view.slots);
    var d := PlanSlots(view, sorted);
    UnrecoverableHasStep(view, sorted);
    PlanConsists(view, sorted);
    NothingBlocked(view, sorted);
    if d.steps == [] && d.unrecoverable == [] {
      return None, sorted;
    }
    plan := Some(Plan(Recovery, view.version, dead, d.steps, d.unrecoverable, d.blocked));
  }

  lemma {:induction false} UnrecoverableHasStep(view: View, slots: seq<SlotView>)
    ensures var d := AdvanceAll(view, Draft(InitialLoads(view), [], [], []), slots); d.unrecoverable != [] ==> d.steps != []
  {
    if slots != [] {
      UnrecoverableHasStep(view, slots[..|slots| - 1]);
    }
  }

  // ---------------------------------------------- what the plan consists of

  // How many replicas a list of steps gives to a node.
  ghost function Given(steps: seq<Step>, m: NodeId): nat {
    if steps == [] then 0
    else
      var last := steps[|steps| - 1];
      Given(steps[..|steps| - 1], m) + if last.kind == AssignReplica && last.target == m then 1 else 0
  }

  // The slots a node has, and the replicas it has been given since.
  ghost function Weight(view: View, steps: seq<Step>, m: NodeId): int
    requires m in view.nodes
  {
    view.nodes[m].leaderSlots + view.nodes[m].replicaSlots + Given(steps, m)
  }

  // The usable node other than the leader with the least weight, ties by name.
  ghost predicate Lightest(view: View, steps: seq<Step>, leader: NodeId, target: NodeId) {
    && target in UsableNodes(view) && target != leader
    && forall m :: m in UsableNodes(view) && m != leader && m != target ==>
         Weight(view, steps, target) < Weight(view, steps, m)
         || (Weight(view, steps, target) == Weight(view, steps, m) && Lex(target, m))
  }

  // A new replica for a slot with this leader, if there is a node for it.
  ghost predicate Replaces(view: View, before: seq<Step>, number: nat, leader: NodeId, steps: seq<Step>) {
    if UsableNodes(view) <= {leader} then steps == []
    else exists target :: Lightest(view, before, leader, target) && steps == [Step(AssignReplica, number, target), Step(Sync, number, target)]
  }

  // The steps for one slot, after those for the slots before it: none while both
  // copies are available; a lost slot is marked; a surviving ready replica takes
  // over and gets a replica of its own; a replica that is there is synchronised,
  // and one that is not is replaced.
  ghost predicate Handles(view: View, before: seq<Step>, v: SlotView, steps: seq<Step>) {
    var leads, follows := OwnerAvailable(view.nodes, v.own.leader), OwnerAvailable(view.nodes, v.own.replica);
    if leads && follows && v.own.ready then steps == []
    else if leads && follows then steps == [Step(Sync, v.number, v.own.replica)]
    else if leads then Replaces(view, before, v.number, v.own.leader, steps)
    else if follows && v.own.ready then
      steps != [] && steps[0] == Step(Promote, v.number, v.own.replica) && Replaces(view, before, v.number, v.own.replica, steps[1..])
    else steps == [Step(MarkUnavailable, v.number, NOBODY)]
  }

  // Chunk k handles slot k.
  ghost predicate Handled(view: View, slots: seq<SlotView>, chunks: seq<seq<Step>>, k: nat) {
    k < |slots| && k < |chunks| && Handles(view, Flat(chunks[..k]), slots[k], chunks[k])
  }

  ghost predicate HandlesAll(view: View, slots: seq<SlotView>, chunks: seq<seq<Step>>) {
    && |chunks| == |slots|
    && forall k {:trigger Handled(view, slots, chunks, k)} :: 0 <= k < |slots| ==> Handled(view, slots, chunks, k)
  }

  // The numbers of the slots in a class, in order.
  ghost function NumbersIn(view: View, slots: seq<SlotView>, leads: bool, survives: bool): seq<nat> {
    if slots == [] then []
    else
      var v := slots[|slots| - 1];
      NumbersIn(view, slots[..|slots| - 1], leads, survives) +
      if OwnerAvailable(view.nodes, v.own.leader) == leads && (v.own.ready && OwnerAvailable(view.nodes, v.own.replica)) == survives
      then [v.number] else []
  }

  // The steps slot by slot; lost are the slots without a surviving copy, blocked
  // those whose replica takes over.
  ghost predicate Consists(view: View, slots: seq<SlotView>, steps: seq<Step>, lost: seq<nat>, blocked: seq<nat>) {
    && (exists chunks :: HandlesAll(view, slots, chunks) && steps == Flat(chunks))
    && lost == NumbersIn(view, slots, false, false) && blocked == NumbersIn(view, slots, false, true)
  }

  lemma {:induction false} GivenMore(steps: seq<Step>, more: seq<Step>, m: NodeId)
    ensures Given(steps + more, m) == Given(steps, m) + Given(more, m)
    decreases |more|
  {
    if more == [] {
      assert steps + more == steps;
    } else {
      var k := |more| - 1;
      assert (steps + more)[..|steps + more| - 1] == steps + more[..k];
      GivenMore(steps, more[..k], m);
    }
  }

  // The loads a draft goes by are the weights.
  ghost predicate Weighed(view: View, d: Draft) {
    forall m :: m in view.nodes ==> Load(d.loads, m) == Weight(view, d.steps, m)
  }

  lemma {:induction false} PickIsLightest(view: View, d: Draft, leader: NodeId)
    requires Weighed(view, d)
    ensures var pick := Pick(UsableNodes(view) - {leader}, d.loads);
      && (pick.None? <==> UsableNodes(view) <= {leader})
      && (pick.Some? ==> Lightest(view, d.steps, leader, pick.value))
  {
    var pick := Pick(UsableNodes(view) - {leader}, d.loads);
    if pick.Some? {
      forall m | m in UsableNodes(view) && m != leader && m != pick.value
        ensures Weight(view, d.steps, pick.value) < Weight(view, d.steps, m)
          || (Weight(view, d.steps, pick.value) == Weight(view, d.steps, m) && Lex(pick.value, m))
      {
        assert m in UsableNodes(view) - {leader};
        assert Lighter(d.loads, pick.value, m);
      }
    }
  }

  lemma {:induction false} GivenRefill(number: nat, target: NodeId, m: NodeId)
    ensures Given([Step(AssignReplica, number, target), Step(Sync, number, target)], m) == if m == target then 1 else 0
  {
    var s := [Step(AssignReplica, number, target), Step(Sync, number, target)];
    assert s[..1] == [s[0]] && s[..1][..0] == [];
    assert Given(s[..1], m) == if m == target then 1 else 0;
  }

  lemma {:induction false} GivenOne(s: Step, m: NodeId)
    requires s.kind != AssignReplica
    ensures Given([s], m) == 0
  {
    assert [s][..0] == [];
  }

  lemma {:induction false} RefillReplaces(view: View, d: Draft, number: nat, leader: NodeId)
    requires Weighed(view, d)
    ensures var r := Refill(view, d, number, leader);
      && Weighed(view, r) && d.steps <= r.steps && Replaces(view, d.steps, number, leader, r.steps[|d.steps|..])
      && r.unrecoverable == d.unrecoverable && r.blocked == d.blocked
  {
    PickIsLightest(view, d, leader);
    var r := Refill(view, d, number, leader);
    match Pick(UsableNodes(view) - {leader}, d.loads)
    case None => assert r.steps[|d.steps|..] == [];
    case Some(target) =>
      var more := [Step(AssignReplica, number, target), Step(Sync, number, target)];
      assert r.steps[|d.steps|..] == more;
      forall m | m in view.nodes
        ensures Load(r.loads, m) == Weight(view, r.steps, m)
      {
        GivenMore(d.steps, more, m);
        GivenRefill(number, target, m);
      }
  }

  lemma {:induction false} WeighedOn(view: View, d: Draft, s: Step, e: Draft)
    requires Weighed(view, d) && s.kind != AssignReplica && e.loads == d.loads && e.steps == d.steps + [s]
    ensures Weighed(view, e)
  {
    forall m | m in view.nodes
      ensures Load(e.loads, m) == Weight(view, e.steps, m)
    {
      GivenMore(d.steps, [s], m);
      GivenOne(s, m);
    }
  }

  // Nothing but assignments weighs.
  lemma {:induction false} LightestOn(view: View, steps: seq<Step>, s: Step, leader: NodeId, target: NodeId)
    requires s.kind != AssignReplica
    ensures Lightest(view, steps + [s], leader, target) <==> Lightest(view, steps, leader, target)
  {
    forall m | m in view.nodes
      ensures Weight(view, steps + [s], m) == Weight(view, steps, m)
    {
      GivenMore(steps, [s], m);
      GivenOne(s, m);
    }
  }

  lemma {:induction false} ReplacesOn(view: View, before: seq<Step>, s: Step, number: nat, leader: NodeId, steps: seq<Step>)
    requires s.kind != AssignReplica && Replaces(view, before + [s], number, leader, steps)
    ensures Replaces(view, before, number, leader, steps)
  {
    if !(UsableNodes(view) <= {leader}) {
      var target :| Lightest(view, before + [s], leader, target) && steps == [Step(AssignReplica, number, target), Step(Sync, number, target)];
      LightestOn(view, before, s, leader, target);
    }
  }

  // What one slot adds to a draft.
  lemma {:induction false} AdvanceHandles(view: View, d: Draft, v: SlotView)
    requires Weighed(view, d)
    ensures var r := Advance(view, d, v);
      && Weighed(view, r) && d.steps <= r.steps && Handles(view, d.steps, v, r.steps[|d.steps|..])
  {
    var r := Advance(view, d, v);
    match Classify(view.nodes, v.own)
    case Unaffected => assert r.steps[|d.steps|..] == [];
    case NoSurvivingCopy =>
      WeighedOn(view, d, Step(MarkUnavailable, v.number, NOBODY), r);
      assert r.steps[|d.steps|..] == [Step(MarkUnavailable, v.number, NOBODY)];
    case ReplicaLost =>
      if OwnerAvailable(view.nodes, v.own.replica) {
        WeighedOn(view, d, Step(Sync, v.number, v.own.replica), r);
        assert r.steps[|d.steps|..] == [Step(Sync, v.number, v.own.replica)];
      } else {
        RefillReplaces(view, d, v.number, v.own.leader);
      }
    case Leaderless => LeaderlessHandles(view, d, v);
  }

  lemma {:induction false} LeaderlessHandles(view: View, d: Draft, v: SlotView)
    requires Weighed(view, d) && Classify(view.nodes, v.own) == Leaderless
    ensures var r := Advance(view, d, v);
      && Weighed(view, r) && d.steps <= r.steps && Handles(view, d.steps, v, r.steps[|d.steps|..])
  {
    var r, s := Advance(view, d, v), Step(Promote, v.number, v.own.replica);
    var e := d.(steps := d.steps + [s], blocked := d.blocked + [v.number]);
    WeighedOn(view, d, s, e);
    RefillReplaces(view, e, v.number, v.own.replica);
    var more := r.steps[|d.steps|..];
    assert more[1..] == r.steps[|e.steps|..] && more[0] == e.steps[|d.steps|];
    ReplacesOn(view, d.steps, s, v.number, v.own.replica, more[1..]);
  }

  lemma {:induction false} AdvanceMarks(view: View, d: Draft, v: SlotView)
    ensures var r, c := Advance(view, d, v), Classify(view.nodes, v.own);
      && r.unrecoverable == d.unrecoverable + (if c == NoSurvivingCopy then [v.number] else [])
      && r.blocked == d.blocked + (if c == Leaderless then [v.number] else [])
  {
  }

  lemma {:induction false} StartIsWeighed(view: View)
    ensures Weighed(view, Draft(InitialLoads(view), [], [], []))
  {
  }

  lemma {:induction false} HandlesMore(view: View, slots: seq<SlotView>, chunks: seq<seq<Step>>, steps: seq<Step>)
    requires slots != [] && HandlesAll(view, slots[..|slots| - 1], chunks) && Handles(view, Flat(chunks), slots[|slots| - 1], steps)
    ensures HandlesAll(view, slots, chunks + [steps])
  {
    var more, n := chunks + [steps], |slots| - 1;
    forall k | 0 <= k < |slots|
      ensures Handled(view, slots, more, k)
    {
      if k < n {
        assert Handled(view, slots[..n], chunks, k);
        assert more[..k] == chunks[..k];
      } else {
        assert more[..k] == chunks;
      }
    }
  }

  lemma {:induction false} DraftHandles(view: View, slots: seq<SlotView>) returns (chunks: seq<seq<Step>>)
    ensures var d := AdvanceAll(view, Draft(InitialLoads(view), [], [], []), slots);
      Weighed(view, d) && HandlesAll(view, slots, chunks) && d.steps == Flat(chunks)
    decreases |slots|
  {
    if slots == [] {
      StartIsWeighed(view);
      chunks := [];
    } else {
      var front, v := slots[..|slots| - 1], slots[|slots| - 1];
      var d := AdvanceAll(view, Draft(InitialLoads(view), [], [], []), front);
      chunks := DraftHandles(view, front);
      AdvanceHandles(view, d, v);
      var steps := Advance(view, d, v).steps[|d.steps|..];
      HandlesMore(view, slots, chunks, steps);
      FlatOn(chunks, steps);
      chunks := chunks + [steps];
    }
  }

  lemma {:induction false} DraftMarks(view: View, slots: seq<SlotView>)
    ensures var d := AdvanceAll(view, Draft(InitialLoads(view), [], [], []), slots);
      d.unrecoverable == NumbersIn(view, slots, false, false) && d.blocked == NumbersIn(view, slots, false, true)
    decreases |slots|
  {
    if slots != [] {
      var front, v := slots[..|slots| - 1], slots[|slots| - 1];
      DraftMarks(view, front);
      AdvanceMarks(view, AdvanceAll(view, Draft(InitialLoads(view), [], [], []), front), v);
    }
  }

  lemma {:induction false} PlanConsists(view: View, slots: seq<SlotView>)
    ensures var d := AdvanceAll(view, Draft(InitialLoads(view), [], [], []), slots);
      Consists(view, slots, d.steps, d.unrecoverable, d.blocked)
  {
    var chunks := DraftHandles(view, slots);
    DraftMarks(view, slots);
  }

  lemma {:induction false} NothingBlocked(view: View, slots: seq<SlotView>)
    ensures var d := AdvanceAll(view, Draft(InitialLoads(view), [], [], []), slots); d.steps == [] ==> d.blocked == []
  {
    PlanBlocksPromoted(view, slots);
    var d := AdvanceAll(view, Draft(InitialLoads(view), [], [], []), slots);
    assert d.blocked != [] ==> d.blocked[0] in d.blocked;
  }

  // Who leads a slot once a surviving replica has taken over.
  ghost function LeaderThen(view: View, own: Own): NodeId {
    if OwnerAvailable(view.nodes, own.leader) then own.leader else own.replica
  }

  lemma {:induction false} HandlesLightest(view: View, before: seq<Step>, v: SlotView, steps: seq<Step>, i: nat)
    requires Handles(view, before, v, steps) && i < |steps| && steps[i].kind == AssignReplica
    ensures steps[i].slot == v.number && Lightest(view, before + steps[..i], LeaderThen(view, v.own), steps[i].target)
  {
    if OwnerAvailable(view.nodes, v.own.leader) {
      assert i == 0 && before + steps[..0] == before;
    } else {
      assert steps[1..][0] == steps[1] && steps[1..][1] == steps[2];
      assert i == 1 && before + steps[..1] == before + [steps[0]];
      LightestOn(view, before, steps[0], v.own.replica, steps[1].target);
    }
  }

  // Every replica goes to the lightest usable node there is at that point of the
  // plan, other than the slot's leader.
  lemma {:induction false} TargetsAreLightest(view: View, slots: seq<SlotView>, steps: seq<Step>, lost: seq<nat>, blocked: seq<nat>, i: nat)
    returns (v: SlotView)
    requires Consists(view, slots, steps, lost, blocked) && i < |steps| && steps[i].kind == AssignReplica
    ensures v in slots && steps[i].slot == v.number && Lightest(view, steps[..i], LeaderThen(view, v.own), steps[i].target)
    ensures steps[i].target in view.nodes && !view.nodes[steps[i].target].suspected
    ensures view.nodes[steps[i].target].reachable && view.nodes[steps[i].target].eligible
  {
    var chunks :| HandlesAll(view, slots, chunks) && steps == Flat(chunks);
    var k, j := Locate(chunks, i);
    assert Handled(view, slots, chunks, k);
    v := slots[k];
    HandlesLightest(view, Flat(chunks[..k]), v, chunks[k], j);
  }

  // While every slot has two synchronised copies on nodes that are reachable and
  // eligible, suspected or not, there is nothing to do.
  lemma {:induction false} QuietWhileAvailable(view: View, slots: seq<SlotView>, steps: seq<Step>, lost: seq<nat>, blocked: seq<nat>)
    requires Consists(view, slots, steps, lost, blocked)
    requires forall v :: v in slots ==> v.own.ready && Answers(view, v.own.leader) && Answers(view, v.own.replica)
    ensures steps == []
  {
    var chunks :| HandlesAll(view, slots, chunks) && steps == Flat(chunks);
    forall k | 0 <= k < |chunks|
      ensures chunks[k] == []
    {
      assert Handled(view, slots, chunks, k) && slots[k] in slots;
    }
    FlatOfNothing(chunks);
  }

  ghost predicate Answers(view: View, id: NodeId) {
    id != NOBODY && id in view.nodes && view.nodes[id].reachable && view.nodes[id].eligible
  }

  lemma {:induction false} FlatOfNothing(chunks: seq<seq<Step>>)
    requires forall k :: 0 <= k < |chunks| ==> chunks[k] == []
    ensures Flat(chunks) == []
    decreases |chunks|
  {
    if chunks != [] {
      FlatOfNothing(chunks[..|chunks| - 1]);
    }
  }

  // One plan per view: neither the order of the slots nor the order in which
  // the node map is visited can change it.
  lemma {:induction false} PlanIsDeterministic(a: View, b: View, sortedA: seq<SlotView>, sortedB: seq<SlotView>, planA: Plan, planB: Plan)
    requires a.version == b.version && a.nodes == b.nodes && multiset(a.slots) == multiset(b.slots)
    requires DistinctNumbers(a.slots)
    requires InOrder(a, sortedA) && InOrder(b, sortedB)
    requires IsPlan(a, sortedA, planA) && IsPlan(b, sortedB, planB)
    ensures sortedA == sortedB && planA == planB
  {
    assert DistinctBy(NUMBER, a.slots);
    DistinctPermuted(NUMBER, a.slots, sortedA);
    SortedByUnique(NUMBER, sortedA, sortedB);
    SameNodesSamePlan(a, b, Draft(InitialLoads(a), [], [], []), sortedA);
    ListsUnique(map[], planA.dead, planB.dead, FailedNodes(a));
  }

  lemma {:induction false} SameNodesSamePlan(a: View, b: View, d: Draft, slots: seq<SlotView>)
    requires a.nodes == b.nodes
    ensures AdvanceAll(a, d, slots) == AdvanceAll(b, d, slots)
  {
    if slots != [] {
      SameNodesSamePlan(a, b, d, slots[..|slots| - 1]);
      assert UsableNodes(a) == UsableNodes(b);
    }
  }

  // ------------------------------------------------------------ replaying it

  // Before recovery the leader holds the data, and so does a ready replica.
  function StartRow(o: Own): Row {
    Row(o, {o.leader} + if o.ready then {o.replica} else {})
  }

  ghost predicate WellOwned(o: Own) {
    o.leader != NOBODY && o.leader != o.replica
  }

  // Both copies on available nodes, and nothing left to synchronise.
  ghost predicate Healthy(nodes: map<NodeId, NodeView>, r: Row) {
    && OwnerAvailable(nodes, r.own.leader) && OwnerAvailable(nodes, r.own.replica)
    && r.own.leader != r.own.replica && r.own.ready
    && r.own.leader in r.copies && r.own.replica in r.copies
  }

  // A copy survives, and there is a second node to hold the slot: its own
  // replica if that can still be reached, or any other usable node.
  ghost predicate Repairable(view: View, o: Own) {
    match Classify(view.nodes, o)
    case Unaffected => true
    case Leaderless => UsableNodes(view) - {o.replica} != {}
    case ReplicaLost => OwnerAvailable(view.nodes, o.replica) || UsableNodes(view) - {o.leader} != {}
    case NoSurvivingCopy => false
  }

  lemma TwoNodesRepair(view: View, o: Own)
    requires |UsableNodes(view)| >= 2
    ensures Repairable(view, o) <==> Survives(view.nodes, o)
  {
    forall n: NodeId
      ensures UsableNodes(view) - {n} != {}
    {
      if UsableNodes(view) - {n} == {} {
        assert UsableNodes(view) <= {n};
        SubsetCount(UsableNodes(view), {n});
      }
    }
  }

  lemma SubsetCount<T>(a: set<T>, b: set<T>)
    requires a <= b
    ensures |a| <= |b|
  {
    assert b == a + (b - a);
  }

  // What one slot contributes to the plan.
  ghost function StepsFor(view: View, loads: Loads, v: SlotView): seq<Step> {
    Advance(view, Draft(loads, [], [], []), v).steps
  }

  lemma AdvanceAppends(view: View, d: Draft, v: SlotView)
    ensures Advance(view, d, v).steps == d.steps + StepsFor(view, d.loads, v)
  {
    var e := Draft(d.loads, [], [], []);
    match Classify(view.nodes, v.own)
    case Leaderless =>
      match Pick(UsableNodes(view) - {v.own.replica}, d.loads) {
        case None =>
        case Some(target) =>
          assert d.steps + [Step(Promote, v.number, v.own.replica)] + [Step(AssignReplica, v.number, target), Step(Sync, v.number, target)]
              == d.steps + ([] + [Step(Promote, v.number, v.own.replica)] + [Step(AssignReplica, v.number, target), Step(Sync, v.number, target)]);
      }
    case _ =>
  }

  lemma RefillRow(view: View, t: Table, number: nat, target: NodeId)
    requires number in t && t[number].own.leader in t[number].copies
    requires target in UsableNodes(view) && target != t[number].own.leader && NOBODY !in view.nodes
    ensures var s := [Step(AssignReplica, number, target), Step(Sync, number, target)];
            var l := t[number].own.leader;
            && Replayable(UsableNodes(view), t, s)
            && Replay(t, s) == t[number := Row(Own(l, target, true), {l, target})]
  {
    var s := [Step(AssignReplica, number, target), Step(Sync, number, target)];
    var t1 := Apply(t, s[0]);
    var t2 := Apply(t1, s[1]);
    assert t1[number].copies == {t[number].own.leader};
    assert t2[number].copies == {t[number].own.leader, target};
    assert s[1..][1..] == [];
    assert Replayable(UsableNodes(view), t1, s[1..]) && Replay(t1, s[1..]) == t2;
  }

  // Where a slot ends up, given that its row is the starting one.
  ghost predicate Recovered(view: View, o: Own, r: Row) {
    && (Healthy(view.nodes, r) <==> Repairable(view, o))
    && (Survives(view.nodes, o) ==> OwnerAvailable(view.nodes, r.own.leader) && r.own.leader in r.copies)
    && (!Survives(view.nodes, o) ==> r == StartRow(o))
  }

  lemma {:induction false} ReplayLeaderless(view: View, loads: Loads, v: SlotView, t: Table)
    requires NOBODY !in view.nodes && WellOwned(v.own) && Classify(view.nodes, v.own) == Leaderless
    requires v.number in t && t[v.number] == StartRow(v.own)
    ensures Replayable(UsableNodes(view), t, StepsFor(view, loads, v))
    ensures exists r :: Recovered(view, v.own, r) && Replay(t, StepsFor(view, loads, v)) == t[v.number := r]
  {
    var n, members := v.number, UsableNodes(view);
    var first := [Step(Promote, n, v.own.replica)];
    var t1 := Apply(t, first[0]);
    ReplayOne(members, t, first[0]);
    assert t1[n] == Row(Own(v.own.replica, NOBODY, false), {v.own.replica});
    match Pick(members - {v.own.replica}, loads)
    case None =>
      assert StepsFor(view, loads, v) == first;
      assert Recovered(view, v.own, t1[n]);
    case Some(target) =>
      var rest := [Step(AssignReplica, n, target), Step(Sync, n, target)];
      assert StepsFor(view, loads, v) == first + rest;
      RefillRow(view, t1, n, target);
      ReplayAppend(members, t, first, rest);
      var r := Row(Own(v.own.replica, target, true), {v.own.replica, target});
      assert Recovered(view, v.own, r) && t1[n := r] == t[n := r];
  }

  lemma {:induction false} ReplayReplicaLost(view: View, loads: Loads, v: SlotView, t: Table)
    requires NOBODY !in view.nodes && WellOwned(v.own) && Classify(view.nodes, v.own) == ReplicaLost
    requires v.number in t && t[v.number] == StartRow(v.own)
    ensures Replayable(UsableNodes(view), t, StepsFor(view, loads, v))
    ensures exists r :: Recovered(view, v.own, r) && Replay(t, StepsFor(view, loads, v)) == t[v.number := r]
  {
    var n, members := v.number, UsableNodes(view);
    if OwnerAvailable(view.nodes, v.own.replica) {
      var s := [Step(Sync, n, v.own.replica)];
      assert StepsFor(view, loads, v) == s;
      var t1 := Apply(t, s[0]);
      ReplayOne(members, t, s[0]);
      assert Recovered(view, v.own, t1[n]);
    } else {
      match Pick(members - {v.own.leader}, loads)
      case None =>
        assert StepsFor(view, loads, v) == [];
        assert Recovered(view, v.own, t[n]) && t == t[n := t[n]];
      case Some(target) =>
        assert StepsFor(view, loads, v) == [Step(AssignReplica, n, target), Step(Sync, n, target)];
        RefillRow(view, t, n, target);
        var r := Row(Own(v.own.leader, target, true), {v.own.leader, target});
        assert Recovered(view, v.own, r);
    }
  }

  lemma {:induction false} ReplaySlot(view: View, loads: Loads, v: SlotView, t: Table)
    requires NOBODY !in view.nodes && WellOwned(v.own)
    requires v.number in t && t[v.number] == StartRow(v.own)
    ensures Replayable(UsableNodes(view), t, StepsFor(view, loads, v))
    ensures exists r :: Recovered(view, v.own, r) && Replay(t, StepsFor(view, loads, v)) == t[v.number := r]
  {
    match Classify(view.nodes, v.own)
    case Leaderless => ReplayLeaderless(view, loads, v, t);
    case ReplicaLost => ReplayReplicaLost(view, loads, v, t);
    case Unaffected =>
      assert StepsFor(view, loads, v) == [];
      assert Recovered(view, v.own, t[v.number]) && t == t[v.number := t[v.number]];
    case NoSurvivingCopy =>
      var s := [Step(MarkUnavailable, v.number, NOBODY)];
      assert StepsFor(view, loads, v) == s;
      ReplayOne(UsableNodes(view), t, s[0]);
      assert Apply(t, s[0]) == t;
      assert Recovered(view, v.own, t[v.number]) && t == t[v.number := t[v.number]];
  }

  // The table holds exactly the slots of the view, as observed.
  ghost predicate Observed(t: Table, slots: seq<SlotView>) {
    && (forall i :: 0 <= i < |slots| ==> slots[i].number in t && t[slots[i].number] == StartRow(slots[i].own))
    && (forall n :: n in t ==> exists i :: 0 <= i < |slots| && slots[i].number == n)
  }

  // Replaying the plan of the first k slots recovers those and touches no other.
  lemma {:induction false} ReplayPrefix(view: View, t: Table, slots: seq<SlotView>, k: nat)
    requires NOBODY !in view.nodes && DistinctBy(NUMBER, slots) && k <= |slots|
    requires forall i :: 0 <= i < |slots| ==> WellOwned(slots[i].own)
    requires forall i :: 0 <= i < |slots| ==> slots[i].number in t && t[slots[i].number] == StartRow(slots[i].own)
    ensures var d := AdvanceAll(view, Draft(InitialLoads(view), [], [], []), slots[..k]);
            var u := Replay(t, d.steps);
            && Replayable(UsableNodes(view), t, d.steps) && u.Keys == t.Keys
            && (forall i :: 0 <= i < k ==> Recovered(view, slots[i].own, u[slots[i].number]))
            && (forall i :: k <= i < |slots| ==> u[slots[i].number] == StartRow(slots[i].own))
    decreases k
  {
    var d0 := Draft(InitialLoads(view), [], [], []);
    if k > 0 {
      var v := slots[k - 1];
      ReplayPrefix(view, t, slots, k - 1);
      assert slots[..k][..k - 1] == slots[..k - 1];
      var d := AdvanceAll(view, d0, slots[..k - 1]);
      var u := Replay(t, d.steps);
      AdvanceAppends(view, d, v);
      ReplaySlot(view, d.loads, v, u);
      ReplayAppend(UsableNodes(view), t, d.steps, StepsFor(view, d.loads, v));
      assert forall i, j :: 0 <= i < j < |slots| ==> NUMBER(slots[i]) != NUMBER(slots[j]);
      var r :| Recovered(view, v.own, r) && Replay(u, StepsFor(view, d.loads, v)) == u[v.number := r];
    }
  }

  lemma {:induction false} OrderFacts(view: View, sorted: seq<SlotView>)
    requires DistinctNumbers(view.slots) && InOrder(view, sorted)
    ensures DistinctBy(NUMBER, sorted)
    ensures forall v :: v in sorted <==> v in view.slots
  {
    assert DistinctBy(NUMBER, view.slots);
    DistinctPermuted(NUMBER, view.slots, sorted);
    forall v: SlotView
      ensures v in sorted <==> v in view.slots
    {
      assert v in sorted <==> v in multiset(sorted);
      assert v in view.slots <==> v in multiset(view.slots);
    }
  }

  // Replaying a failover plan on the observed table: every step succeeds and
  // loses nothing; each slot ends with two synchronised copies on available
  // nodes exactly when it was repairable; a slot without a copy is left alone.
  lemma {:induction false} FailoverRecovers(view: View, sorted: seq<SlotView>, plan: Plan, t: Table)
    requires WellFormed(view) && InOrder(view, sorted) && IsPlan(view, sorted, plan)
    requires forall v :: v in view.slots ==> WellOwned(v.own)
    requires Observed(t, view.slots)
    ensures Replayable(UsableNodes(view), t, plan.steps)
    ensures Replay(t, plan.steps).Keys == t.Keys
    ensures forall v :: v in view.slots ==> v.number in t && Recovered(view, v.own, Replay(t, plan.steps)[v.number])
  {
    OrderFacts(view, sorted);
    forall i | 0 <= i < |sorted|
      ensures WellOwned(sorted[i].own) && sorted[i].number in t && t[sorted[i].number] == StartRow(sorted[i].own)
    {
      assert sorted[i] in view.slots;
    }
    ReplayPrefix(view, t, sorted, |sorted|);
    assert sorted[..|sorted|] == sorted;
    var u := Replay(t, plan.steps);
    forall v | v in view.slots
      ensures v.number in t && Recovered(view, v.own, u[v.number])
    {
      assert v in sorted;
      var i :| 0 <= i < |sorted| && sorted[i] == v;
      assert Recovered(view, sorted[i].own, u[sorted[i].number]);
    }
  }

  // The steps of a plan that change who owns a slot.
  ghost predicate Touches(steps: seq<Step>, number: nat) {
    exists i :: 0 <= i < |steps| && steps[i].slot == number && steps[i].kind != MarkUnavailable
  }

  ghost predicate LostIn(view: View, slots: seq<SlotView>, n: nat) {
    exists i :: 0 <= i < |slots| && slots[i].number == n && !Survives(view.nodes, slots[i].own)
  }

  lemma {:induction false} LostInMore(view: View, slots: seq<SlotView>, n: nat)
    requires slots != []
    ensures var k := |slots| - 1;
      LostIn(view, slots, n) <==> LostIn(view, slots[..k], n) || (slots[k].number == n && !Survives(view.nodes, slots[k].own))
  {
    var k := |slots| - 1;
    if i :| 0 <= i < k && slots[..k][i].number == n && !Survives(view.nodes, slots[..k][i].own) {
      assert slots[i] == slots[..k][i];
    }
    if i :| 0 <= i < |slots| && slots[i].number == n && !Survives(view.nodes, slots[i].own) {
      assert i < k ==> slots[..k][i] == slots[i];
    }
  }

  // What one slot adds to the lost ones, and which slots its steps touch.
  lemma {:induction false} AdvanceTouches(view: View, d: Draft, v: SlotView, n: nat)
    ensures var e := Advance(view, d, v);
      && (n in e.unrecoverable <==> n in d.unrecoverable || (n == v.number && !Survives(view.nodes, v.own)))
      && (!Touches(d.steps, n) && (n != v.number || !Survives(view.nodes, v.own)) ==> !Touches(e.steps, n))
  {
    var e := Advance(view, d, v);
    if !Touches(d.steps, n) && (n != v.number || !Survives(view.nodes, v.own)) {
      forall i | 0 <= i < |e.steps|
        ensures e.steps[i].slot != n || e.steps[i].kind == MarkUnavailable
      {
        assert i < |d.steps| ==> e.steps[i] == d.steps[i];
      }
    }
  }

  // Unrecoverable is exactly the slots without a surviving copy, and no step
  // of the plan changes who owns one of them.
  lemma {:induction false} UnrecoverableExactly(view: View, d: Draft, slots: seq<SlotView>, n: nat)
    ensures n in AdvanceAll(view, d, slots).unrecoverable <==> n in d.unrecoverable || LostIn(view, slots, n)
    ensures !Touches(d.steps, n) && (forall i :: 0 <= i < |slots| && slots[i].number == n ==> !Survives(view.nodes, slots[i].own)) ==>
      !Touches(AdvanceAll(view, d, slots).steps, n)
    decreases |slots|
  {
    if slots != [] {
      var k := |slots| - 1;
      var e := AdvanceAll(view, d, slots[..k]);
      UnrecoverableExactly(view, d, slots[..k], n);
      AdvanceTouches(view, e, slots[k], n);
      LostInMore(view, slots, n);
      if forall i :: 0 <= i < |slots| && slots[i].number == n ==> !Survives(view.nodes, slots[i].own) {
        assert forall i :: 0 <= i < k ==> slots[..k][i] == slots[i];
      }
    }
  }

  ghost predicate Promotes(steps: seq<Step>, number: nat) {
    exists i :: 0 <= i < |steps| && steps[i].slot == number && steps[i].kind == Promote
  }

  // The slots whose writes are blocked are exactly those that get a new leader.
  ghost predicate BlocksPromoted(d: Draft) {
    forall n :: n in d.blocked <==> Promotes(d.steps, n)
  }

  lemma {:induction false} PromotesMore(steps: seq<Step>, more: seq<Step>, n: nat)
    ensures Promotes(steps + more, n) <==> Promotes(steps, n) || Promotes(more, n)
  {
    var all := steps + more;
    if Promotes(steps, n) {
      var i :| 0 <= i < |steps| && steps[i].slot == n && steps[i].kind == Promote;
      assert all[i] == steps[i];
    }
    if Promotes(more, n) {
      var i :| 0 <= i < |more| && more[i].slot == n && more[i].kind == Promote;
      assert all[|steps| + i] == more[i];
    }
  }

  lemma {:induction false} AdvanceBlocks(view: View, d: Draft, v: SlotView)
    requires BlocksPromoted(d)
    ensures BlocksPromoted(Advance(view, d, v))
  {
    var e := Advance(view, d, v);
    var more := e.steps[|d.steps|..];
    assert e.steps == d.steps + more;
    forall n
      ensures n in e.blocked <==> Promotes(e.steps, n)
    {
      PromotesMore(d.steps, more, n);
      assert Promotes(more, n) <==> Classify(view.nodes, v.own) == Leaderless && n == v.number by {
        if Classify(view.nodes, v.own) == Leaderless && n == v.number {
          assert more[0] == Step(Promote, v.number, v.own.replica);
        }
      }
    }
  }

  lemma {:induction false} PlanBlocksPromoted(view: View, slots: seq<SlotView>)
    ensures BlocksPromoted(AdvanceAll(view, Draft(InitialLoads(view), [], [], []), slots))
  {
    if slots != [] {
      PlanBlocksPromoted(view, slots[..|slots| - 1]);
      AdvanceBlocks(view, AdvanceAll(view, Draft(InitialLoads(view), [], [], []), slots[..|slots| - 1]), slots[|slots| - 1]);
    }
  }
}
