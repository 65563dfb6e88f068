// Plan steps and what replaying them through the metadata operations does to
// the slots: ownership, and which nodes hold a full copy of the data.
module Plans {
  import opened Slots

  datatype StepKind = Promote | AssignReplica | Sync | MarkUnavailable

  datatype Step = Step(kind: StepKind, slot: nat, target: NodeId)

  datatype PlanKind = Recovery | Rebalancing

  // A plan as it is committed. Its identifier is a digest of these fields.
  datatype Plan = Plan(
    kind: PlanKind, epoch: nat, dead: seq<NodeId>,
    steps: seq<Step>, unrecoverable: seq<nat>, blocked: seq<nat>)

  // A slot as a replay sees it: its owners, and the nodes known to hold every
  // write. Reassigning or promoting keeps only the leader's copy as known.
  datatype Row = Row(own: Own, copies: set<NodeId>)

  type Table = map<nat, Row>

  // The leader holds the data, and so does a replica that counts as ready.
  ghost predicate SafeRow(r: Row) {
    && r.own.leader != NOBODY && r.own.leader != r.own.replica
    && r.own.leader in r.copies
    && (r.own.ready ==> r.own.replica != NOBODY && r.own.replica in r.copies)
  }

  ghost predicate Safe(t: Table) {
    forall n :: n in t ==> SafeRow(t[n])
  }

  // A step whose metadata operation succeeds and that loses nothing: a promotion
  // only of a ready replica that is the step's target.
  predicate Applicable(members: set<NodeId>, t: Table, s: Step) {
    s.kind == MarkUnavailable ||
    (s.slot in t &&
     var o := t[s.slot].own;
     match s.kind
     case Promote => o.replica != NOBODY && o.replica == s.target && o.ready
     case AssignReplica => s.target in members && s.target != NOBODY && s.target != o.leader
     case Sync => s.target != NOBODY && s.target == o.replica && s.target != o.leader
     case MarkUnavailable => true)
  }

  function ApplyRow(r: Row, s: Step): Row {
    match s.kind
    case Promote => Row(PromoteOwn(r.own), r.copies * {r.own.replica})
    case AssignReplica => Row(AssignOwn(r.own, s.target), r.copies * {r.own.leader})
    case Sync => Row(ReadyOwn(r.own),
                     if r.own.leader in r.copies then r.copies + {s.target} else r.copies - {s.target})
    case MarkUnavailable => r
  }

  function Apply(t: Table, s: Step): Table {
    if s.slot in t then t[s.slot := ApplyRow(t[s.slot], s)] else t
  }

  // Every step of the plan is applicable when its turn comes.
  predicate Replayable(members: set<NodeId>, t: Table, steps: seq<Step>)
    decreases |steps|
  {
    steps == [] || (Applicable(members, t, steps[0]) && Replayable(members, Apply(t, steps[0]), steps[1..]))
  }

  function Replay(t: Table, steps: seq<Step>): Table
    decreases |steps|
  {
    if steps == [] then t else Replay(Apply(t, steps[0]), steps[1..])
  }

  lemma ReplayOne(members: set<NodeId>, t: Table, s: Step)
    ensures Replay(t, [s]) == Apply(t, s)
    ensures Replayable(members, t, [s]) <==> Applicable(members, t, s)
  {
    assert [s][1..] == [];
    assert Replay(Apply(t, s), [s][1..]) == Apply(t, s);
  }

  lemma {:induction false} ReplayAppend(members: set<NodeId>, t: Table, a: seq<Step>, b: seq<Step>)
    ensures Replay(t, a + b) == Replay(Replay(t, a), b)
    ensures Replayable(members, t, a + b) <==> Replayable(members, t, a) && Replayable(members, Replay(t, a), b)
    decreases |a|
  {
    if a == [] {
      assert a + b == b;
    } else {
      assert (a + b)[1..] == a[1..] + b && (a + b)[0] == a[0];
      ReplayAppend(members, Apply(t, a[0]), a[1..], b);
    }
  }

  lemma ApplyKeepsSafe(members: set<NodeId>, t: Table, s: Step)
    requires Safe(t) && Applicable(members, t, s)
    ensures Safe(Apply(t, s)) && Apply(t, s).Keys == t.Keys
  {
  }

  // Stop a replayable plan anywhere: no slot is led by a node without its data,
  // and every promotion so far was of a ready replica.
  lemma {:induction false} PrefixSafe(members: set<NodeId>, t: Table, steps: seq<Step>, k: nat)
    requires Safe(t) && Replayable(members, t, steps) && k <= |steps|
    ensures Replayable(members, t, steps[..k]) && Safe(Replay(t, steps[..k]))
    ensures k < |steps| ==> Applicable(members, Replay(t, steps[..k]), steps[k])
    decreases |steps|
  {
    if k > 0 {
      ApplyKeepsSafe(members, t, steps[0]);
      PrefixSafe(members, Apply(t, steps[0]), steps[1..], k - 1);
      assert steps[..k] == [steps[0]] + steps[1..][..k - 1];
    }
  }

  // ------------------------------------------------- plans in chunks of steps

  ghost function Flat(chunks: seq<seq<Step>>): seq<Step> {
    if chunks == [] then [] else Flat(chunks[..|chunks| - 1]) + chunks[|chunks| - 1]
  }

  lemma {:induction false} FlatOn(chunks: seq<seq<Step>>, steps: seq<Step>)
    ensures Flat(chunks + [steps]) == Flat(chunks) + steps
  {
    assert (chunks + [steps])[..|chunks|] == chunks;
  }

  // Which chunk a step is in.
  lemma {:induction false} Locate(chunks: seq<seq<Step>>, i: nat) returns (k: nat, j: nat)
    requires i < |Flat(chunks)|
    ensures k < |chunks| && j < |chunks[k]| && Flat(chunks)[i] == chunks[k][j]
    ensures Flat(chunks)[..i] == Flat(chunks[..k]) + chunks[k][..j]
    decreases |chunks|
  {
    var n := |chunks| - 1;
    var front := Flat(chunks[..n]);
    if i < |front| {
      k, j := Locate(chunks[..n], i);
      assert chunks[..n][..k] == chunks[..k];
      assert Flat(chunks)[..i] == front[..i];
    } else {
      k, j := n, i - |front|;
      assert Flat(chunks)[..i] == front + chunks[n][..j];
    }
  }
}
