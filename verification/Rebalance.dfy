// Rebalancing: move leaders, then replicas, from the fullest node to the
// emptiest until the skew is within the threshold or the move cap is reached.
module Rebalance {
  import opened Options
  import opened Ordering
  import opened Slots
  import opened Sorting
  import opened Plans
  import opened Views

  datatype Placement = Placement(number: nat, leader: NodeId, replica: NodeId)

  function Bit(b: bool): nat {
    if b then 1 else 0
  }

  function Leads(slots: seq<Placement>, id: NodeId): nat {
    if slots == [] then 0 else Bit(slots[|slots| - 1].leader == id) + Leads(slots[..|slots| - 1], id)
  }

  function Follows(slots: seq<Placement>, id: NodeId): nat {
    if slots == [] then 0 else Bit(slots[|slots| - 1].replica == id) + Follows(slots[..|slots| - 1], id)
  }

  ghost predicate Distinct(slots: seq<Placement>) {
    forall i, j :: 0 <= i < j < |slots| ==> slots[i].number != slots[j].number
  }

  // Every slot has two different owners among the nodes.
  ghost predicate Housed(nodes: set<NodeId>, slots: seq<Placement>) {
    forall i :: 0 <= i < |slots| ==>
      slots[i].leader in nodes && slots[i].replica in nodes && slots[i].leader != slots[i].replica
  }

  lemma {:induction false} LeadsUpdate(slots: seq<Placement>, i: nat, p: Placement, id: NodeId)
    requires i < |slots|
    ensures Leads(slots[i := p], id) + Bit(slots[i].leader == id) == Leads(slots, id) + Bit(p.leader == id)
  {
    var n := |slots| - 1;
    if i < n {
      LeadsUpdate(slots[..n], i, p, id);
      assert slots[i := p][..n] == slots[..n][i := p];
    } else {
      assert slots[i := p][..n] == slots[..n];
    }
  }

  lemma {:induction false} FollowsUpdate(slots: seq<Placement>, i: nat, p: Placement, id: NodeId)
    requires i < |slots|
    ensures Follows(slots[i := p], id) + Bit(slots[i].replica == id) == Follows(slots, id) + Bit(p.replica == id)
  {
    var n := |slots| - 1;
    if i < n {
      FollowsUpdate(slots[..n], i, p, id);
      assert slots[i := p][..n] == slots[..n][i := p];
    } else {
      assert slots[i := p][..n] == slots[..n];
    }
  }

  lemma {:induction false} LeadsWitness(slots: seq<Placement>, id: NodeId) returns (i: nat)
    requires Leads(slots, id) > 0
    ensures i < |slots| && slots[i].leader == id
  {
    i := |slots| - 1;
    if slots[i].leader != id {
      i := LeadsWitness(slots[..i], id);
    }
  }

  // ------------------------------------------------------------ replaying

  function RowOf(p: Placement): Row {
    Row(Own(p.leader, p.replica, true), {p.leader, p.replica})
  }

  // The table holds exactly the slots of a placement, all of them ready.
  ghost predicate Describes(t: Table, slots: seq<Placement>) {
    && (forall i :: 0 <= i < |slots| ==> slots[i].number in t && t[slots[i].number] == RowOf(slots[i]))
    && (forall n :: n in t ==> exists i :: 0 <= i < |slots| && slots[i].number == n)
  }

  // Copy to the target, hand over, and rebuild the old leader as replica.
  function LeaderMove(p: Placement, target: NodeId): seq<Step> {
    [ Step(AssignReplica, p.number, target),
      Step(Sync, p.number, target),
      Step(Promote, p.number, target),
      Step(AssignReplica, p.number, p.leader),
      Step(Sync, p.number, p.leader) ]
  }

  function ReplicaMove(p: Placement, target: NodeId): seq<Step> {
    [ Step(AssignReplica, p.number, target), Step(Sync, p.number, target) ]
  }

  lemma LeaderMoveRow(members: set<NodeId>, t: Table, p: Placement, target: NodeId)
    requires p.number in t && t[p.number] == RowOf(p)
    requires target in members && p.leader in members && NOBODY !in members && target != p.leader
    ensures Replayable(members, t, LeaderMove(p, target))
    ensures Replay(t, LeaderMove(p, target)) == t[p.number := RowOf(Placement(p.number, target, p.leader))]
  {
    var s := LeaderMove(p, target);
    var n := p.number;
    var t1 := Apply(t, s[0]);
    var t2 := Apply(t1, s[1]);
    var t3 := Apply(t2, s[2]);
    var t4 := Apply(t3, s[3]);
    var t5 := Apply(t4, s[4]);
    assert t2[n].copies == {p.leader, target};
    assert t3[n] == Row(Own(target, NOBODY, false), {target});
    assert t5[n].copies == {target, p.leader};
    assert s[1..][1..] == s[2..] && s[2..][1..] == s[3..] && s[3..][1..] == s[4..] && s[4..][1..] == [];
    assert Replayable(members, t4, s[4..]) && Replay(t4, s[4..]) == t5;
    assert Replayable(members, t3, s[3..]) && Replay(t3, s[3..]) == t5;
    assert Replayable(members, t2, s[2..]) && Replay(t2, s[2..]) == t5;
    assert Replayable(members, t1, s[1..]) && Replay(t1, s[1..]) == t5;
  }

  lemma ReplicaMoveRow(members: set<NodeId>, t: Table, p: Placement, target: NodeId)
    requires p.number in t && t[p.number] == RowOf(p)
    requires target in members && NOBODY !in members && target != p.leader
    ensures Replayable(members, t, ReplicaMove(p, target))
    ensures Replay(t, ReplicaMove(p, target)) == t[p.number := RowOf(Placement(p.number, p.leader, target))]
  {
    var s := ReplicaMove(p, target);
    var t1 := Apply(t, s[0]);
    var t2 := Apply(t1, s[1]);
    assert t2[p.number].copies == {p.leader, target};
    assert s[1..][1..] == [];
    assert Replayable(members, t1, s[1..]) && Replay(t1, s[1..]) == t2;
  }

  lemma DescribesUpdate(t: Table, slots: seq<Placement>, i: nat, p: Placement)
    requires Describes(t, slots) && Distinct(slots) && i < |slots| && p.number == slots[i].number
    ensures Describes(t[p.number := RowOf(p)], slots[i := p])
  {
    var t', slots' := t[p.number := RowOf(p)], slots[i := p];
    forall n | n in t'
      ensures exists k :: 0 <= k < |slots'| && slots'[k].number == n
    {
      assert n in t;
      var k :| 0 <= k < |slots| && slots[k].number == n;
      assert slots'[k].number == n;
    }
  }

  // ------------------------------------------------------------- choosing

  ghost predicate OnlyExtremes(nodes: seq<NodeId>, counts: Loads, source: NodeId, target: NodeId) {
    forall i {:trigger nodes[i]} :: 0 <= i < |nodes| ==>
      && (nodes[i] == target || Lighter(counts, target, nodes[i]))
      && (nodes[i] == source || Lighter(counts, nodes[i], source))
  }

  // The fullest and the emptiest node, ties broken by name.
  method CountExtremes(nodes: seq<NodeId>, counts: Loads) returns (source: NodeId, target: NodeId, skew: int)
    requires nodes != []
    ensures source in nodes && target in nodes
    ensures forall n :: n in nodes ==> Load(counts, target) <= Load(counts, n) <= Load(counts, source)
    ensures OnlyExtremes(nodes, counts, source, target)
    ensures skew == Load(counts, source) - Load(counts, target)
  {
    var sorted := SortByLoad(nodes, counts);
    assert |sorted| == |multiset(sorted)| == |nodes|;
    target, source := sorted[0], sorted[|sorted| - 1];
    assert forall n :: n in multiset(sorted) <==> n in multiset(nodes);
    assert source in multiset(sorted) && target in multiset(sorted);
    forall n | n in nodes
      ensures (n == target || Lighter(counts, target, n)) && (n == source || Lighter(counts, n, source))
    {
      assert n in multiset(sorted);
      var i :| 0 <= i < |sorted| && sorted[i] == n;
      LighterTotal(counts, target, n);
      LighterTotal(counts, n, source);
    }
    skew := Load(counts, source) - Load(counts, target);
  }

  predicate LeaderMovable(p: Placement, moved: set<nat>, source: NodeId, target: NodeId) {
    p.number !in moved && p.leader == source && target != source
  }

  predicate ReplicaMovable(p: Placement, moved: set<nat>, source: NodeId, target: NodeId) {
    p.number !in moved && p.replica == source && p.leader != target
  }

  // The first slot whose leader can move, or -1.
  method FindLeaderMove(slots: seq<Placement>, moved: set<nat>, source: NodeId, target: NodeId) returns (index: int)
    ensures -1 <= index < |slots|
    ensures index >= 0 ==> LeaderMovable(slots[index], moved, source, target)
    ensures forall i :: 0 <= i < (if index < 0 then |slots| else index) ==> !LeaderMovable(slots[i], moved, source, target)
  {
    for i := 0 to |slots|
      invariant forall k :: 0 <= k < i ==> !LeaderMovable(slots[k], moved, source, target)
    {
      if slots[i].number !in moved && slots[i].leader == source && target != source {
        return i;
      }
    }
    return -1;
  }

  // The first slot whose replica can move, or -1.
  method FindReplicaMove(slots: seq<Placement>, moved: set<nat>, source: NodeId, target: NodeId) returns (index: int)
    ensures -1 <= index < |slots|
    ensures index >= 0 ==> ReplicaMovable(slots[index], moved, source, target)
    ensures forall i :: 0 <= i < (if index < 0 then |slots| else index) ==> !ReplicaMovable(slots[i], moved, source, target)
  {
    for i := 0 to |slots|
      invariant forall k :: 0 <= k < i ==> !ReplicaMovable(slots[k], moved, source, target)
    {
      if slots[i].number !in moved && slots[i].replica == source && slots[i].leader != target {
        return i;
      }
    }
    return -1;
  }

  // ------------------------------------------------- which moves are made

  // Both loops, by the owner they move.
  datatype Side = Leaders | Replicas

  function OwnerOn(side: Side, p: Placement): NodeId {
    if side.Leaders? then p.leader else p.replica
  }

  function CountOn(side: Side, slots: seq<Placement>, id: NodeId): nat {
    if side.Leaders? then Leads(slots, id) else Follows(slots, id)
  }

  function ShiftedOn(side: Side, p: Placement, target: NodeId): Placement {
    if side.Leaders? then Moved(p, target) else p.(replica := target)
  }

  function StepsOn(side: Side, p: Placement, target: NodeId): seq<Step> {
    if side.Leaders? then LeaderMove(p, target) else ReplicaMove(p, target)
  }

  // A move: a slot, by its place in the order of numbers, and where it goes.
  datatype Shift = Shift(index: nat, target: NodeId)

  // The node with the most and the one with the least, ties broken by name.
  ghost predicate Ends(side: Side, nodes: seq<NodeId>, slots: seq<Placement>, source: NodeId, target: NodeId) {
    && source in nodes && target in nodes
    && forall n :: n in nodes ==>
         && (n == source || Beyond(CountOn(side, slots, n), n, CountOn(side, slots, source), source))
         && (n == target || Beyond(CountOn(side, slots, target), target, CountOn(side, slots, n), n))
  }

  ghost predicate Beyond(a: nat, m: NodeId, b: nat, n: NodeId) {
    a < b || (a == b && Lex(m, n))
  }

  // A slot of the source that this loop, which began at start, has not moved.
  ghost predicate Free(side: Side, start: seq<Placement>, slots: seq<Placement>, i: nat, source: NodeId, target: NodeId) {
    && i < |slots| && i < |start| && OwnerOn(side, slots[i]) == source == OwnerOn(side, start[i])
    && (side.Replicas? ==> slots[i].leader != target)
  }

  // The move that is due: while the skew is above the threshold, the first free
  // slot goes from the fullest node to the emptiest.
  ghost predicate Due(side: Side, nodes: seq<NodeId>, threshold: nat, start: seq<Placement>, slots: seq<Placement>, s: Shift) {
    s.index < |slots| &&
    var source := OwnerOn(side, slots[s.index]);
    && Ends(side, nodes, slots, source, s.target)
    && CountOn(side, slots, source) > CountOn(side, slots, s.target) + threshold
    && Free(side, start, slots, s.index, source, s.target)
    && (forall i :: 0 <= i < s.index ==> !Free(side, start, slots, i, source, s.target))
  }

  ghost predicate NoneDue(side: Side, nodes: seq<NodeId>, threshold: nat, start: seq<Placement>, slots: seq<Placement>) {
    forall s :: !Due(side, nodes, threshold, start, slots, s)
  }

  // The moves a loop has made, the placements it has passed and the steps of
  // each move.
  datatype Trail = Trail(path: seq<Shift>, placed: seq<seq<Placement>>, chunks: seq<seq<Step>>)

  // Move k was due when it was made.
  ghost predicate Hop(side: Side, nodes: seq<NodeId>, threshold: nat, tr: Trail, k: nat) {
    && k < |tr.path| && k + 1 < |tr.placed| && k < |tr.chunks|
    && var s, p := tr.path[k], tr.placed[k];
    && Due(side, nodes, threshold, tr.placed[0], p, s)
    && tr.placed[k + 1] == p[s.index := ShiftedOn(side, p[s.index], s.target)]
    && tr.chunks[k] == StepsOn(side, p[s.index], s.target)
  }

  ghost predicate Walk(side: Side, nodes: seq<NodeId>, threshold: nat, tr: Trail) {
    && |tr.placed| == |tr.path| + 1 && |tr.chunks| == |tr.path|
    && forall k {:trigger Hop(side, nodes, threshold, tr, k)} :: 0 <= k < |tr.path| ==> Hop(side, nodes, threshold, tr, k)
  }

  ghost predicate From(tr: Trail, slots: seq<Placement>) {
    tr.placed != [] && tr.placed[0] == slots
  }

  ghost predicate To(tr: Trail, slots: seq<Placement>) {
    tr.placed != [] && tr.placed[|tr.placed| - 1] == slots
  }

  // The slot of each move.
  ghost function Heads(chunks: seq<seq<Step>>): seq<nat> {
    seq(|chunks|, k requires 0 <= k < |chunks| => if chunks[k] == [] then 0 else chunks[k][0].slot)
  }

  ghost function Longer(tr: Trail, s: Shift, slots: seq<Placement>, steps: seq<Step>): Trail {
    Trail(tr.path + [s], tr.placed + [slots], tr.chunks + [steps])
  }

  lemma {:induction false} HopStays(
    side: Side, nodes: seq<NodeId>, threshold: nat, tr: Trail, k: nat, s: Shift, slots: seq<Placement>, steps: seq<Step>)
    requires Hop(side, nodes, threshold, tr, k)
    ensures Hop(side, nodes, threshold, Longer(tr, s, slots, steps), k)
  {
  }

  lemma {:induction false} WalkOn(side: Side, nodes: seq<NodeId>, threshold: nat, tr: Trail, p: seq<Placement>, s: Shift)
    requires Walk(side, nodes, threshold, tr) && To(tr, p) && Due(side, nodes, threshold, tr.placed[0], p, s)
    ensures var q := p[s.index := ShiftedOn(side, p[s.index], s.target)];
      Walk(side, nodes, threshold, Longer(tr, s, q, StepsOn(side, p[s.index], s.target)))
  {
    var q, c := p[s.index := ShiftedOn(side, p[s.index], s.target)], StepsOn(side, p[s.index], s.target);
    var longer := Longer(tr, s, q, c);
    forall k | 0 <= k < |longer.path|
      ensures Hop(side, nodes, threshold, longer, k)
    {
      if k < |tr.path| {
        HopStays(side, nodes, threshold, tr, k, s, q, c);
      }
    }
  }

  lemma {:induction false} HeadsOn(chunks: seq<seq<Step>>, steps: seq<Step>)
    requires steps != []
    ensures Heads(chunks + [steps]) == Heads(chunks) + [steps[0].slot]
  {
  }

  // Which slots a loop has moved: those with another owner than at its start.
  ghost predicate MovedOn(side: Side, start: seq<Placement>, slots: seq<Placement>, moved: set<nat>) {
    && |slots| == |start| && moved <= Numbers(start)
    && forall i :: 0 <= i < |slots| ==>
         && slots[i].number == start[i].number
         && (slots[i].number in moved <==> OwnerOn(side, slots[i]) != OwnerOn(side, start[i]))
  }

  // What the loop has written down of its way.
  ghost predicate Written(start: Progress, g: Progress, tr: Trail) {
    && From(tr, start.slots) && To(tr, g.slots) && g.moves == start.moves + |tr.path|
    && g.steps == start.steps + Flat(tr.chunks) && g.blocked == start.blocked + Heads(tr.chunks)
  }

  // A loop has come this way.
  ghost predicate Traced(side: Side, nodes: seq<NodeId>, threshold: nat, start: Progress, g: Progress, tr: Trail) {
    && Walk(side, nodes, threshold, tr) && Written(start, g, tr)
    && MovedOn(side, start.slots, g.slots, g.moved) && |g.moved| == |tr.path|
  }

  ghost function Unmoved(slots: seq<Placement>): Trail {
    Trail([], [slots], [])
  }

  lemma {:induction false} TracedNowhere(side: Side, nodes: seq<NodeId>, threshold: nat, start: Progress, g: Progress)
    requires g == start.(moved := {})
    ensures Traced(side, nodes, threshold, start, g, Unmoved(start.slots))
  {
    assert start.steps + [] == start.steps && start.blocked + [] == start.blocked;
  }

  lemma {:induction false} EndsAre(side: Side, nodes: seq<NodeId>, slots: seq<Placement>, counts: Loads, source: NodeId, target: NodeId)
    requires source in nodes && target in nodes && OnlyExtremes(nodes, counts, source, target)
    requires forall n :: n in nodes ==> Load(counts, n) == CountOn(side, slots, n)
    ensures Ends(side, nodes, slots, source, target)
  {
    forall n | n in nodes
      ensures n == source || Beyond(CountOn(side, slots, n), n, CountOn(side, slots, source), source)
      ensures n == target || Beyond(CountOn(side, slots, target), target, CountOn(side, slots, n), n)
    {
      var i :| 0 <= i < |nodes| && nodes[i] == n;
    }
  }

  lemma {:induction false} EndsUnique(side: Side, nodes: seq<NodeId>, slots: seq<Placement>, a: NodeId, b: NodeId, c: NodeId, d: NodeId)
    requires Ends(side, nodes, slots, a, b) && Ends(side, nodes, slots, c, d)
    ensures a == c && b == d
  {
    if a != c && Lex(a, c) {
      LexAsymmetric(a, c);
    }
    if b != d && Lex(b, d) {
      LexAsymmetric(b, d);
    }
  }

  // At most one move is due.
  lemma {:induction false} DueUnique(side: Side, nodes: seq<NodeId>, threshold: nat, start: seq<Placement>, slots: seq<Placement>, s: Shift, t: Shift)
    requires Due(side, nodes, threshold, start, slots, s) && Due(side, nodes, threshold, start, slots, t)
    ensures s == t
  {
    EndsUnique(side, nodes, slots, OwnerOn(side, slots[s.index]), s.target, OwnerOn(side, slots[t.index]), t.target);
  }

  lemma {:induction false} NothingDue(side: Side, nodes: seq<NodeId>, threshold: nat, start: seq<Placement>, slots: seq<Placement>,
                                      source: NodeId, target: NodeId)
    requires Ends(side, nodes, slots, source, target)
    requires CountOn(side, slots, source) <= CountOn(side, slots, target) + threshold
      || forall i :: 0 <= i < |slots| ==> !Free(side, start, slots, i, source, target)
    ensures NoneDue(side, nodes, threshold, start, slots)
  {
    forall s | Due(side, nodes, threshold, start, slots, s)
      ensures false
    {
      EndsUnique(side, nodes, slots, OwnerOn(side, slots[s.index]), s.target, source, target);
    }
  }

  lemma {:induction false} MovedOneMore(side: Side, start: seq<Placement>, slots: seq<Placement>, moved: set<nat>, i: nat, target: NodeId)
    requires MovedOn(side, start, slots, moved) && Distinct(slots) && i < |slots|
    requires OwnerOn(side, slots[i]) == OwnerOn(side, start[i]) != target
    ensures MovedOn(side, start, slots[i := ShiftedOn(side, slots[i], target)], moved + {slots[i].number})
    ensures slots[i].number !in moved
  {
    assert start[i].number in Numbers(start);
  }

  lemma {:induction false} WrittenOn(start: Progress, g: Progress, h: Progress, tr: Trail, s: Shift, steps: seq<Step>)
    requires Written(start, g, tr) && h.steps == g.steps + steps && h.moves == g.moves + 1
    requires steps != [] && h.blocked == g.blocked + [steps[0].slot]
    ensures Written(start, h, Longer(tr, s, h.slots, steps))
  {
    FlatOn(tr.chunks, steps);
    HeadsOn(tr.chunks, steps);
  }

  // A loop has made the move that was due.
  ghost predicate Makes(side: Side, g: Progress, h: Progress, s: Shift) {
    && s.index < |g.slots|
    && h.slots == g.slots[s.index := ShiftedOn(side, g.slots[s.index], s.target)]
    && h.steps == g.steps + StepsOn(side, g.slots[s.index], s.target)
    && h.blocked == g.blocked + [g.slots[s.index].number]
    && h.moved == g.moved + {g.slots[s.index].number} && h.moves == g.moves + 1
  }

  ghost function Continued(side: Side, g: Progress, h: Progress, tr: Trail, s: Shift): Trail
    requires s.index < |g.slots|
  {
    Longer(tr, s, h.slots, StepsOn(side, g.slots[s.index], s.target))
  }

  lemma {:induction false} DueMoves(side: Side, nodes: seq<NodeId>, threshold: nat, start: seq<Placement>, slots: seq<Placement>, s: Shift)
    requires Due(side, nodes, threshold, start, slots, s)
    ensures s.index < |slots| && s.index < |start| && OwnerOn(side, slots[s.index]) == OwnerOn(side, start[s.index]) != s.target
  {
  }

  lemma {:induction false} TracedOn(side: Side, nodes: seq<NodeId>, threshold: nat, start: Progress, g: Progress, h: Progress, tr: Trail, s: Shift)
    requires Traced(side, nodes, threshold, start, g, tr) && Distinct(g.slots)
    requires Due(side, nodes, threshold, start.slots, g.slots, s) && Makes(side, g, h, s)
    ensures Traced(side, nodes, threshold, start, h, Continued(side, g, h, tr, s))
  {
    WalkOn(side, nodes, threshold, tr, g.slots, s);
    WrittenOn(start, g, h, tr, s, StepsOn(side, g.slots[s.index], s.target));
    DueMoves(side, nodes, threshold, start.slots, g.slots, s);
    MovedOneMore(side, start.slots, g.slots, g.moved, s.index, s.target);
  }

  // What the loops look for is what is free.
  lemma {:induction false} FreeIsMovable(
    side: Side, start: seq<Placement>, slots: seq<Placement>, moved: set<nat>, i: nat, source: NodeId, target: NodeId)
    requires MovedOn(side, start, slots, moved) && i < |slots| && source != target
    ensures Free(side, start, slots, i, source, target) <==>
      if side.Leaders? then LeaderMovable(slots[i], moved, source, target) else ReplicaMovable(slots[i], moved, source, target)
  {
  }

  ghost predicate Movable(side: Side, p: Placement, moved: set<nat>, source: NodeId, target: NodeId) {
    if side.Leaders? then LeaderMovable(p, moved, source, target) else ReplicaMovable(p, moved, source, target)
  }

  // A loop that finds a slot has found the move that is due, and one that finds
  // none has nothing to do.
  lemma {:induction false} FoundIsDue(side: Side, nodes: seq<NodeId>, threshold: nat, start: seq<Placement>, slots: seq<Placement>,
                                      moved: set<nat>, source: NodeId, target: NodeId, i: nat)
    requires Ends(side, nodes, slots, source, target) && CountOn(side, slots, source) > CountOn(side, slots, target) + threshold
    requires MovedOn(side, start, slots, moved) && i < |slots| && Movable(side, slots[i], moved, source, target)
    requires forall k :: 0 <= k < i ==> !Movable(side, slots[k], moved, source, target)
    ensures Due(side, nodes, threshold, start, slots, Shift(i, target))
  {
    forall k | 0 <= k <= i
      ensures Free(side, start, slots, k, source, target) <==> Movable(side, slots[k], moved, source, target)
    {
      FreeIsMovable(side, start, slots, moved, k, source, target);
    }
  }

  lemma {:induction false} NoneFoundNoneDue(side: Side, nodes: seq<NodeId>, threshold: nat, start: seq<Placement>, slots: seq<Placement>,
                                            moved: set<nat>, source: NodeId, target: NodeId)
    requires Ends(side, nodes, slots, source, target) && CountOn(side, slots, source) > CountOn(side, slots, target) + threshold
    requires MovedOn(side, start, slots, moved) && forall k :: 0 <= k < |slots| ==> !Movable(side, slots[k], moved, source, target)
    ensures NoneDue(side, nodes, threshold, start, slots)
  {
    forall k | 0 <= k < |slots|
      ensures !Free(side, start, slots, k, source, target)
    {
      FreeIsMovable(side, start, slots, moved, k, source, target);
    }
    NothingDue(side, nodes, threshold, start, slots, source, target);
  }

  // One look of a loop: the extremes and the first movable slot, or -1.
  lemma {:induction false} LookedUp(side: Side, nodes: seq<NodeId>, threshold: nat, start: Progress, g: Progress, counts: Loads, tr: Trail,
                                    source: NodeId, target: NodeId, i: int)
    requires Traced(side, nodes, threshold, start, g, tr) && source in nodes && target in nodes
    requires OnlyExtremes(nodes, counts, source, target) && forall n :: n in nodes ==> Load(counts, n) == CountOn(side, g.slots, n)
    requires Load(counts, source) - Load(counts, target) > threshold && -1 <= i < |g.slots|
    requires i >= 0 ==> Movable(side, g.slots[i], g.moved, source, target)
    requires forall k :: 0 <= k < (if i < 0 then |g.slots| else i) ==> !Movable(side, g.slots[k], g.moved, source, target)
    ensures i >= 0 ==> Due(side, nodes, threshold, start.slots, g.slots, Shift(i, target))
    ensures i < 0 ==> NoneDue(side, nodes, threshold, start.slots, g.slots)
  {
    EndsAre(side, nodes, g.slots, counts, source, target);
    if i >= 0 {
      FoundIsDue(side, nodes, threshold, start.slots, g.slots, g.moved, source, target, i);
    } else {
      NoneFoundNoneDue(side, nodes, threshold, start.slots, g.slots, g.moved, source, target);
    }
  }

  lemma {:induction false} CloseEnough(side: Side, nodes: seq<NodeId>, threshold: nat, start: seq<Placement>, slots: seq<Placement>, counts: Loads,
                                       source: NodeId, target: NodeId)
    requires source in nodes && target in nodes
    requires OnlyExtremes(nodes, counts, source, target) && forall n :: n in nodes ==> Load(counts, n) == CountOn(side, slots, n)
    requires Load(counts, source) - Load(counts, target) <= threshold
    ensures NoneDue(side, nodes, threshold, start, slots)
  {
    EndsAre(side, nodes, slots, counts, source, target);
    NothingDue(side, nodes, threshold, start, slots, source, target);
  }

  // ----------------------------------------------------- the leader loop

  ghost predicate Within(nodes: seq<NodeId>, slots: seq<Placement>, k: int) {
    forall a, b :: a in nodes && b in nodes ==> Leads(slots, a) <= Leads(slots, b) + k
  }

  ghost predicate Bounded(nodes: seq<NodeId>, slots: seq<Placement>, lo: int, hi: int) {
    forall n :: n in nodes ==> lo <= Leads(slots, n) <= hi
  }

  ghost function Numbers(slots: seq<Placement>): set<nat> {
    set i | 0 <= i < |slots| :: slots[i].number
  }

  // A node that has received a leader is never more than one above the
  // emptiest node, and it leads every slot that has been moved.
  ghost predicate LeaderInv(nodes: seq<NodeId>, slots: seq<Placement>, moved: set<nat>, received: set<NodeId>) {
    && Distinct(slots) && Housed((set n | n in nodes), slots)
    && moved <= Numbers(slots)
    && (forall i :: 0 <= i < |slots| && slots[i].number in moved ==> slots[i].leader in received)
    && (forall r, n :: r in received && n in nodes ==> Leads(slots, r) <= Leads(slots, n) + 1)
  }

  ghost predicate Extremes(nodes: seq<NodeId>, slots: seq<Placement>, source: NodeId, target: NodeId) {
    && source in nodes && target in nodes
    && (forall n :: n in nodes ==> Leads(slots, target) <= Leads(slots, n) <= Leads(slots, source))
    && Leads(slots, target) < Leads(slots, source)
  }

  function Moved(p: Placement, target: NodeId): Placement {
    Placement(p.number, target, p.leader)
  }

  // One move from the fullest to the emptiest node.
  lemma {:induction false} MoveCounts(nodes: seq<NodeId>, slots: seq<Placement>, source: NodeId, target: NodeId, i: nat)
    requires Extremes(nodes, slots, source, target) && i < |slots| && slots[i].leader == source
    ensures forall n :: Leads(slots[i := Moved(slots[i], target)], n) == Leads(slots, n) - Bit(n == source) + Bit(n == target)
  {
    forall n
      ensures Leads(slots[i := Moved(slots[i], target)], n) == Leads(slots, n) - Bit(n == source) + Bit(n == target)
    {
      LeadsUpdate(slots, i, Moved(slots[i], target), n);
    }
  }

  lemma {:induction false} MoveKeepsInv(nodes: seq<NodeId>, slots: seq<Placement>, moved: set<nat>, received: set<NodeId>,
                                        source: NodeId, target: NodeId, i: nat)
    requires LeaderInv(nodes, slots, moved, received) && Extremes(nodes, slots, source, target)
    requires i < |slots| && slots[i].leader == source && slots[i].number !in moved
    ensures LeaderInv(nodes, slots[i := Moved(slots[i], target)], moved + {slots[i].number}, received + {target})
  {
    var slots' := slots[i := Moved(slots[i], target)];
    MoveCounts(nodes, slots, source, target, i);
    forall n | n in moved + {slots[i].number}
      ensures n in Numbers(slots')
    {
      var k :| 0 <= k < |slots| && slots[k].number == n;
      assert slots'[k].number == n;
    }
    forall r, n | r in received + {target} && n in nodes
      ensures Leads(slots', r) <= Leads(slots', n) + 1
    {
    }
  }

  lemma {:induction false} MoveKeepsBounds(nodes: seq<NodeId>, slots: seq<Placement>, source: NodeId, target: NodeId, i: nat, lo: int, hi: int)
    requires Extremes(nodes, slots, source, target) && i < |slots| && slots[i].leader == source
    requires Bounded(nodes, slots, lo, hi)
    ensures Bounded(nodes, slots[i := Moved(slots[i], target)], lo, hi)
  {
    MoveCounts(nodes, slots, source, target, i);
  }

  // If every slot of the fullest node has been moved, that node has received
  // one, and the skew is one.
  lemma {:induction false} StuckMeansClose(nodes: seq<NodeId>, slots: seq<Placement>, moved: set<nat>, received: set<NodeId>,
                                           source: NodeId, target: NodeId)
    requires LeaderInv(nodes, slots, moved, received) && Extremes(nodes, slots, source, target)
    requires forall i :: 0 <= i < |slots| ==> slots[i].number in moved || slots[i].leader != source
    ensures source in received && Within(nodes, slots, 1)
  {
    var i := LeadsWitness(slots, source);
  }

  lemma {:induction false} NumbersCount(slots: seq<Placement>)
    requires Distinct(slots)
    ensures |Numbers(slots)| == |slots|
  {
    if slots != [] {
      var n := |slots| - 1;
      NumbersCount(slots[..n]);
      assert Numbers(slots) == Numbers(slots[..n]) + {slots[n].number};
      assert slots[n].number !in Numbers(slots[..n]);
    }
  }

  lemma SubsetSize<T>(a: set<T>, b: set<T>)
    requires a <= b && |a| >= |b|
    ensures a == b
  {
    assert |b - a| == |b| - |a|;
  }

  lemma {:induction false} AllMovedMeansClose(nodes: seq<NodeId>, slots: seq<Placement>, moved: set<nat>, received: set<NodeId>)
    requires LeaderInv(nodes, slots, moved, received) && |moved| >= |slots|
    ensures Within(nodes, slots, 1)
  {
    NumbersCount(slots);
    SubsetSize(moved, Numbers(slots));
    forall a, b | a in nodes && b in nodes
      ensures Leads(slots, a) <= Leads(slots, b) + 1
    {
      if Leads(slots, a) > 0 {
        var i := LeadsWitness(slots, a);
        assert slots[i].number in Numbers(slots);
      }
    }
  }

  // The count maps the loops keep agree with the placement.
  ghost predicate Books(nodes: seq<NodeId>, slots: seq<Placement>, leaders: Loads, replicas: Loads) {
    forall n :: n in nodes ==> Load(leaders, n) == Leads(slots, n) && Load(replicas, n) == Follows(slots, n)
  }

  // Replaying the steps on any table of the one placement gives the other.
  ghost predicate Reaches(members: set<NodeId>, from: seq<Placement>, steps: seq<Step>, to: seq<Placement>) {
    forall t: Table :: Describes(t, from) ==> Replayable(members, t, steps) && Describes(Replay(t, steps), to)
  }

  function Bump(loads: Loads, id: NodeId, d: int): (r: Loads)
    ensures forall n :: Load(r, n) == Load(loads, n) + if n == id then d else 0
  {
    loads[id := Load(loads, id) + d]
  }

  lemma {:induction false} AppendLeaderMove(members: set<NodeId>, from: seq<Placement>, steps: seq<Step>, slots: seq<Placement>,
                                            i: nat, target: NodeId)
    requires Reaches(members, from, steps, slots) && Distinct(slots) && i < |slots|
    requires target in members && slots[i].leader in members && NOBODY !in members && target != slots[i].leader
    ensures Reaches(members, from, steps + LeaderMove(slots[i], target), slots[i := Moved(slots[i], target)])
  {
    var more := LeaderMove(slots[i], target);
    forall t: Table | Describes(t, from)
      ensures Replayable(members, t, steps + more) && Describes(Replay(t, steps + more), slots[i := Moved(slots[i], target)])
    {
      var u := Replay(t, steps);
      ReplayAppend(members, t, steps, more);
      LeaderMoveRow(members, u, slots[i], target);
      DescribesUpdate(u, slots, i, Moved(slots[i], target));
    }
  }

  lemma {:induction false} AppendReplicaMove(members: set<NodeId>, from: seq<Placement>, steps: seq<Step>, slots: seq<Placement>,
                                             i: nat, target: NodeId)
    requires Reaches(members, from, steps, slots) && Distinct(slots) && i < |slots|
    requires target in members && NOBODY !in members && target != slots[i].leader
    ensures Reaches(members, from, steps + ReplicaMove(slots[i], target), slots[i := slots[i].(replica := target)])
  {
    var more := ReplicaMove(slots[i], target);
    var p := slots[i].(replica := target);
    forall t: Table | Describes(t, from)
      ensures Replayable(members, t, steps + more) && Describes(Replay(t, steps + more), slots[i := p])
    {
      var u := Replay(t, steps);
      ReplayAppend(members, t, steps, more);
      ReplicaMoveRow(members, u, slots[i], target);
      DescribesUpdate(u, slots, i, p);
    }
  }

  lemma {:induction false} MoveKeepsBooks(nodes: seq<NodeId>, slots: seq<Placement>, leaders: Loads, replicas: Loads, i: nat, p: Placement)
    requires Books(nodes, slots, leaders, replicas) && i < |slots|
    ensures Books(nodes, slots[i := p],
                  Bump(Bump(leaders, slots[i].leader, -1), p.leader, 1),
                  Bump(Bump(replicas, slots[i].replica, -1), p.replica, 1))
  {
    var leaders' := Bump(Bump(leaders, slots[i].leader, -1), p.leader, 1);
    var replicas' := Bump(Bump(replicas, slots[i].replica, -1), p.replica, 1);
    forall n | n in nodes
      ensures Load(leaders', n) == Leads(slots[i := p], n) && Load(replicas', n) == Follows(slots[i := p], n)
    {
      LeadsUpdate(slots, i, p, n);
      FollowsUpdate(slots, i, p, n);
    }
  }

  // What the planner's loops update.
  datatype Progress = Progress(
    slots: seq<Placement>, leaders: Loads, replicas: Loads,
    steps: seq<Step>, blocked: seq<nat>, moved: set<nat>, moves: nat)

  // The body of the leader loop.
  function MoveLeader(g: Progress, i: nat, target: NodeId): Progress
    requires i < |g.slots|
  {
    var p := g.slots[i];
    Progress(
      g.slots[i := Moved(p, target)],
      Bump(Bump(g.leaders, p.leader, -1), target, 1),
      Bump(Bump(g.replicas, p.replica, -1), p.leader, 1),
      g.steps + LeaderMove(p, target),
      g.blocked + [p.number],
      g.moved + {p.number},
      g.moves + 1)
  }

  ghost predicate Sound(nodes: seq<NodeId>, from: seq<Placement>, g: Progress) {
    && |g.slots| == |from| && Distinct(g.slots) && Housed((set n | n in nodes), g.slots)
    && Books(nodes, g.slots, g.leaders, g.replicas)
    && Reaches((set n | n in nodes), from, g.steps, g.slots)
  }

  // The slots whose writes a plan blocks are those it has steps for, one entry
  // per move.
  ghost predicate Marked(g: Progress) {
    && |g.blocked| == g.moves
    && (forall s :: s in g.steps ==> s.slot in g.blocked)
    && (forall n :: n in g.blocked ==> exists s :: s in g.steps && s.slot == n)
  }

  lemma {:induction false} MarksOneMore(g: Progress, h: Progress, more: seq<Step>, n: nat)
    requires Marked(g) && more != [] && forall s :: s in more ==> s.slot == n
    requires h.steps == g.steps + more && h.blocked == g.blocked + [n] && h.moves == g.moves + 1
    ensures Marked(h)
  {
    forall k | k in h.blocked
      ensures exists s :: s in h.steps && s.slot == k
    {
      if k in g.blocked {
        var s :| s in g.steps && s.slot == k;
        assert s in h.steps;
      } else {
        assert more[0] in h.steps && more[0].slot == k;
      }
    }
  }

  ghost predicate Narrowing(nodes: seq<NodeId>, from: seq<Placement>, slots: seq<Placement>) {
    forall lo, hi :: Bounded(nodes, from, lo, hi) ==> Bounded(nodes, slots, lo, hi)
  }

  lemma {:induction false} MoveKeepsSound(nodes: seq<NodeId>, from: seq<Placement>, g: Progress, received: set<NodeId>,
                                          source: NodeId, target: NodeId, i: nat)
    requires Sound(nodes, from, g) && LeaderInv(nodes, g.slots, g.moved, received) && NOBODY !in nodes
    requires Extremes(nodes, g.slots, source, target)
    requires i < |g.slots| && g.slots[i].leader == source && g.slots[i].number !in g.moved
    ensures Sound(nodes, from, MoveLeader(g, i, target))
    ensures g.moves == |g.moved| ==> MoveLeader(g, i, target).moves == |MoveLeader(g, i, target).moved|
    ensures LeaderInv(nodes, MoveLeader(g, i, target).slots, MoveLeader(g, i, target).moved, received + {target})
  {
    MoveKeepsInv(nodes, g.slots, g.moved, received, source, target, i);
    MoveKeepsBooks(nodes, g.slots, g.leaders, g.replicas, i, Moved(g.slots[i], target));
    AppendLeaderMove((set n | n in nodes), from, g.steps, g.slots, i, target);
  }

  lemma {:induction false} MoveKeepsNarrowing(nodes: seq<NodeId>, from: seq<Placement>, slots: seq<Placement>,
                                              source: NodeId, target: NodeId, i: nat)
    requires Narrowing(nodes, from, slots) && Extremes(nodes, slots, source, target)
    requires i < |slots| && slots[i].leader == source
    ensures Narrowing(nodes, from, slots[i := Moved(slots[i], target)])
  {
    forall lo, hi | Bounded(nodes, from, lo, hi)
      ensures Bounded(nodes, slots[i := Moved(slots[i], target)], lo, hi)
    {
      MoveKeepsBounds(nodes, slots, source, target, i, lo, hi);
    }
  }

  lemma {:induction false} LeaderMoveMarks(g: Progress, i: nat, target: NodeId)
    requires Marked(g) && i < |g.slots|
    ensures Marked(MoveLeader(g, i, target))
  {
    MarksOneMore(g, MoveLeader(g, i, target), LeaderMove(g.slots[i], target), g.slots[i].number);
  }

  // What the leader loop keeps.
  ghost predicate LeaderLoop(nodes: seq<NodeId>, threshold: nat, start: Progress, g: Progress, received: set<NodeId>, tr: Trail) {
    && Sound(nodes, start.slots, g) && Marked(g) && g.moves == |g.moved|
    && LeaderInv(nodes, g.slots, g.moved, received) && Narrowing(nodes, start.slots, g.slots)
    && Traced(Leaders, nodes, threshold, start, g, tr)
  }

  lemma {:induction false} LeaderLoopStarts(nodes: seq<NodeId>, threshold: nat, start: Progress)
    requires Sound(nodes, start.slots, start) && Marked(start) && start.moved == {} && start.moves == 0
    ensures LeaderLoop(nodes, threshold, start, start, {}, Unmoved(start.slots))
  {
    TracedNowhere(Leaders, nodes, threshold, start, start);
  }

  lemma {:induction false} LeaderLoopGoesOn(nodes: seq<NodeId>, threshold: nat, start: Progress, g: Progress, received: set<NodeId>, tr: Trail,
                                            source: NodeId, target: NodeId, i: nat)
    requires LeaderLoop(nodes, threshold, start, g, received, tr) && NOBODY !in nodes && Extremes(nodes, g.slots, source, target)
    requires i < |g.slots| && LeaderMovable(g.slots[i], g.moved, source, target)
    requires Due(Leaders, nodes, threshold, start.slots, g.slots, Shift(i, target))
    ensures var h := MoveLeader(g, i, target);
      LeaderLoop(nodes, threshold, start, h, received + {target}, Continued(Leaders, g, h, tr, Shift(i, target)))
  {
    MoveKeepsSound(nodes, start.slots, g, received, source, target, i);
    MoveKeepsNarrowing(nodes, start.slots, g.slots, source, target, i);
    LeaderMoveMarks(g, i, target);
    TracedOn(Leaders, nodes, threshold, start, g, MoveLeader(g, i, target), tr, Shift(i, target));
  }

  // What one look of the leader loop shows.
  lemma {:induction false} LeaderLooks(nodes: seq<NodeId>, threshold: nat, start: Progress, g: Progress, received: set<NodeId>, tr: Trail,
                                       source: NodeId, target: NodeId, i: int)
    requires LeaderLoop(nodes, threshold, start, g, received, tr) && source in nodes && target in nodes
    requires OnlyExtremes(nodes, g.leaders, source, target) && Load(g.leaders, source) - Load(g.leaders, target) > threshold
    requires -1 <= i < |g.slots| && (i >= 0 ==> LeaderMovable(g.slots[i], g.moved, source, target))
    requires forall k :: 0 <= k < (if i < 0 then |g.slots| else i) ==> !LeaderMovable(g.slots[k], g.moved, source, target)
    ensures Extremes(nodes, g.slots, source, target)
    ensures i >= 0 ==> Due(Leaders, nodes, threshold, start.slots, g.slots, Shift(i, target))
    ensures i < 0 ==> NoneDue(Leaders, nodes, threshold, start.slots, g.slots) && Within(nodes, g.slots, 1) && threshold == 0
  {
    LookedUp(Leaders, nodes, threshold, start, g, g.leaders, tr, source, target, i);
    ExtremesAre(nodes, g, source, target);
    if i < 0 {
      StuckMeansClose(nodes, g.slots, g.moved, received, source, target);
    }
  }

  lemma {:induction false} ExtremesAre(nodes: seq<NodeId>, g: Progress, source: NodeId, target: NodeId)
    requires Books(nodes, g.slots, g.leaders, g.replicas) && source in nodes && target in nodes
    requires OnlyExtremes(nodes, g.leaders, source, target) && Load(g.leaders, source) > Load(g.leaders, target)
    ensures Extremes(nodes, g.slots, source, target)
  {
    forall n | n in nodes
      ensures Leads(g.slots, target) <= Leads(g.slots, n) <= Leads(g.slots, source)
    {
      var i :| 0 <= i < |nodes| && nodes[i] == n;
    }
  }

  lemma {:induction false} LeaderCloseEnough(nodes: seq<NodeId>, threshold: nat, start: Progress, g: Progress, source: NodeId, target: NodeId)
    requires Books(nodes, g.slots, g.leaders, g.replicas) && source in nodes && target in nodes
    requires OnlyExtremes(nodes, g.leaders, source, target) && Load(g.leaders, source) - Load(g.leaders, target) <= threshold
    requires forall n :: n in nodes ==> Load(g.leaders, target) <= Load(g.leaders, n) <= Load(g.leaders, source)
    ensures Within(nodes, g.slots, threshold) && NoneDue(Leaders, nodes, threshold, start.slots, g.slots)
  {
    CloseEnough(Leaders, nodes, threshold, start.slots, g.slots, g.leaders, source, target);
  }

  // Leader moves: the extremes only move towards each other, every step of the
  // plan so far can be replayed, every move was due, and the loop stops only
  // within the threshold, at the cap, or one above a threshold of zero.
  method MoveLeaders(nodes: seq<NodeId>, start: Progress, threshold: nat, cap: nat) returns (g: Progress, ghost tr: Trail)
    requires nodes != [] && NOBODY !in nodes
    requires Sound(nodes, start.slots, start) && Marked(start) && start.moved == {} && start.moves == 0
    ensures Sound(nodes, start.slots, g) && Marked(g) && g.moves <= cap
    ensures Narrowing(nodes, start.slots, g.slots)
    ensures Within(nodes, g.slots, threshold) || g.moves == cap || (threshold == 0 && Within(nodes, g.slots, 1))
    ensures cap >= |g.slots| ==> Within(nodes, g.slots, if threshold == 0 then 1 else threshold)
    ensures Traced(Leaders, nodes, threshold, start, g, tr)
    ensures g.moves == cap || NoneDue(Leaders, nodes, threshold, start.slots, g.slots)
  {
    g, tr := start, Unmoved(start.slots);
    ghost var received: set<NodeId> := {};
    LeaderLoopStarts(nodes, threshold, start);
    while g.moves < cap
      invariant LeaderLoop(nodes, threshold, start, g, received, tr) && g.moves <= cap
      decreases cap - g.moves
    {
      var source, target, skew := CountExtremes(nodes, g.leaders);
      if skew <= threshold {
        LeaderCloseEnough(nodes, threshold, start, g, source, target);
        return;
      }
      var index := FindLeaderMove(g.slots, g.moved, source, target);
      LeaderLooks(nodes, threshold, start, g, received, tr, source, target, index);
      if index < 0 {
        return;
      }
      LeaderLoopGoesOn(nodes, threshold, start, g, received, tr, source, target, index);
      tr := Continued(Leaders, g, MoveLeader(g, index, target), tr, Shift(index, target));
      g := MoveLeader(g, index, target);
      received := received + {target};
    }
    if cap >= |g.slots| {
      AllMovedMeansClose(nodes, g.slots, g.moved, received);
    }
  }

  // The body of the replica loop.
  function MoveReplica(g: Progress, i: nat, source: NodeId, target: NodeId): Progress
    requires i < |g.slots|
  {
    var p := g.slots[i];
    g.(slots := g.slots[i := p.(replica := target)],
       replicas := Bump(Bump(g.replicas, source, -1), target, 1),
       steps := g.steps + ReplicaMove(p, target),
       blocked := g.blocked + [p.number],
       moved := g.moved + {p.number},
       moves := g.moves + 1)
  }

  lemma {:induction false} ReplicaKeepsSound(nodes: seq<NodeId>, from: seq<Placement>, g: Progress, source: NodeId, target: NodeId, i: nat)
    requires Sound(nodes, from, g) && NOBODY !in nodes && target in nodes
    requires i < |g.slots| && g.slots[i].replica == source && g.slots[i].leader != target
    ensures Sound(nodes, from, MoveReplica(g, i, source, target))
    ensures forall n :: Leads(MoveReplica(g, i, source, target).slots, n) == Leads(g.slots, n)
  {
    var p := g.slots[i].(replica := target);
    AppendReplicaMove((set n | n in nodes), from, g.steps, g.slots, i, target);
    var replicas := Bump(Bump(g.replicas, source, -1), target, 1);
    forall n
      ensures Leads(g.slots[i := p], n) == Leads(g.slots, n)
      ensures n in nodes ==> Load(replicas, n) == Follows(g.slots[i := p], n)
    {
      LeadsUpdate(g.slots, i, p, n);
      FollowsUpdate(g.slots, i, p, n);
    }
  }

  lemma {:induction false} ReplicaMoveMarks(g: Progress, i: nat, source: NodeId, target: NodeId)
    requires Marked(g) && i < |g.slots|
    ensures Marked(MoveReplica(g, i, source, target))
  {
    MarksOneMore(g, MoveReplica(g, i, source, target), ReplicaMove(g.slots[i], target), g.slots[i].number);
  }

  lemma {:induction false} SettledAt(nodes: seq<NodeId>, g: Progress, threshold: nat, source: NodeId, target: NodeId)
    requires Books(nodes, g.slots, g.leaders, g.replicas) && source in nodes && target in nodes
    requires forall n :: n in nodes ==> Load(g.replicas, target) <= Load(g.replicas, n) <= Load(g.replicas, source)
    requires Load(g.replicas, source) - Load(g.replicas, target) <= threshold
      || forall i :: 0 <= i < |g.slots| ==> !ReplicaMovable(g.slots[i], g.moved, source, target)
    ensures ReplicasSettled(nodes, g.slots, g.moved, threshold)
  {
    assert SettledBetween(nodes, g.slots, g.moved, threshold, source, target);
  }

  // Where the replica loop may stop: close enough, or the fullest node has no
  // replica left that may still move to the emptiest one.
  ghost predicate ReplicasSettled(nodes: seq<NodeId>, slots: seq<Placement>, moved: set<nat>, threshold: nat) {
    exists source, target :: SettledBetween(nodes, slots, moved, threshold, source, target)
  }

  ghost predicate SettledBetween(nodes: seq<NodeId>, slots: seq<Placement>, moved: set<nat>, threshold: nat, source: NodeId, target: NodeId) {
    && source in nodes && target in nodes
    && (forall n :: n in nodes ==> Follows(slots, target) <= Follows(slots, n) <= Follows(slots, source))
    && (Follows(slots, source) <= Follows(slots, target) + threshold
        || forall i :: 0 <= i < |slots| ==> !ReplicaMovable(slots[i], moved, source, target))
  }

  // Replica moves leave every leader where it is, and go on until they are
  // settled or the cap is reached.
  method MoveReplicas(nodes: seq<NodeId>, ghost from: seq<Placement>, start: Progress, threshold: nat, cap: nat)
    returns (g: Progress, ghost tr: Trail)
    requires nodes != [] && NOBODY !in nodes && Sound(nodes, from, start) && Marked(start) && start.moves <= cap
    ensures Sound(nodes, from, g) && Marked(g)
    ensures forall n :: Leads(g.slots, n) == Leads(start.slots, n)
    ensures start.moves <= g.moves <= cap
    ensures g.moves == cap || ReplicasSettled(nodes, g.slots, g.moved, threshold)
    ensures Traced(Replicas, nodes, threshold, start, g, tr)
    ensures g.moves == cap || NoneDue(Replicas, nodes, threshold, start.slots, g.slots)
  {
    g, tr := start.(moved := {}), Unmoved(start.slots);
    TracedNowhere(Replicas, nodes, threshold, start, g);
    while g.moves < cap
      invariant Sound(nodes, from, g) && Marked(g)
      invariant forall n :: Leads(g.slots, n) == Leads(start.slots, n)
      invariant start.moves <= g.moves <= cap
      invariant Traced(Replicas, nodes, threshold, start, g, tr)
      decreases cap - g.moves
    {
      var source, target, skew := CountExtremes(nodes, g.replicas);
      if skew <= threshold {
        CloseEnough(Replicas, nodes, threshold, start.slots, g.slots, g.replicas, source, target);
        SettledAt(nodes, g, threshold, source, target);
        return;
      }
      var index := FindReplicaMove(g.slots, g.moved, source, target);
      LookedUp(Replicas, nodes, threshold, start, g, g.replicas, tr, source, target, index);
      if index < 0 {
        SettledAt(nodes, g, threshold, source, target);
        return;
      }
      ReplicaKeepsSound(nodes, from, g, source, target, index);
      ReplicaMoveMarks(g, index, source, target);
      TracedOn(Replicas, nodes, threshold, start, g, MoveReplica(g, index, source, target), tr, Shift(index, target));
      tr := Continued(Replicas, g, MoveReplica(g, index, source, target), tr, Shift(index, target));
      g := MoveReplica(g, index, source, target);
    }
  }

  // --------------------------------------------------- when zero skew is met

  function SumLeads(nodes: seq<NodeId>, slots: seq<Placement>): nat {
    if nodes == [] then 0 else Leads(slots, nodes[|nodes| - 1]) + SumLeads(nodes[..|nodes| - 1], slots)
  }

  // Adding one slot adds one to exactly one node's count.
  lemma {:induction false} SumOneMore(nodes: seq<NodeId>, slots: seq<Placement>)
    requires NoRepeats(nodes) && slots != []
    ensures SumLeads(nodes, slots) ==
            SumLeads(nodes, slots[..|slots| - 1]) + Bit(slots[|slots| - 1].leader in nodes)
  {
    if nodes != [] {
      var k := |nodes| - 1;
      SumOneMore(nodes[..k], slots);
      assert nodes == nodes[..k] + [nodes[k]];
    }
  }

  lemma {:induction false} SumIsSlots(nodes: seq<NodeId>, slots: seq<Placement>)
    requires NoRepeats(nodes) && Housed((set n | n in nodes), slots)
    ensures SumLeads(nodes, slots) == |slots|
  {
    if slots == [] {
      SumOfNothing(nodes);
    } else {
      SumOneMore(nodes, slots);
      SumIsSlots(nodes, slots[..|slots| - 1]);
    }
  }

  lemma {:induction false} SumOfNothing(nodes: seq<NodeId>)
    ensures SumLeads(nodes, []) == 0
  {
    if nodes != [] {
      SumOfNothing(nodes[..|nodes| - 1]);
    }
  }

  // How many nodes lead one slot more than m.
  function Above(nodes: seq<NodeId>, slots: seq<Placement>, m: nat): nat {
    if nodes == [] then 0
    else Bit(Leads(slots, nodes[|nodes| - 1]) == m + 1) + Above(nodes[..|nodes| - 1], slots, m)
  }

  lemma {:induction false} SumByAbove(nodes: seq<NodeId>, slots: seq<Placement>, m: nat)
    requires Bounded(nodes, slots, m, m + 1)
    ensures SumLeads(nodes, slots) == m * |nodes| + Above(nodes, slots, m)
  {
    if nodes != [] {
      var k := |nodes| - 1;
      SumByAbove(nodes[..k], slots, m);
      assert m * (k + 1) == m * k + m;
    }
  }

  lemma {:induction false} AboveRange(nodes: seq<NodeId>, slots: seq<Placement>, m: nat)
    ensures Above(nodes, slots, m) <= |nodes|
    ensures forall n :: n in nodes && Leads(slots, n) == m ==> Above(nodes, slots, m) < |nodes|
    ensures forall n :: n in nodes && Leads(slots, n) == m + 1 ==> Above(nodes, slots, m) > 0
  {
    if nodes != [] {
      var k := |nodes| - 1;
      assert nodes == nodes[..k] + [nodes[k]];
      AboveRange(nodes[..k], slots, m);
    }
  }

  lemma {:induction false} MulStep(m: nat, k: nat, n: nat)
    requires m < k
    ensures m * n + n <= k * n
    decreases k
  {
    assert k * n == (k - 1) * n + n;
    if m < k - 1 {
      MulStep(m, k - 1, n);
    }
  }

  // The slots can be shared out evenly.
  ghost predicate Even(nodes: seq<NodeId>, slots: seq<Placement>) {
    exists share: nat :: |slots| == share * |nodes|
  }

  // A skew of at most one is zero exactly when the slots divide evenly.
  lemma {:induction false} EvenExactly(nodes: seq<NodeId>, slots: seq<Placement>)
    requires nodes != [] && NoRepeats(nodes) && Housed((set n | n in nodes), slots)
    requires Within(nodes, slots, 1)
    ensures Within(nodes, slots, 0) <==> Even(nodes, slots)
  {
    var m, low := Emptiest(nodes, slots);
    SumIsSlots(nodes, slots);
    SumByAbove(nodes, slots, m);
    AboveRange(nodes, slots, m);
    var c := Above(nodes, slots, m);
    assert c < |nodes| by { assert Leads(slots, low) == m; }
    if c > 0 {
      var n := AboveWitness(nodes, slots, m);
      assert Leads(slots, n) > Leads(slots, low);
      if Even(nodes, slots) {
        var share: nat :| |slots| == share * |nodes|;
        if share > m {
          MulStep(m, share, |nodes|);
        } else if share < m {
          MulStep(share, m, |nodes|);
        }
      }
    } else {
      assert |slots| == m * |nodes|;
      assert Bounded(nodes, slots, m, m);
    }
  }

  lemma {:induction false} Emptiest(nodes: seq<NodeId>, slots: seq<Placement>) returns (m: nat, low: NodeId)
    requires nodes != [] && Within(nodes, slots, 1)
    ensures low in nodes && Leads(slots, low) == m && Bounded(nodes, slots, m, m + 1)
  {
    low := nodes[0];
    var k := 1;
    while k < |nodes|
      invariant 1 <= k <= |nodes| && low in nodes
      invariant forall i :: 0 <= i < k ==> Leads(slots, low) <= Leads(slots, nodes[i])
    {
      if Leads(slots, nodes[k]) < Leads(slots, low) {
        low := nodes[k];
      }
      k := k + 1;
    }
    m := Leads(slots, low);
  }

  lemma {:induction false} AboveWitness(nodes: seq<NodeId>, slots: seq<Placement>, m: nat) returns (n: NodeId)
    requires Above(nodes, slots, m) > 0
    ensures n in nodes && Leads(slots, n) == m + 1
  {
    n := nodes[|nodes| - 1];
    if Leads(slots, n) != m + 1 {
      n := AboveWitness(nodes[..|nodes| - 1], slots, m);
    }
  }

  // -------------------------------------------------------- the whole plan

  // The placement a view describes.
  function PlacementOf(v: SlotView): Placement {
    Placement(v.number, v.own.leader, v.own.replica)
  }

  function Placements(slots: seq<SlotView>): (r: seq<Placement>)
    ensures |r| == |slots|
    ensures forall i :: 0 <= i < |slots| ==> r[i] == PlacementOf(slots[i])
  {
    seq(|slots|, i requires 0 <= i < |slots| => PlacementOf(slots[i]))
  }

  // Every slot has two ready copies on usable nodes: nothing else is moved.
  predicate Steady(view: View) {
    forall v :: v in view.slots ==>
      v.own.ready && v.own.leader != v.own.replica &&
      v.own.leader in UsableNodes(view) && v.own.replica in UsableNodes(view)
  }

  // A view is steady if every slot is ready and its two owners are different,
  // reachable, eligible and not suspected.
  lemma {:induction false} SteadyExactly(view: View)
    ensures Steady(view) <==> forall v :: v in view.slots ==>
      && v.own.ready && v.own.leader != v.own.replica && v.own.leader in view.nodes && v.own.replica in view.nodes
      && forall id :: id == v.own.leader || id == v.own.replica ==>
           view.nodes[id].reachable && view.nodes[id].eligible && !view.nodes[id].suspected
  {
  }

  lemma {:induction false} LeadsConcat(a: seq<Placement>, b: seq<Placement>, id: NodeId)
    ensures Leads(a + b, id) == Leads(a, id) + Leads(b, id)
    ensures Follows(a + b, id) == Follows(a, id) + Follows(b, id)
    decreases |b|
  {
    if b == [] {
      assert a + b == a;
    } else {
      var k := |b| - 1;
      assert (a + b)[..|a + b| - 1] == a + b[..k];
      LeadsConcat(a, b[..k], id);
    }
  }

  lemma {:induction false} LeadsWithout(t: seq<Placement>, i: nat, id: NodeId)
    requires i < |t|
    ensures Leads(t, id) == Leads(t[..i] + t[i + 1..], id) + Bit(t[i].leader == id)
    ensures Follows(t, id) == Follows(t[..i] + t[i + 1..], id) + Bit(t[i].replica == id)
  {
    LeadsConcat(t[..i], t[i + 1..], id);
    LeadsConcat(t[..i + 1], t[i + 1..], id);
    assert t == t[..i + 1] + t[i + 1..] && t[..i + 1][..i] == t[..i];
  }

  lemma {:induction false} LeadsPermuted(s: seq<Placement>, t: seq<Placement>, id: NodeId)
    requires multiset(s) == multiset(t)
    ensures Leads(s, id) == Leads(t, id) && Follows(s, id) == Follows(t, id)
    decreases |s|
  {
    if s == [] {
      assert |multiset(t)| == 0;
    } else {
      assert s[0] in multiset(t);
      var i :| 0 <= i < |t| && t[i] == s[0];
      LeadsWithout(s, 0, id);
      LeadsWithout(t, i, id);
      RemoveMultiset(s, 0);
      RemoveMultiset(t, i);
      LeadsPermuted(s[..0] + s[1..], t[..i] + t[i + 1..], id);
    }
  }

  lemma {:induction false} SurveyStep(nodes: seq<NodeId>, slots: seq<Placement>, leaders: Loads, replicas: Loads, p: Placement)
    requires Books(nodes, slots, leaders, replicas) && Housed((set n | n in nodes), slots)
    requires p.leader in nodes && p.replica in nodes && p.leader != p.replica
    ensures Books(nodes, slots + [p], Bump(leaders, p.leader, 1), Bump(replicas, p.replica, 1))
    ensures Housed((set n | n in nodes), slots + [p])
  {
    assert (slots + [p])[..|slots|] == slots;
  }

  predicate SteadyOn(ids: seq<NodeId>, o: Own) {
    o.ready && o.leader != o.replica && o.leader in ids && o.replica in ids
  }

  lemma {:induction false} SteadyEach(view: View, ids: seq<NodeId>)
    requires forall n :: n in ids <==> n in UsableNodes(view)
    ensures Steady(view) <==> forall k :: 0 <= k < |view.slots| ==> SteadyOn(ids, view.slots[k].own)
  {
    if Steady(view) {
      forall k | 0 <= k < |view.slots|
        ensures SteadyOn(ids, view.slots[k].own)
      {
        assert view.slots[k] in view.slots;
      }
    }
  }

  lemma {:induction false} PlacementsStep(slots: seq<SlotView>, i: nat)
    requires i < |slots|
    ensures Placements(slots[..i + 1]) == Placements(slots[..i]) + [PlacementOf(slots[i])]
  {
  }

  // The checks and counts that come before any move.
  method Survey(view: View, ids: seq<NodeId>) returns (start: Option<Progress>)
    requires forall n :: n in ids <==> n in UsableNodes(view)
    ensures start.Some? <==> Steady(view)
    ensures start.Some? ==>
      && start.value == Progress(Placements(view.slots), start.value.leaders, start.value.replicas, [], [], {}, 0)
      && Books(ids, start.value.slots, start.value.leaders, start.value.replicas)
      && Housed((set n | n in ids), start.value.slots)
  {
    var slots: seq<Placement>, leaders: Loads, replicas: Loads := [], map[], map[];
    SteadyEach(view, ids);
    for i := 0 to |view.slots|
      invariant slots == Placements(view.slots[..i])
      invariant Books(ids, slots, leaders, replicas)
      invariant Housed((set n | n in ids), slots)
      invariant forall k :: 0 <= k < i ==> SteadyOn(ids, view.slots[k].own)
    {
      var v := view.slots[i];
      if !v.own.ready || v.own.leader == v.own.replica || v.own.leader !in ids || v.own.replica !in ids {
        return None;
      }
      PlacementsStep(view.slots, i);
      SurveyStep(ids, slots, leaders, replicas, PlacementOf(v));
      slots := slots + [PlacementOf(v)];
      leaders := Bump(leaders, v.own.leader, 1);
      replicas := Bump(replicas, v.own.replica, 1);
    }
    assert view.slots[..|view.slots|] == view.slots;
    start := Some(Progress(slots, leaders, replicas, [], [], {}, 0));
  }

  // The survey in slot-number order.
  lemma {:induction false} SortedSurvey(nodes: seq<NodeId>, from: seq<Placement>, sorted: seq<Placement>, leaders: Loads, replicas: Loads)
    requires multiset(sorted) == multiset(from)
    requires Books(nodes, from, leaders, replicas) && Housed((set n | n in nodes), from)
    ensures Books(nodes, sorted, leaders, replicas) && Housed((set n | n in nodes), sorted)
    ensures |sorted| == |from| && forall n :: Leads(sorted, n) == Leads(from, n)
    ensures forall t: Table :: Describes(t, from) ==> Describes(t, sorted)
    ensures Distinct(from) ==> Distinct(sorted)
  {
    forall n
      ensures Leads(sorted, n) == Leads(from, n) && Follows(sorted, n) == Follows(from, n)
    {
      LeadsPermuted(sorted, from, n);
    }
    assert |sorted| == |multiset(sorted)| == |from|;
    forall i | 0 <= i < |sorted|
      ensures sorted[i] in from
    {
      assert sorted[i] in multiset(from);
    }
    forall i | 0 <= i < |from|
      ensures from[i] in sorted
    {
      assert from[i] in multiset(sorted);
    }
    forall t: Table | Describes(t, from)
      ensures Describes(t, sorted)
    {
      forall n | n in t
        ensures exists i :: 0 <= i < |sorted| && sorted[i].number == n
      {
        var k :| 0 <= k < |from| && from[k].number == n;
        var i :| 0 <= i < |sorted| && sorted[i] == from[k];
      }
    }
    if Distinct(from) {
      var key := (p: Placement) => p.number;
      assert DistinctBy(key, from);
      DistinctPermuted(key, from, sorted);
      assert forall i, j :: 0 <= i < j < |sorted| ==> key(sorted[i]) != key(sorted[j]);
    }
  }

  lemma {:induction false} NothingReplayed(nodes: seq<NodeId>, slots: seq<Placement>)
    ensures Reaches((set n | n in nodes), slots, [], slots)
  {
  }

  // The view's placement in the order of slot numbers.
  ghost predicate InOrder(slots: seq<SlotView>, start: seq<Placement>) {
    multiset(start) == multiset(Placements(slots)) && forall i, j :: 0 <= i < j < |start| ==> start[i].number < start[j].number
  }

  lemma {:induction false} StrictlyInOrder(slots: seq<SlotView>, sorted: seq<Placement>)
    requires multiset(sorted) == multiset(Placements(slots)) && Distinct(sorted)
    requires AscendingBy((p: Placement) => p.number, sorted)
    ensures InOrder(slots, sorted)
  {
    var key := (p: Placement) => p.number;
    forall i, j | 0 <= i < j < |sorted|
      ensures sorted[i].number < sorted[j].number
    {
      assert key(sorted[i]) <= key(sorted[j]);
    }
  }

  // Survey and sort: where both loops start from.
  method Prepare(view: View, nodes: seq<NodeId>) returns (start: Option<Progress>)
    requires DistinctNumbers(view.slots) && forall n :: n in nodes <==> n in UsableNodes(view)
    ensures start.Some? <==> Steady(view)
    ensures start.Some? ==> var g := start.value;
      && Sound(nodes, g.slots, g) && g.steps == [] && g.blocked == [] && g.moved == {} && g.moves == 0
      && |g.slots| == |view.slots| && InOrder(view.slots, g.slots)
      && (forall n :: Leads(g.slots, n) == Leads(Placements(view.slots), n))
      && (forall t: Table :: Describes(t, Placements(view.slots)) ==> Describes(t, g.slots))
  {
    start := Survey(view, nodes);
    if start.Some? {
      var g := start.value;
      var sorted := SortBy((p: Placement) => p.number, g.slots);
      assert Distinct(g.slots);
      SortedSurvey(nodes, g.slots, sorted, g.leaders, g.replicas);
      NothingReplayed(nodes, sorted);
      StrictlyInOrder(view.slots, sorted);
      start := Some(g.(slots := sorted));
    }
  }

  // A loop that does not stop early.
  ghost predicate Through(side: Side, nodes: seq<NodeId>, threshold: nat, cap: nat, from: seq<Placement>, tr: Trail, to: seq<Placement>) {
    && Walk(side, nodes, threshold, tr) && From(tr, from) && To(tr, to) && |tr.path| <= cap
    && (|tr.path| == cap || NoneDue(side, nodes, threshold, from, to))
  }

  // The leader moves a and then the replica moves b: each was due, and they end
  // at the cap or when none is.
  ghost predicate Route(nodes: seq<NodeId>, threshold: nat, cap: nat, start: seq<Placement>, mid: seq<Placement>, g: Progress, a: Trail, b: Trail) {
    && Through(Leaders, nodes, threshold, cap, start, a, mid)
    && |a.path| + |b.path| == g.moves && Through(Replicas, nodes, threshold, cap - |a.path|, mid, b, g.slots)
    && g.steps == Flat(a.chunks) + Flat(b.chunks) && g.blocked == Heads(a.chunks) + Heads(b.chunks)
    && MovedOn(Replicas, mid, g.slots, g.moved)
  }

  lemma {:induction false} RouteIs(nodes: seq<NodeId>, threshold: nat, cap: nat, start: Progress, h: Progress, g: Progress, a: Trail, b: Trail)
    requires start.steps == [] && start.blocked == [] && start.moves == 0 && h.moves <= g.moves <= cap
    requires Traced(Leaders, nodes, threshold, start, h, a) && Traced(Replicas, nodes, threshold, h, g, b)
    requires h.moves == cap || NoneDue(Leaders, nodes, threshold, start.slots, h.slots)
    requires g.moves == cap || NoneDue(Replicas, nodes, threshold, h.slots, g.slots)
    ensures Route(nodes, threshold, cap, start.slots, h.slots, g, a, b)
  {
    assert [] + Flat(a.chunks) == Flat(a.chunks) && [] + Heads(a.chunks) == Heads(a.chunks);
  }

  // Replica moves leave what the leader moves have reached.
  lemma {:induction false} BalancedBoth(nodes: seq<NodeId>, threshold: nat, cap: nat, from: seq<Placement>, h: Progress, g: Progress)
    requires nodes != [] && NoRepeats(nodes) && Housed((set n | n in nodes), g.slots) && |from| == |h.slots| == |g.slots|
    requires forall n :: Leads(g.slots, n) == Leads(h.slots, n)
    requires Narrowing(nodes, from, h.slots) && h.moves <= g.moves <= cap
    requires Within(nodes, h.slots, threshold) || h.moves == cap || (threshold == 0 && Within(nodes, h.slots, 1))
    requires cap >= |h.slots| ==> Within(nodes, h.slots, if threshold == 0 then 1 else threshold)
    ensures Narrowing(nodes, from, g.slots)
    ensures Within(nodes, g.slots, threshold) || g.moves == cap || (threshold == 0 && Within(nodes, g.slots, 1))
    ensures cap >= |from| ==> (Within(nodes, g.slots, threshold) <==> threshold >= 1 || Even(nodes, g.slots))
  {
    assert forall k :: Within(nodes, h.slots, k) ==> Within(nodes, g.slots, k);
    if cap >= |from| && threshold == 0 {
      EvenExactly(nodes, g.slots);
    }
  }

  // Both loops, one after the other, under one cap.
  method Balance(nodes: seq<NodeId>, start: Progress, threshold: nat, cap: nat)
    returns (g: Progress, ghost mid: seq<Placement>, ghost a: Trail, ghost b: Trail)
    requires nodes != [] && NOBODY !in nodes && NoRepeats(nodes)
    requires Sound(nodes, start.slots, start) && Marked(start) && start.moved == {} && start.moves == 0 && start.steps == [] && start.blocked == []
    ensures Sound(nodes, start.slots, g) && Marked(g) && g.moves <= cap
    ensures g.moves == cap || ReplicasSettled(nodes, g.slots, g.moved, threshold)
    ensures Narrowing(nodes, start.slots, g.slots)
    ensures Within(nodes, g.slots, threshold) || g.moves == cap || (threshold == 0 && Within(nodes, g.slots, 1))
    ensures cap >= |start.slots| ==> (Within(nodes, g.slots, threshold) <==> threshold >= 1 || Even(nodes, g.slots))
    ensures Route(nodes, threshold, cap, start.slots, mid, g, a, b)
  {
    var h;
    h, a := MoveLeaders(nodes, start, threshold, cap);
    mid := h.slots;
    g, b := MoveReplicas(nodes, start.slots, h, threshold, cap);
    RouteIs(nodes, threshold, cap, start, h, g, a, b);
    BalancedBoth(nodes, threshold, cap, start.slots, h, g);
  }

  // What a call promises for the listing of usable nodes it works on:
  // - replaying the steps on any table of the view's placement is possible and
  //   ends all ready in the placement that was tracked;
  // - the tracked counts are those of that placement;
  // - no node ends above the former maximum or below the former minimum;
  // - the leader loop ends at the threshold or at the cap (or one short of zero),
  //   the replica loop at the threshold, at the cap or without a legal move;
  // - with a cap of at least the slot count the leader skew ends within the
  //   threshold exactly when the threshold is positive or the slots divide evenly;
  // - every move was due when it was made: with the skew above the threshold, the
  //   first slot that its loop had not moved went from the fullest node to the
  //   emptiest; and the loops go on while a move is due.
  ghost predicate Rebalanced(view: View, nodes: seq<NodeId>, threshold: nat, cap: nat, g: Progress) {
    && |g.slots| == |view.slots| && g.moves <= cap
    && Reaches((set n | n in nodes), Placements(view.slots), g.steps, g.slots)
    && Books(nodes, g.slots, g.leaders, g.replicas)
    && Narrowing(nodes, Placements(view.slots), g.slots)
    && (Within(nodes, g.slots, threshold) || g.moves == cap || (threshold == 0 && Within(nodes, g.slots, 1)))
    && (g.moves == cap || ReplicasSettled(nodes, g.slots, g.moved, threshold))
    && (cap >= |view.slots| ==> (Within(nodes, g.slots, threshold) <==> threshold >= 1 || Even(nodes, g.slots)))
    && (exists start, mid, a, b :: InOrder(view.slots, start) && Route(nodes, threshold, cap, start, mid, g, a, b))
  }

  // What both loops reach from the sorted placement, for the view's own.
  lemma {:induction false} RebalancedBy(view: View, nodes: seq<NodeId>, threshold: nat, cap: nat, start: Progress, g: Progress,
                                        mid: seq<Placement>, a: Trail, b: Trail)
    requires InOrder(view.slots, start.slots) && |start.slots| == |view.slots|
    requires forall n :: Leads(start.slots, n) == Leads(Placements(view.slots), n)
    requires forall t: Table :: Describes(t, Placements(view.slots)) ==> Describes(t, start.slots)
    requires Sound(nodes, start.slots, g) && g.moves <= cap && Narrowing(nodes, start.slots, g.slots)
    requires g.moves == cap || ReplicasSettled(nodes, g.slots, g.moved, threshold)
    requires Within(nodes, g.slots, threshold) || g.moves == cap || (threshold == 0 && Within(nodes, g.slots, 1))
    requires cap >= |start.slots| ==> (Within(nodes, g.slots, threshold) <==> threshold >= 1 || Even(nodes, g.slots))
    requires Route(nodes, threshold, cap, start.slots, mid, g, a, b)
    ensures Rebalanced(view, nodes, threshold, cap, g)
  {
    NarrowingFrom(nodes, start.slots, Placements(view.slots), g.slots);
  }

  lemma {:induction false} NarrowingFrom(nodes: seq<NodeId>, from: seq<Placement>, same: seq<Placement>, slots: seq<Placement>)
    requires Narrowing(nodes, from, slots) && forall n :: Leads(from, n) == Leads(same, n)
    ensures Narrowing(nodes, same, slots)
  {
    forall lo, hi | Bounded(nodes, same, lo, hi)
      ensures Bounded(nodes, slots, lo, hi)
    {
      assert Bounded(nodes, from, lo, hi);
    }
  }

  // ------------------------------------------- the plan is determined

  lemma {:induction false} HopUnique(side: Side, nodes: seq<NodeId>, threshold: nat, a: Trail, b: Trail, k: nat)
    requires Hop(side, nodes, threshold, a, k) && Hop(side, nodes, threshold, b, k)
    requires a.placed[0] == b.placed[0] && a.placed[k] == b.placed[k]
    ensures a.path[k] == b.path[k] && a.placed[k + 1] == b.placed[k + 1] && a.chunks[k] == b.chunks[k]
  {
    DueUnique(side, nodes, threshold, a.placed[0], a.placed[k], a.path[k], b.path[k]);
  }

  lemma {:induction false} HopsUnique(side: Side, nodes: seq<NodeId>, threshold: nat, a: Trail, b: Trail, k: nat)
    requires Walk(side, nodes, threshold, a) && Walk(side, nodes, threshold, b) && k < |a.path| && k < |b.path|
    requires a.placed[0] == b.placed[0] && a.placed[k] == b.placed[k]
    ensures a.placed[k + 1] == b.placed[k + 1] && a.chunks[k] == b.chunks[k]
  {
    assert Hop(side, nodes, threshold, a, k) && Hop(side, nodes, threshold, b, k);
    HopUnique(side, nodes, threshold, a, b, k);
  }

  lemma {:induction false} PrefixOneMore<T>(a: seq<T>, b: seq<T>, k: nat)
    requires k < |a| && k < |b| && a[..k] == b[..k] && a[k] == b[k]
    ensures a[..k + 1] == b[..k + 1]
  {
    assert a[..k + 1] == a[..k] + [a[k]] && b[..k + 1] == b[..k] + [b[k]];
  }

  lemma {:induction false} SamePrefix(side: Side, nodes: seq<NodeId>, threshold: nat, a: Trail, b: Trail, k: nat)
    requires Walk(side, nodes, threshold, a) && Walk(side, nodes, threshold, b) && a.placed[0] == b.placed[0]
    requires k <= |a.path| && k <= |b.path|
    ensures a.placed[k] == b.placed[k] && a.chunks[..k] == b.chunks[..k]
    decreases k
  {
    if k > 0 {
      SamePrefix(side, nodes, threshold, a, b, k - 1);
      HopsUnique(side, nodes, threshold, a, b, k - 1);
      PrefixOneMore(a.chunks, b.chunks, k - 1);
    }
  }

  lemma {:induction false} DueThere(side: Side, nodes: seq<NodeId>, threshold: nat, tr: Trail, k: nat)
    requires Walk(side, nodes, threshold, tr) && k < |tr.path|
    ensures Due(side, nodes, threshold, tr.placed[0], tr.placed[k], tr.path[k])
  {
    assert Hop(side, nodes, threshold, tr, k);
  }

  lemma {:induction false} NotShorter(side: Side, nodes: seq<NodeId>, threshold: nat, cap: nat, from: seq<Placement>,
                                      a: Trail, p: seq<Placement>, b: Trail, q: seq<Placement>)
    requires Through(side, nodes, threshold, cap, from, a, p) && Through(side, nodes, threshold, cap, from, b, q)
    ensures |a.path| >= |b.path|
  {
    var k := |a.path|;
    if k < |b.path| {
      SamePrefix(side, nodes, threshold, a, b, k);
      DueThere(side, nodes, threshold, b, k);
    }
  }

  lemma {:induction false} SameTrail(side: Side, nodes: seq<NodeId>, threshold: nat, cap: nat, from: seq<Placement>,
                                     a: Trail, p: seq<Placement>, b: Trail, q: seq<Placement>)
    requires Through(side, nodes, threshold, cap, from, a, p) && Through(side, nodes, threshold, cap, from, b, q)
    ensures p == q && a.chunks == b.chunks && |a.path| == |b.path|
  {
    NotShorter(side, nodes, threshold, cap, from, a, p, b, q);
    NotShorter(side, nodes, threshold, cap, from, b, q, a, p);
    SamePrefix(side, nodes, threshold, a, b, |a.path|);
    assert a.chunks[..|a.path|] == a.chunks && b.chunks[..|b.path|] == b.chunks;
  }

  lemma {:induction false} SameRoute(nodes: seq<NodeId>, threshold: nat, cap: nat, start: seq<Placement>, m: seq<Placement>, g: Progress,
                                     a: Trail, b: Trail, n: seq<Placement>, h: Progress, c: Trail, d: Trail)
    requires Route(nodes, threshold, cap, start, m, g, a, b) && Route(nodes, threshold, cap, start, n, h, c, d)
    ensures g.steps == h.steps && g.slots == h.slots && g.moves == h.moves && g.blocked == h.blocked
  {
    SameTrail(Leaders, nodes, threshold, cap, start, a, m, c, n);
    SameTrail(Replicas, nodes, threshold, cap - |a.path|, m, b, g.slots, d, h.slots);
  }

  lemma {:induction false} SameOrder(slots: seq<SlotView>, s: seq<Placement>, t: seq<Placement>)
    requires InOrder(slots, s) && InOrder(slots, t)
    ensures s == t
  {
    SortedByUnique((p: Placement) => p.number, s, t);
  }

  // Two plans for the same view, nodes, threshold and cap are the same.
  lemma {:induction false} RebalanceIsDetermined(view: View, nodes: seq<NodeId>, threshold: nat, cap: nat, g: Progress, h: Progress)
    requires Rebalanced(view, nodes, threshold, cap, g) && Rebalanced(view, nodes, threshold, cap, h)
    ensures g.steps == h.steps && g.slots == h.slots && g.moves == h.moves && g.blocked == h.blocked
  {
    var s, m, a, b :| InOrder(view.slots, s) && Route(nodes, threshold, cap, s, m, g, a, b);
    var t, n, c, d :| InOrder(view.slots, t) && Route(nodes, threshold, cap, t, n, h, c, d);
    SameOrder(view.slots, s, t);
    SameRoute(nodes, threshold, cap, s, m, g, a, b, n, h, c, d);
  }

  // ------------------------------------------------ no plan, nothing to do

  lemma {:induction false} BeyondTotal(a: nat, m: NodeId, b: nat, n: NodeId)
    ensures m == n || Beyond(a, m, b, n) || Beyond(b, n, a, m)
  {
    LexTotal(m, n);
  }

  lemma {:induction false} BeyondTransitive(a: nat, l: NodeId, b: nat, m: NodeId, c: nat, n: NodeId)
    requires Beyond(a, l, b, m) && Beyond(b, m, c, n)
    ensures Beyond(a, l, c, n)
  {
    if Lex(l, m) && Lex(m, n) {
      LexTransitive(l, m, n);
    }
  }

  // The end on one side, whichever way it is looked for.
  lemma {:induction false} MostExists(side: Side, nodes: seq<NodeId>, slots: seq<Placement>) returns (source: NodeId)
    requires nodes != []
    ensures source in nodes
    ensures forall n :: n in nodes ==> n == source || Beyond(CountOn(side, slots, n), n, CountOn(side, slots, source), source)
    decreases |nodes|
  {
    var k := |nodes| - 1;
    source := nodes[k];
    if k > 0 {
      var best := MostExists(side, nodes[..k], slots);
      BeyondTotal(CountOn(side, slots, best), best, CountOn(side, slots, source), source);
      if best == source || Beyond(CountOn(side, slots, best), best, CountOn(side, slots, source), source) {
        forall n | n in nodes && n != source
          ensures Beyond(CountOn(side, slots, n), n, CountOn(side, slots, source), source)
        {
          assert n in nodes[..k];
          if n != best && best != source {
            BeyondTransitive(CountOn(side, slots, n), n, CountOn(side, slots, best), best, CountOn(side, slots, source), source);
          }
        }
      } else {
        source := best;
      }
    }
  }

  lemma {:induction false} LeastExists(side: Side, nodes: seq<NodeId>, slots: seq<Placement>) returns (target: NodeId)
    requires nodes != []
    ensures target in nodes
    ensures forall n :: n in nodes ==> n == target || Beyond(CountOn(side, slots, target), target, CountOn(side, slots, n), n)
    decreases |nodes|
  {
    var k := |nodes| - 1;
    target := nodes[k];
    if k > 0 {
      var best := LeastExists(side, nodes[..k], slots);
      BeyondTotal(CountOn(side, slots, target), target, CountOn(side, slots, best), best);
      if best == target || Beyond(CountOn(side, slots, target), target, CountOn(side, slots, best), best) {
        forall n | n in nodes && n != target
          ensures Beyond(CountOn(side, slots, target), target, CountOn(side, slots, n), n)
        {
          assert n in nodes[..k];
          if n != best && best != target {
            BeyondTransitive(CountOn(side, slots, target), target, CountOn(side, slots, best), best, CountOn(side, slots, n), n);
          }
        }
      } else {
        target := best;
      }
    }
  }

  lemma {:induction false} ChunkThere(side: Side, nodes: seq<NodeId>, threshold: nat, tr: Trail, k: nat)
    requires Walk(side, nodes, threshold, tr) && k < |tr.path|
    ensures tr.chunks[k] != []
  {
    assert Hop(side, nodes, threshold, tr, k);
  }

  lemma {:induction false} EmptyTrail(side: Side, nodes: seq<NodeId>, threshold: nat, tr: Trail, p: seq<Placement>, q: seq<Placement>)
    requires Walk(side, nodes, threshold, tr) && Flat(tr.chunks) == [] && From(tr, p) && To(tr, q)
    ensures tr.path == [] && p == q
  {
    if tr.path != [] {
      var k := |tr.path| - 1;
      ChunkThere(side, nodes, threshold, tr, k);
    }
  }

  lemma {:induction false} CountWitness(side: Side, slots: seq<Placement>, id: NodeId) returns (i: nat)
    requires CountOn(side, slots, id) > 0
    ensures i < |slots| && OwnerOn(side, slots[i]) == id
    decreases |slots|
  {
    i := |slots| - 1;
    if OwnerOn(side, slots[i]) != id {
      i := CountWitness(side, slots[..i], id);
    }
  }

  lemma {:induction false} FirstFree(side: Side, slots: seq<Placement>, i: nat, source: NodeId, target: NodeId) returns (k: nat)
    requires Free(side, slots, slots, i, source, target)
    ensures Free(side, slots, slots, k, source, target) && forall j :: 0 <= j < k ==> !Free(side, slots, slots, j, source, target)
  {
    k := 0;
    while !Free(side, slots, slots, k, source, target)
      invariant k <= i && forall j :: 0 <= j < k ==> !Free(side, slots, slots, j, source, target)
      decreases i - k
    {
      k := k + 1;
    }
  }

  lemma {:induction false} LeadersSettle(nodes: seq<NodeId>, threshold: nat, slots: seq<Placement>)
    requires nodes != [] && NoneDue(Leaders, nodes, threshold, slots, slots)
    ensures Within(nodes, slots, threshold)
  {
    var source := MostExists(Leaders, nodes, slots);
    var target := LeastExists(Leaders, nodes, slots);
    if CountOn(Leaders, slots, source) > CountOn(Leaders, slots, target) + threshold {
      var i := CountWitness(Leaders, slots, source);
      var k := FirstFree(Leaders, slots, i, source, target);
      assert Due(Leaders, nodes, threshold, slots, slots, Shift(k, target));
    }
  }

  lemma {:induction false} ReplicasSettle(nodes: seq<NodeId>, threshold: nat, slots: seq<Placement>)
    requires nodes != [] && NoneDue(Replicas, nodes, threshold, slots, slots)
    ensures ReplicasSettled(nodes, slots, {}, threshold)
  {
    var source := MostExists(Replicas, nodes, slots);
    var target := LeastExists(Replicas, nodes, slots);
    if CountOn(Replicas, slots, source) > CountOn(Replicas, slots, target) + threshold {
      forall i | 0 <= i < |slots|
        ensures !ReplicaMovable(slots[i], {}, source, target)
      {
        if ReplicaMovable(slots[i], {}, source, target) {
          var k := FirstFree(Replicas, slots, i, source, target);
          assert Due(Replicas, nodes, threshold, slots, slots, Shift(k, target));
        }
      }
    }
    assert SettledBetween(nodes, slots, {}, threshold, source, target);
  }

  lemma {:induction false} SettledPermuted(nodes: seq<NodeId>, threshold: nat, s: seq<Placement>, t: seq<Placement>, source: NodeId, target: NodeId)
    requires multiset(s) == multiset(t) && SettledBetween(nodes, s, {}, threshold, source, target)
    ensures SettledBetween(nodes, t, {}, threshold, source, target)
  {
    forall n
      ensures Follows(s, n) == Follows(t, n)
    {
      LeadsPermuted(s, t, n);
    }
    forall i | 0 <= i < |t|
      ensures t[i] in s
    {
      assert t[i] in multiset(s);
    }
  }

  lemma {:induction false} WithinPermuted(nodes: seq<NodeId>, threshold: nat, s: seq<Placement>, t: seq<Placement>)
    requires multiset(s) == multiset(t) && Within(nodes, s, threshold)
    ensures Within(nodes, t, threshold)
  {
    forall n
      ensures Leads(s, n) == Leads(t, n)
    {
      LeadsPermuted(s, t, n);
    }
  }

  lemma {:induction false} EmptyRoute(
    nodes: seq<NodeId>, threshold: nat, cap: nat, start: seq<Placement>, mid: seq<Placement>, g: Progress, a: Trail, b: Trail)
    requires Route(nodes, threshold, cap, start, mid, g, a, b) && cap > 0 && g.steps == []
    ensures NoneDue(Leaders, nodes, threshold, start, start) && NoneDue(Replicas, nodes, threshold, start, start)
  {
    assert |Flat(a.chunks)| == 0 && |Flat(b.chunks)| == 0;
    EmptyTrail(Leaders, nodes, threshold, a, start, mid);
    EmptyTrail(Replicas, nodes, threshold, b, mid, g.slots);
  }

  // Without a plan there is nothing to do: leader counts are within the
  // threshold, and replica counts are or no replica may move.
  lemma {:induction false} NoPlanMeansSettled(view: View, nodes: seq<NodeId>, threshold: nat, cap: nat, g: Progress)
    requires Rebalanced(view, nodes, threshold, cap, g) && nodes != [] && cap > 0 && g.steps == []
    ensures Within(nodes, Placements(view.slots), threshold)
    ensures ReplicasSettled(nodes, Placements(view.slots), {}, threshold)
  {
    var start, mid, a, b :| InOrder(view.slots, start) && Route(nodes, threshold, cap, start, mid, g, a, b);
    EmptyRoute(nodes, threshold, cap, start, mid, g, a, b);
    LeadersSettle(nodes, threshold, start);
    WithinPermuted(nodes, threshold, start, Placements(view.slots));
    ReplicasSettle(nodes, threshold, start);
    var source, target :| SettledBetween(nodes, start, {}, threshold, source, target);
    SettledPermuted(nodes, threshold, start, Placements(view.slots), source, target);
  }

  lemma {:induction false} SteadyIsSafe(view: View, t: Table)
    requires WellFormed(view) && Steady(view) && Describes(t, Placements(view.slots))
    ensures Safe(t)
  {
    forall n | n in t
      ensures SafeRow(t[n])
    {
      var i :| 0 <= i < |view.slots| && Placements(view.slots)[i].number == n;
      assert view.slots[i] in view.slots;
    }
  }

  // A rebalancing can stop after any of its steps: there every slot has its data
  // at its leader, and at its replica if that is ready, and the next step applies.
  lemma {:induction false} RebalanceIsSafe(view: View, nodes: seq<NodeId>, threshold: nat, cap: nat, g: Progress, t: Table, k: nat)
    requires WellFormed(view) && Steady(view) && Rebalanced(view, nodes, threshold, cap, g)
    requires Describes(t, Placements(view.slots)) && k <= |g.steps|
    ensures var members := set n | n in nodes;
      && Replayable(members, t, g.steps[..k]) && Safe(Replay(t, g.steps[..k]))
      && (k < |g.steps| ==> Applicable(members, Replay(t, g.steps[..k]), g.steps[k]))
  {
    SteadyIsSafe(view, t);
    PrefixSafe((set n | n in nodes), t, g.steps, k);
  }

  // The slots whose writes the plan blocks are those it has steps for.
  ghost predicate BlocksWhatItMoves(plan: Plan) {
    && (forall s :: s in plan.steps ==> s.slot in plan.blocked)
    && (forall n :: n in plan.blocked ==> exists s :: s in plan.steps && s.slot == n)
  }

  method PlanRebalance(view: View, skewThreshold: int, maxMoves: int)
    returns (plan: Option<Plan>, nodes: seq<NodeId>, g: Progress)
    requires WellFormed(view)
    ensures Lists(map[], nodes, UsableNodes(view))
    ensures plan.Some? ==> maxMoves > 0 && |nodes| >= 2 && Steady(view)
    ensures plan.Some? ==>
      && plan.value.kind == Rebalancing && plan.value.epoch == view.version
      && plan.value.steps != [] && plan.value.unrecoverable == []
      && Lists(map[], plan.value.dead, FailedNodes(view)) && BlocksWhatItMoves(plan.value)
    ensures g.steps == (if plan.Some? then plan.value.steps else []) && (plan.Some? ==> g.blocked == plan.value.blocked)
    ensures maxMoves > 0 && |nodes| >= 2 && Steady(view) ==>
      Rebalanced(view, nodes, if skewThreshold < 0 then 0 else skewThreshold, maxMoves, g)
  {
    plan, g := None, Progress([], map[], map[], [], [], {}, 0);
    var threshold: nat := if skewThreshold < 0 then 0 else skewThreshold;
    nodes := Arrange(UsableNodes(view), map[]);
    ListsMembers(map[], nodes, UsableNodes(view));
    if maxMoves <= 0 || |nodes| < 2 {
      return;
    }
    var start := Prepare(view, nodes);
    if start.None? {
      return;
    }
    ghost var mid, a, b;
    g, mid, a, b := Balance(nodes, start.value, threshold, maxMoves);
    RebalancedBy(view, nodes, threshold, maxMoves, start.value, g, mid, a, b);
    if g.steps == [] {
      return;
    }
    var dead := Arrange(FailedNodes(view), map[]);
    plan := Some(Plan(Rebalancing, view.version, dead, g.steps, [], g.blocked));
  }
}
