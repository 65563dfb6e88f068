// The committed cluster view the planner works from.
module Views {
  import opened Slots

  datatype NodeView = NodeView(reachable: bool, suspected: bool, eligible: bool, leaderSlots: int, replicaSlots: int)

  datatype SlotView = SlotView(number: nat, own: Own)

  datatype View = View(version: nat, slots: seq<SlotView>, nodes: map<NodeId, NodeView>)

  // A node that may be given data: eligible, reachable and not under suspicion.
  predicate Usable(n: NodeView) {
    n.eligible && n.reachable && !n.suspected
  }

  // A node that may be relied on for the data it has; suspicion is tolerated.
  predicate OwnerAvailable(nodes: map<NodeId, NodeView>, id: NodeId) {
    id != NOBODY && id in nodes && nodes[id].reachable && nodes[id].eligible
  }

  function UsableNodes(view: View): set<NodeId> {
    set id | id in view.nodes && Usable(view.nodes[id])
  }

  ghost predicate DistinctNumbers(slots: seq<SlotView>) {
    forall i, j :: 0 <= i < j < |slots| ==> slots[i].number != slots[j].number
  }

  // Nodes confirmed down: not merely suspected, and unreachable or ineligible.
  function FailedNodes(view: View): set<NodeId> {
    set id | id in view.nodes && !view.nodes[id].suspected && (!view.nodes[id].reachable || !view.nodes[id].eligible)
  }

  // A suspected node is neither usable nor failed, though what it holds counts as
  // available; any other is one of the two, usable exactly if it is reachable and
  // eligible.
  lemma {:induction false} NodesByState(view: View, id: NodeId)
    requires id in view.nodes
    ensures view.nodes[id].suspected ==> id !in UsableNodes(view) && id !in FailedNodes(view)
    ensures !view.nodes[id].suspected ==> (id in UsableNodes(view) <==> id !in FailedNodes(view))
    ensures !view.nodes[id].suspected ==> (id in UsableNodes(view) <==> view.nodes[id].reachable && view.nodes[id].eligible)
    ensures id != NOBODY ==> (OwnerAvailable(view.nodes, id) <==> view.nodes[id].reachable && view.nodes[id].eligible)
    ensures id in FailedNodes(view) ==> !OwnerAvailable(view.nodes, id)
  {
  }

  // What metadata validation and configuration guarantee of an observed view:
  // slot numbers are distinct and node identifiers are not empty.
  ghost predicate WellFormed(view: View) {
    DistinctNumbers(view.slots) && NOBODY !in view.nodes
  }
}
