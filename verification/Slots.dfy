// Who owns a slot, and the three operations that change it. Metadata, planner
// and executor all work on these.
module Slots {
  import opened Ordering

  // A node's configured identity; the empty string means "no node".
  type NodeId = Bytes

  const NOBODY: NodeId := []

  // The ownership part of a slot's state.
  datatype Own = Own(leader: NodeId, replica: NodeId, ready: bool)

  // Metadata.Promote: the replica takes over and the slot has none any more.
  function PromoteOwn(o: Own): Own {
    Own(o.replica, NOBODY, false)
  }

  // Metadata.AssignReplica: a replica that still has to be synchronised.
  function AssignOwn(o: Own, target: NodeId): Own {
    Own(o.leader, target, false)
  }

  // Metadata.MarkReplicaReady: the replica has caught up.
  function ReadyOwn(o: Own): Own {
    Own(o.leader, o.replica, true)
  }
}
