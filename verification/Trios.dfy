// Three nodes, for the runs that show what a guarantee depends on.
module Trios {
  import opened Slots

  const A: NodeId := [65]
  const B: NodeId := [66]
  const C: NodeId := [67]

  function Trio<T>(a: T, b: T, c: T): map<NodeId, T> {
    map[A := a, B := b, C := c]
  }
}
