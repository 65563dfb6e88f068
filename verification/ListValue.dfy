// The doubly linked list behind a list value.
module ListValues {
  import opened Options
  import opened Ordering
  import opened Values
  import opened Stores

  class ListNode {
    var prev: ListNode?
    var next: ListNode?
    const value: Bytes

    constructor (value: Bytes)
      ensures this.value == value && prev == null && next == null
    {
      this.value := value;
      prev, next := null, null;
    }
  }

  ghost function ValuesOf(nodes: seq<ListNode>): seq<Bytes> {
    seq(|nodes|, i requires 0 <= i < |nodes| => nodes[i].value)
  }

  class ListValue {
    var head: ListNode?
    var tail: ListNode?
    var len: nat
    ghost var nodes: seq<ListNode>
    ghost var repr: set<ListNode>

    // Following next from the head and prev from the tail passes the same
    // nodes, in opposite directions, and there are len of them.
    ghost predicate Valid()
      reads this, repr
    {
      && len == |nodes|
      && (forall i :: 0 <= i < |nodes| ==> nodes[i] in repr)
      && (forall i, j :: 0 <= i < j < |nodes| ==> nodes[i] != nodes[j])
      && (nodes == [] ==> head == null && tail == null)
      && (nodes != [] ==> head == nodes[0] && head.prev == null && tail == nodes[|nodes| - 1] && tail.next == null)
      && (forall i {:trigger nodes[i].next} :: 0 <= i < |nodes| - 1 ==> nodes[i].next == nodes[i + 1])
      && (forall i {:trigger nodes[i].prev} :: 1 <= i < |nodes| ==> nodes[i].prev == nodes[i - 1])
    }

    ghost function Contents(): seq<Bytes>
      reads this
    {
      ValuesOf(nodes)
    }

    constructor ()
      ensures Valid() && nodes == [] && Contents() == []
    {
      head, tail, len := null, null, 0;
      nodes, repr := [], {};
    }

    method PushFront(v: Bytes)
      requires Valid()
      modifies this, repr
      ensures Valid() && fresh(repr - old(repr))
      ensures Contents() == [v] + old(Contents())
    {
      var node := new ListNode(v);
      if head == null {
        tail := node;
      } else {
        node.next := head;
        head.prev := node;
      }
      head := node;
      len := len + 1;
      nodes, repr := [node] + nodes, repr + {node};
    }

    method PushBack(v: Bytes)
      requires Valid()
      modifies this, repr
      ensures Valid() && fresh(repr - old(repr))
      ensures Contents() == old(Contents()) + [v]
    {
      var node := new ListNode(v);
      if tail == null {
        head := node;
      } else {
        node.prev := tail;
        tail.next := node;
      }
      tail := node;
      len := len + 1;
      nodes, repr := nodes + [node], repr + {node};
    }

    method LPush(values: seq<Bytes>) returns (n: nat)
      requires Valid()
      modifies this, repr
      ensures Valid() && Contents() == Pushed(old(Contents()), values, true) && n == |Contents()|
      ensures fresh(repr - old(repr))
    {
      for i := 0 to |values|
        invariant Valid() && Contents() == Reversed(values[..i]) + old(Contents())
        invariant fresh(repr - old(repr))
      {
        ReversedAppend(values[..i], values[i]);
        assert values[..i + 1] == values[..i] + [values[i]];
        ghost var behind := Reversed(values[..i]);
        PushFront(values[i]);
        assert [values[i]] + (behind + old(Contents())) == ([values[i]] + behind) + old(Contents());
      }
      assert values[..|values|] == values;
      return len;
    }

    method RPush(values: seq<Bytes>) returns (n: nat)
      requires Valid()
      modifies this, repr
      ensures Valid() && Contents() == Pushed(old(Contents()), values, false) && n == |Contents()|
      ensures fresh(repr - old(repr))
    {
      for i := 0 to |values|
        invariant Valid() && Contents() == old(Contents()) + values[..i]
        invariant fresh(repr - old(repr))
      {
        PushBack(values[i]);
      }
      return len;
    }

    method LPop() returns (r: Option<Bytes>)
      requires Valid()
      modifies this, repr
      ensures Valid() && repr == old(repr)
      ensures if old(Contents()) == [] then r == None && Contents() == []
              else r == Some(old(Contents())[0]) && Contents() == old(Contents())[1..]
    {
      if head == null {
        return None;
      }
      var node := head;
      head := node.next;
      if head == null {
        tail := null;
      } else {
        head.prev := null;
      }
      len := len - 1;
      nodes := nodes[1..];
      return Some(node.value);
    }

    method RPop() returns (r: Option<Bytes>)
      requires Valid()
      modifies this, repr
      ensures Valid() && repr == old(repr)
      ensures if old(Contents()) == [] then r == None && Contents() == []
              else
                var n := |old(Contents())| - 1;
                r == Some(old(Contents())[n]) && Contents() == old(Contents())[..n]
    {
      if tail == null {
        return None;
      }
      var node := tail;
      tail := node.prev;
      if tail == null {
        head := null;
      } else {
        tail.next := null;
      }
      len := len - 1;
      nodes := nodes[..|nodes| - 1];
      return Some(node.value);
    }

    // Walks the chain from the head.
    method EntrySize(key: Bytes) returns (size: nat)
      requires Valid()
      ensures size == Charge(key, List(Contents()))
    {
      size := STRING_OVERHEAD + |key|;
      var node := head;
      ghost var i := 0;
      while node != null
        invariant 0 <= i <= |nodes| && (if i < |nodes| then node == nodes[i] else node == null)
        invariant size == STRING_OVERHEAD + |key| + ItemsSize(Contents()[..i])
        decreases |nodes| - i
      {
        ItemsSizeAppend(Contents()[..i], [node.value]);
        assert Contents()[..i + 1] == Contents()[..i] + [node.value];
        assert ItemsSize([node.value]) == LIST_NODE_OVERHEAD + |node.value|;
        size := size + LIST_NODE_OVERHEAD + |node.value|;
        node := node.next;
        i := i + 1;
      }
      assert Contents()[..|nodes|] == Contents();
    }
  }

  lemma {:induction false} ReversedAppend(s: seq<Bytes>, v: Bytes)
    ensures Reversed(s + [v]) == [v] + Reversed(s)
  {
    if s != [] {
      assert (s + [v])[1..] == s[1..] + [v];
      ReversedAppend(s[1..], v);
    } else {
      assert (s + [v])[1..] == [];
    }
  }
}
