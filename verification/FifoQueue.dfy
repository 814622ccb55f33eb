/**
 The linked queue: nodes from front to back, each pointing at the next.
 */
module FifoQueue {
  import opened Messages

  class Node<T> {
    const val: T
    var next: Node?<T>

    constructor (val: T)
      ensures this.val == val && next == null
    {
      this.val, this.next := val, null;
    }
  }

  class Queue<T> {
    var front: Node?<T>
    var back: Node?<T>
    var len: nat

    ghost var Contents: seq<T>
    ghost var nodes: seq<Node<T>>

    /** The nodes hold the contents, and are linked in order from front to back. */
    ghost predicate Valid()
      reads this, nodes
    {
      && len == |Contents| == |nodes|
      && front == (if len == 0 then null else nodes[0])
      && back == (if len == 0 then null else nodes[len - 1])
      && (forall i :: 0 <= i < len ==> nodes[i].val == Contents[i])
      && (forall i :: 0 <= i < len - 1 ==> nodes[i].next == nodes[i + 1])
      && (len > 0 ==> nodes[len - 1].next == null)
    }

    constructor ()
      ensures Valid() && Contents == [] && nodes == []
    {
      front, back, len := null, null, 0;
      Contents, nodes := [], [];
    }

    /** No node stands twice in the list: following next from it would never end. */
    lemma {:induction false} NodesDistinct(i: nat, j: nat)
      requires Valid() && i < j < len
      ensures nodes[i] != nodes[j]
      decreases len - j
    {
      assert nodes[i].next == nodes[i + 1];
      assert nodes[j].next == if j + 1 < len then nodes[j + 1] else null;
      if j + 1 < len {
        NodesDistinct(i + 1, j + 1);
      }
    }

    method Push(o: T)
      requires Valid()
      modifies this, back
      ensures Valid() && Contents == old(Contents) + [o]
      ensures |nodes| == |old(nodes)| + 1 && nodes[..|old(nodes)|] == old(nodes) && fresh(nodes[|old(nodes)|])
    {
      var newBack := new Node(o);
      if len == 0 {
        front, back := newBack, newBack;
      } else {
        forall i: nat | i < len - 1
          ensures nodes[i] != back
        {
          NodesDistinct(i, len - 1);
        }
        back.next := newBack;
        back := newBack;
      }
      len := len + 1;
      Contents := Contents + [o];
      nodes := nodes + [newBack];
    }

    /** The oldest element, or nothing from an empty queue. */
    method Pop() returns (r: Option<T>)
      requires Valid()
      modifies this, front
      ensures Valid() && r == if old(Contents) == [] then None else Some(old(Contents)[0])
      ensures Contents == if old(Contents) == [] then [] else old(Contents)[1..]
      ensures nodes == if old(Contents) == [] then [] else old(nodes)[1..]
    {
      if len == 0 {
        return None;
      }
      forall j: nat | 0 < j < len
        ensures nodes[j] != front
      {
        NodesDistinct(0, j);
      }
      assert front.next == if 1 < len then nodes[1] else null;
      var temp := front;
      front := temp.next;
      len := len - 1;
      if front == null {
        back := null;
      }
      temp.next := null;
      Contents, nodes := Contents[1..], nodes[1..];
      assert forall i :: 0 <= i < len ==> nodes[i] == old(nodes)[i + 1];
      return Some(temp.val);
    }

    method Clear()
      requires Valid()
      modifies this
      ensures Valid() && Contents == [] && nodes == []
    {
      front, back, len := null, null, 0;
      Contents, nodes := [], [];
    }
  }
}
