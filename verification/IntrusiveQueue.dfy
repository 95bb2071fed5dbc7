/**
 The singly linked queues of phases 2 and 3: the links live in the nodes.  Neither operation ever
 clears a link, and nodes come back to a queue with links left over from an earlier stay; what makes
 this sound is that the link of the last node is never followed.
 */
module IntrusiveQueue {

  class Node<T> {
    const item: T
    var next: Node?<T>

    constructor (item: T)
      ensures this.item == item
    {
      this.item := item;
      next := null;
    }
  }

  class LinkedQueue<T> {
    var head: Node?<T>
    var tail: Node?<T>
    var size: int
    ghost var nodes: seq<Node<T>>

    /** The nodes in order.  Nothing is said about the link of the last one. */
    ghost predicate Valid()
      reads this, nodes
    {
      && size == |nodes|
      && (forall i, j :: 0 <= i < j < |nodes| ==> nodes[i] != nodes[j])
      && (if nodes == [] then head == null && tail == null
          else head == nodes[0] && tail == nodes[|nodes| - 1])
      && (forall i {:trigger nodes[i].next} :: 0 <= i < |nodes| - 1 ==> nodes[i].next == nodes[i + 1])
    }

    constructor ()
      ensures Valid() && nodes == []
    {
      head, tail, size, nodes := null, null, 0, [];
    }

    /** `p` may arrive with any link, to a node of this queue, of another one, or to itself. */
    method Enqueue(p: Node<T>)
      requires Valid() && p !in nodes
      modifies this, if tail != null then {tail} else {}
      ensures Valid() && nodes == old(nodes) + [p]
      ensures p.next == old(p.next)
    {
      if head == null && tail == null {
        head, tail := p, p;
      } else {
        tail.next := p;
        tail := p;
      }
      size := size + 1;
      nodes := nodes + [p];
    }

    method Dequeue() returns (p: Node?<T>)
      requires Valid()
      modifies this
      ensures Valid()
      ensures if old(nodes) == [] then p == null && nodes == [] else p == old(nodes)[0] && nodes == old(nodes)[1..]
    {
      p := head;
      if head == null {
        return;
      }
      if head == tail {
        head, tail := null, null;
      } else {
        head := head.next;
      }
      size := size - 1;
      nodes := nodes[1..];
    }
  }

  /**
   A node taken off one queue joins another, its stale link still pointing into the first: neither
   queue is the worse for it.
   */
  method Reuse<T>(from: LinkedQueue<T>, to: LinkedQueue<T>)
    requires from.Valid() && to.Valid() && from != to && from.nodes != []
    requires forall n :: n in from.nodes ==> n !in to.nodes
    modifies from, to, to.nodes
    ensures from.Valid() && to.Valid()
    ensures from.nodes == old(from.nodes)[1..] && to.nodes == old(to.nodes) + [old(from.nodes)[0]]
  {
    var n := from.Dequeue();
    assert to.tail != null ==> to.tail in to.nodes;
    to.Enqueue(n);
  }
}
