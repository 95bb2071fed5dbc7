/**
 The linked ring of disk requests of phase4/phase4.c.  Its nodes are process table entries; `next`
 and `prev` close a circle once there are two of them, while a lone node may carry null links (it was
 added to an empty queue) or links to itself (it is what a removal left over).
 */
module DiskQueue {
  import opened Wrappers
  import opened ProcTable
  import CScan

  class RequestQueue {
    var head: Proc?
    var tail: Proc?
    var curr: Proc?
    var size: int

    ghost var nodes: seq<Proc>
    ghost var cursor: Option<nat>

    static ghost function Requests(s: seq<Proc>): seq<CScan.Request>
      reads s
    {
      seq(|s|, i requires 0 <= i < |s| reads s => CScan.Request(s[i].slot, s[i].diskTrack))
    }

    /** The requests on the queue, as values. */
    ghost function Abs(): (q: CScan.Queue)
      reads this, nodes
      ensures |q.reqs| == |nodes| && q.cursor == cursor
    {
      CScan.Queue(Requests(nodes), cursor)
    }

    /** `s` is threaded by its links into a circle that starts at `head` and ends at `tail`. */
    static ghost predicate Ring(s: seq<Proc>, head: Proc?, tail: Proc?)
      reads s
    {
      && (forall i, j :: 0 <= i < j < |s| ==> s[i] != s[j])
      && (if s == [] then head == null && tail == null else
            && head == s[0] && tail == s[|s| - 1]
            && ((tail.nextDisk == head && head.prevDisk == tail) ||
                (|s| == 1 && head.nextDisk == null && head.prevDisk == null)))
      && (forall i {:trigger s[i].nextDisk} :: 0 <= i < |s| - 1 ==> s[i].nextDisk == s[i + 1])
      && (forall i {:trigger s[i].prevDisk} :: 0 < i < |s| ==> s[i].prevDisk == s[i - 1])
    }

    ghost predicate Linked()
      reads this, nodes
    {
      size == |nodes| && Ring(nodes, head, tail)
    }

    ghost predicate Valid()
      reads this, nodes
    {
      && Linked()
      && CScan.Wf(Abs())
      && (if cursor.Some? then cursor.value < |nodes| && curr == nodes[cursor.value] else curr == null)
    }

    constructor ()
      ensures Valid() && Abs() == CScan.EMPTY
    {
      head, tail, curr, size := null, null, null, 0;
      nodes, cursor := [], None;
    }

    /** The search loop of the insertion: finds the neighbours of the place where `p` belongs. */
    method FindPlace(p: Proc) returns (prev: Proc, next: Proc)
      requires Valid() && nodes != []
      ensures var k := CScan.InsertPos(Abs().reqs, p.diskTrack);
              && k <= |nodes|
              && prev == (if k == 0 then tail else nodes[k - 1])
              && next == (if k == |nodes| then head else nodes[k])
              && (k == 0 <==> p.diskTrack < head.diskTrack)
              && (k == |nodes| <==> p.diskTrack >= tail.diskTrack)
    {
      hide CScan.InsertPos;
      ghost var q := Abs();
      assert forall j :: 0 <= j < |nodes| ==> q.reqs[j].track == nodes[j].diskTrack;
      ghost var k := CScan.InsertPos(q.reqs, p.diskTrack);
      var n: Proc?;
      prev, n := tail, head;
      ghost var i := 0;
      while n != null && n.diskTrack <= p.diskTrack
        invariant 0 <= i <= k
        invariant if i < |nodes| then n == nodes[i] else n == null
        invariant prev == if i == 0 then tail else nodes[i - 1]
        decreases |nodes| - i
      {
        assert q.reqs[i].track == n.diskTrack;
        prev := n;
        n := n.nextDisk;
        i := i + 1;
        if n == head {
          break;
        }
      }
      assert i < |nodes| ==> q.reqs[i].track == nodes[i].diskTrack;
      assert i == k;
      assert k < |nodes| ==> q.reqs[k].track <= q.reqs[|nodes| - 1].track == tail.diskTrack;
      next := if n == null then head else n;
    }

    lemma RingWith(s: seq<Proc>, p: Proc, k: nat, head: Proc, tail: Proc)
      requires s != [] && k <= |s| && p !in s
      requires forall i, j :: 0 <= i < j < |s| ==> s[i] != s[j]
      requires head == if k == 0 then p else s[0]
      requires tail == if k == |s| then p else s[|s| - 1]
      requires tail.nextDisk == head && head.prevDisk == tail
      requires forall i {:trigger s[i].nextDisk} :: 0 <= i < |s| - 1 ==>
        s[i].nextDisk == if i + 1 == k then p else s[i + 1]
      requires forall i {:trigger s[i].prevDisk} :: 0 < i < |s| ==>
        s[i].prevDisk == if i == k then p else s[i - 1]
      requires k > 0 ==> s[k - 1].nextDisk == p && p.prevDisk == s[k - 1]
      requires k < |s| ==> p.nextDisk == s[k] && s[k].prevDisk == p
      ensures Ring(s[..k] + [p] + s[k..], head, tail)
    {
      var t := s[..k] + [p] + s[k..];
      assert forall i {:trigger t[i]} :: 0 <= i < |t| ==>
        t[i] == if i < k then s[i] else if i == k then p else s[i - 1];
    }

    /** The relinking at the end of the insertion. */
    method Splice(p: Proc, prev: Proc, next: Proc, ghost k: nat)
      requires Linked() && nodes != [] && p !in nodes
      requires k <= |nodes|
      requires prev == if k == 0 then tail else nodes[k - 1]
      requires next == if k == |nodes| then head else nodes[k]
      requires k == 0 <==> p.diskTrack < head.diskTrack
      requires k == |nodes| <==> p.diskTrack >= tail.diskTrack
      modifies this`head, this`tail, this`size, this`nodes
      modifies p`prevDisk, p`nextDisk, nodes`prevDisk, nodes`nextDisk
      ensures Linked()
      ensures nodes == old(nodes)[..k] + [p] + old(nodes)[k..]
    {
      ghost var s := nodes;
      prev.nextDisk := p;
      p.prevDisk := prev;
      p.nextDisk := next;
      next.prevDisk := p;
      if p.diskTrack < head.diskTrack {
        head := p;
      }
      if p.diskTrack >= tail.diskTrack {
        tail := p;
      }
      nodes := s[..k] + [p] + s[k..];
      size := size + 1;
      RingWith(s, p, k, head, tail);
    }

    static lemma RequestsWith(s: seq<Proc>, p: Proc, k: nat)
      requires k <= |s|
      ensures Requests(s[..k] + [p] + s[k..])
              == Requests(s)[..k] + [CScan.Request(p.slot, p.diskTrack)] + Requests(s)[k..]
    {
    }

    /** The whole relinking: `p` joins the ring at its place. */
    method Link(p: Proc) returns (ghost k: nat)
      requires Valid() && p !in nodes
      modifies this`head, this`tail, this`size, this`nodes
      modifies p`prevDisk, p`nextDisk, nodes`prevDisk, nodes`nextDisk
      ensures Linked()
      ensures k == CScan.InsertPos(old(Abs()).reqs, p.diskTrack) <= |old(nodes)|
      ensures nodes == old(nodes)[..k] + [p] + old(nodes)[k..]
    {
      k := CScan.InsertPos(Abs().reqs, p.diskTrack);
      hide CScan.InsertPos, CScan.Wf;
      if head == null {
        head, tail, size := p, p, 1;
        p.nextDisk, p.prevDisk := null, null;
        nodes := [p];
      } else {
        var prev, next := FindPlace(p);
        Splice(p, prev, next, k);
      }
    }

    method Add(p: Proc)
      requires Valid() && p !in nodes
      modifies this, p`prevDisk, p`nextDisk, nodes`prevDisk, nodes`nextDisk
      ensures Valid() && curr == old(curr)
      ensures Abs() == CScan.Add(old(Abs()), CScan.Request(p.slot, p.diskTrack))
      ensures var k := CScan.InsertPos(old(Abs()).reqs, p.diskTrack);
              nodes == old(nodes)[..k] + [p] + old(nodes)[k..]
    {
      hide CScan.InsertPos, CScan.Wf, Ring;
      ghost var s, q, r := nodes, Abs(), CScan.Request(p.slot, p.diskTrack);
      var k := Link(p);
      cursor := CScan.Add(q, r).cursor;
      CScan.AddWf(q, r);
      RequestsWith(s, p, k);
      assert Requests(s) == q.reqs;
      assert Abs() == CScan.Add(q, r);
    }

    lemma SizeOf()
      requires Valid()
      ensures size == |nodes|
      ensures nodes != [] ==> CScan.Front(Abs()) < |nodes|
    {
    }

    /** A look at the next request starts the sweep if none is under way. */
    method Peek() returns (p: Proc?)
      requires Valid()
      modifies this`curr, this`cursor
      ensures Valid()
      ensures Abs() == CScan.Peek(old(Abs()))
      ensures if nodes == [] then p == null else cursor.Some? && p == nodes[cursor.value]
    {
      if curr == null {
        curr := head;
        cursor := if nodes == [] then None else Some(0);
      }
      p := curr;
    }

    lemma RingWithout(s: seq<Proc>, c: nat, head: Proc, tail: Proc)
      requires |s| > 1 && c < |s|
      requires forall i, j :: 0 <= i < j < |s| ==> s[i] != s[j]
      requires head == if c == 0 then s[1] else s[0]
      requires tail == if c == |s| - 1 then s[c - 1] else s[|s| - 1]
      requires tail.nextDisk == head && head.prevDisk == tail
      requires forall i {:trigger s[i].nextDisk} :: 0 <= i < |s| - 1 && i != c && i + 1 != c ==>
        s[i].nextDisk == s[i + 1]
      requires forall i {:trigger s[i].prevDisk} :: 0 < i < |s| && i != c && i - 1 != c ==>
        s[i].prevDisk == s[i - 1]
      requires 0 < c < |s| - 1 ==> s[c - 1].nextDisk == s[c + 1] && s[c + 1].prevDisk == s[c - 1]
      ensures Ring(s[..c] + s[c + 1..], head, tail)
    {
      var t := s[..c] + s[c + 1..];
      assert forall i {:trigger t[i]} :: 0 <= i < |t| ==> t[i] == if i < c then s[i] else s[i + 1];
    }

    /** The four removal cases, with `c` the index of the request that goes. */
    method Unlink(ghost c: nat)
      requires Linked() && c < |nodes| && curr == nodes[c]
      modifies this`head, this`tail, this`curr, this`size, this`nodes, nodes`prevDisk, nodes`nextDisk
      ensures Linked()
      ensures nodes == old(nodes)[..c] + old(nodes)[c + 1..] && old(curr) !in nodes
      ensures curr == if nodes == [] then null else nodes[if c == |nodes| then 0 else c]
    {
      ghost var s := nodes;
      if size == 1 {
        head, tail, curr := null, null, null;
      } else if curr == head {
        head := head.nextDisk;
        head.prevDisk := tail;
        tail.nextDisk := head;
        curr := head;
      } else if curr == tail {
        tail := tail.prevDisk;
        tail.nextDisk := head;
        head.prevDisk := tail;
        curr := head;
      } else {
        curr.prevDisk.nextDisk := curr.nextDisk;
        curr.nextDisk.prevDisk := curr.prevDisk;
        curr := curr.nextDisk;
      }
      size := size - 1;
      nodes := s[..c] + s[c + 1..];
      if |s| > 1 {
        RingWithout(s, c, head, tail);
      }
    }

    static lemma RequestsWithout(s: seq<Proc>, c: nat)
      requires c < |s|
      ensures Requests(s[..c] + s[c + 1..]) == Requests(s)[..c] + Requests(s)[c + 1..]
      ensures forall n :: n in s <==> n in s[..c] + s[c + 1..] || n == s[c]
    {
      assert s == s[..c] + [s[c]] + s[c + 1..];
    }

    lemma HeadOfRing()
      requires Linked()
      ensures if nodes == [] then head == null else head == nodes[0]
    {
    }

    method Remove() returns (p: Proc?)
      requires Valid()
      modifies this, nodes`prevDisk, nodes`nextDisk
      ensures Valid()
      ensures Abs() == CScan.Remove(old(Abs()))
      ensures if old(nodes) == [] then p == null && nodes == [] else
              var c := CScan.Front(old(Abs()));
              p == old(nodes)[c] && nodes == old(nodes)[..c] + old(nodes)[c + 1..] && p !in nodes
      ensures forall n :: n in nodes <==> n in old(nodes) && n != p
    {
      hide CScan.Wf, Ring;
      ghost var s, q, c := nodes, Abs(), CScan.Front(Abs());
      CScan.RemoveWf(q);
      HeadOfRing();
      if size == 0 {
        return null;
      }
      if curr == null {
        curr := head;
      }
      p := curr;
      Unlink(c);
      cursor := CScan.Remove(q).cursor;
      RequestsWithout(s, c);
      assert Requests(s) == q.reqs;
    }

    /** The queue depends on nothing else in its requests but their tracks and their links. */
    twostate lemma Framed()
      requires old(Valid()) && unchanged(this)
      requires forall p :: p in nodes ==>
        p.diskTrack == old(p.diskTrack) && p.prevDisk == old(p.prevDisk) && p.nextDisk == old(p.nextDisk)
      ensures Valid() && Abs() == old(Abs())
    {
      hide CScan.Wf;
      assert Abs().reqs == old(Abs()).reqs;
      assert Ring(nodes, head, tail);
    }
  }
}
