/**
 The heap of sleeping processes of phase4/phase4.c, keyed by wake time and stored in a fixed array.
 */
module SleepHeap {
  import opened ProcTable

  // ---------------------------------------------------------------------------------------------
  // Heap order on sequences of processes

  function Parent(j: int): (i: int)
    requires j > 0
    ensures 0 <= i < j
  {
    (j - 1) / 2
  }

  ghost predicate Ordered(v: seq<Proc>)
    reads v
  {
    forall j {:trigger v[j]} :: 0 < j < |v| ==> v[Parent(j)].wakeTime <= v[j].wakeTime
  }

  /** Heap order, except that the entry at `i` may be smaller than its ancestors. */
  ghost predicate OrderedBelow(v: seq<Proc>, i: int)
    reads v
  {
    && (forall j {:trigger v[j]} :: 0 < j < |v| && j != i ==> v[Parent(j)].wakeTime <= v[j].wakeTime)
    && (forall j {:trigger v[j]} :: 0 < j < |v| && 0 < i < |v| && Parent(j) == i ==>
          v[Parent(i)].wakeTime <= v[j].wakeTime)
  }

  /** Heap order, except that the entry at `i` may be larger than its descendants. */
  ghost predicate OrderedAbove(v: seq<Proc>, i: int)
    reads v
  {
    && (forall j {:trigger v[j]} :: 0 < j < |v| && Parent(j) != i ==> v[Parent(j)].wakeTime <= v[j].wakeTime)
    && (forall j {:trigger v[j]} :: 0 < j < |v| && 0 < i < |v| && Parent(j) == i ==>
          v[Parent(i)].wakeTime <= v[j].wakeTime)
  }

  function Swap<T>(v: seq<T>, i: int, j: int): (w: seq<T>)
    requires 0 <= i < |v| && 0 <= j < |v|
    ensures |w| == |v| && w[i] == v[j] && w[j] == v[i]
    ensures forall k :: 0 <= k < |v| && k != i && k != j ==> w[k] == v[k]
  {
    v[i := v[j]][j := v[i]]
  }

  lemma SwapKeepsMultiset<T>(v: seq<T>, i: int, j: int)
    requires 0 <= i < |v| && 0 <= j < |v|
    ensures multiset(Swap(v, i, j)) == multiset(v)
  {
  }

  lemma SiftUp(v: seq<Proc>, i: int)
    requires 0 < i < |v| && OrderedBelow(v, i)
    requires v[i].wakeTime < v[Parent(i)].wakeTime
    ensures OrderedBelow(Swap(v, i, Parent(i)), Parent(i))
  {
  }

  lemma SiftDown(v: seq<Proc>, i: int, c: int)
    requires 0 <= i < |v| && 0 < c < |v| && Parent(c) == i && OrderedAbove(v, i)
    requires v[c].wakeTime < v[i].wakeTime
    requires forall j :: 0 < j < |v| && Parent(j) == i ==> v[c].wakeTime <= v[j].wakeTime
    ensures OrderedAbove(Swap(v, i, c), c)
  {
  }

  lemma Append(v: seq<Proc>, p: Proc)
    requires Ordered(v)
    ensures OrderedBelow(v + [p], |v|)
  {
  }

  lemma SiftedUp(v: seq<Proc>, i: int)
    requires 0 <= i < |v| && OrderedBelow(v, i)
    requires i > 0 ==> v[Parent(i)].wakeTime <= v[i].wakeTime
    ensures Ordered(v)
  {
  }

  /** What is left when the last entry takes the place of the first. */
  function LastToFront<T>(v: seq<T>): (w: seq<T>)
    requires |v| > 1
    ensures |w| == |v| - 1 && w[0] == v[|v| - 1]
    ensures forall k :: 0 < k < |w| ==> w[k] == v[k]
  {
    v[..|v| - 1][0 := v[|v| - 1]]
  }

  lemma LastToFrontOrder(v: seq<Proc>)
    requires Ordered(v) && |v| > 1
    ensures OrderedAbove(LastToFront(v), 0)
  {
  }

  lemma LastToFrontMultiset<T>(v: seq<T>)
    requires |v| > 1
    ensures multiset(LastToFront(v)) == multiset(v) - multiset{v[0]}
  {
    var rest, last := v[1..|v| - 1], v[|v| - 1];
    assert v == [v[0]] + rest + [last];
    assert LastToFront(v) == [last] + rest;
  }

  lemma SiftedDown(v: seq<Proc>, i: int)
    requires |v| > 0 ==> 0 <= i < |v| && OrderedAbove(v, i)
    requires forall j :: 0 < j < |v| && Parent(j) == i ==> v[i].wakeTime <= v[j].wakeTime
    ensures Ordered(v)
  {
  }

  lemma NoChildren(v: seq<Proc>, i: int)
    requires i >= 0 && i * 2 >= |v|
    ensures forall j :: 0 < j < |v| ==> Parent(j) != i
  {
  }

  /** The root of a heap is a minimum. */
  lemma {:induction false} RootIsLeast(v: seq<Proc>, j: nat)
    requires Ordered(v) && j < |v|
    ensures v[0].wakeTime <= v[j].wakeTime
    decreases j
  {
    if j > 0 {
      RootIsLeast(v, Parent(j));
    }
  }

  // ---------------------------------------------------------------------------------------------

  class Heap {
    var size: int
    const procs: array<Proc?>

    ghost predicate Shaped()
      reads this, procs
    {
      && procs.Length == MAXPROC && 0 <= size <= MAXPROC
      && forall i :: 0 <= i < size ==> procs[i] != null
    }

    /** The live part of the array. */
    ghost function Live(): (v: seq<Proc>)
      requires Shaped()
      reads this, procs
      ensures |v| == size
    {
      procs[..size]
    }

    ghost predicate Valid()
      reads this, procs, if Shaped() then set p | p in Live() else {}
    {
      Shaped() && Ordered(Live())
    }

    constructor ()
      ensures Valid() && size == 0 && fresh(procs)
    {
      size := 0;
      procs := new Proc?[MAXPROC](_ => null);
    }

    /**
     One step of the insertion: the parent of the hole at `i` moves down into it.  `v` is what the
     array would hold with `p` in the hole.
     */
    method PullDown(i: int, p: Proc, ghost v: seq<Proc>) returns (ghost w: seq<Proc>)
      requires procs.Length == MAXPROC && 0 < i < |v| <= MAXPROC && v[i] == p && OrderedBelow(v, i)
      requires forall k :: 0 <= k < |v| && k != i ==> procs[k] == v[k]
      requires p.wakeTime < v[Parent(i)].wakeTime
      modifies procs
      ensures |w| == |v| && w[Parent(i)] == p && OrderedBelow(w, Parent(i)) && multiset(w) == multiset(v)
      ensures forall k :: 0 <= k < |w| && k != Parent(i) ==> procs[k] == w[k]
    {
      hide OrderedBelow, Parent;
      SiftUp(v, i);
      SwapKeepsMultiset(v, i, Parent(i));
      w := Swap(v, i, Parent(i));
      procs[i] := procs[Parent(i)];
    }

    method Add(p: Proc)
      requires Valid() && size < MAXPROC
      modifies this, procs
      ensures Valid() && size == old(size) + 1
      ensures multiset(Live()) == multiset(old(Live())) + multiset{p}
    {
      hide Ordered, OrderedBelow, Parent;
      ghost var v := Live() + [p];
      Append(Live(), p);
      var i := size;
      while i > 0
        invariant 0 <= i <= size < MAXPROC && size == old(size) && |v| == size + 1
        invariant forall k :: 0 <= k <= size && k != i ==> procs[k] == v[k]
        invariant v[i] == p && OrderedBelow(v, i)
        invariant multiset(v) == multiset(old(Live())) + multiset{p}
      {
        var parent := Parent(i);
        if procs[parent].wakeTime <= p.wakeTime {
          break;
        }
        v := PullDown(i, p, v);
        i := parent;
      }
      procs[i] := p;
      size := size + 1;
      assert Live() == v;
      SiftedUp(Live(), i);
    }

    method Peek() returns (p: Proc)
      requires Valid() && size > 0
      ensures p in Live() && forall q :: q in Live() ==> p.wakeTime <= q.wakeTime
      ensures p == Live()[0]
    {
      p := procs[0];
      forall q | q in Live() ensures p.wakeTime <= q.wakeTime {
        var j :| 0 <= j < size && Live()[j] == q;
        RootIsLeast(Live(), j);
      }
    }

    /**
     The two comparisons of one round of the sift.  Both admit the index `size`, one past the live
     entries; what lies there is the very process being sifted, and a tie does not win.
     */
    method SmallestOf(i: int) returns (min: int)
      requires Shaped() && size < MAXPROC
      requires if size == 0 then i == 0 else 0 <= i < size && procs[size] == procs[i]
      ensures min == i || (i < min < size && Parent(min) == i && procs[min].wakeTime < procs[i].wakeTime)
      ensures forall j :: 0 < j < size && Parent(j) == i ==> procs[min].wakeTime <= procs[j].wakeTime
    {
      min := i;
      var left, right := i * 2 + 1, i * 2 + 2;
      if left <= size && procs[left].wakeTime < procs[min].wakeTime {
        min := left;
      }
      if right <= size && procs[right].wakeTime < procs[min].wakeTime {
        min := right;
      }
    }

    /** One step of the sift: the entry at `i` changes places with its smallest child. */
    method SwapDown(i: int, c: int)
      requires Shaped() && 0 <= i < c < size && Parent(c) == i && OrderedAbove(Live(), i)
      requires procs[c].wakeTime < procs[i].wakeTime
      requires forall j :: 0 < j < size && Parent(j) == i ==> procs[c].wakeTime <= procs[j].wakeTime
      modifies procs
      ensures Shaped() && OrderedAbove(Live(), c)
      ensures multiset(Live()) == multiset(old(Live()))
      ensures procs[c] == old(procs[i])
      ensures forall k :: size <= k < procs.Length ==> procs[k] == old(procs[k])
    {
      hide OrderedAbove, Parent;
      ghost var v := Live();
      procs[i], procs[c] := procs[c], procs[i];
      assert Live() == Swap(v, i, c);
      SiftDown(v, i, c);
      SwapKeepsMultiset(v, i, c);
    }

    /** The re-heapify loop, once the last entry has moved to the front. */
    method SiftRoot()
      requires Shaped() && size < MAXPROC
      requires size > 0 ==> procs[0] == procs[size] && OrderedAbove(Live(), 0)
      modifies procs
      ensures Valid() && multiset(Live()) == multiset(old(Live()))
    {
      hide Ordered, OrderedAbove, Parent;
      var i := 0;
      while i * 2 <= size
        invariant Shaped()
        invariant multiset(Live()) == multiset(old(Live()))
        invariant if size == 0 then i == 0 else 0 <= i < size && procs[i] == procs[size] && OrderedAbove(Live(), i)
        decreases size - i
      {
        var min := SmallestOf(i);
        if min != i {
          SwapDown(i, min);
          i := min;
        } else {
          break;
        }
      }
      if i * 2 > size {
        NoChildren(Live(), i);
      }
      SiftedDown(Live(), i);
    }

    method Remove() returns (removed: Proc?)
      requires Valid()
      modifies this, procs
      ensures Valid()
      ensures old(size) == 0 ==> removed == null && size == 0
      ensures old(size) > 0 ==>
                && size == old(size) - 1
                && removed == old(Live()[0])
                && multiset(Live()) == multiset(old(Live())) - multiset{removed}
    {
      if size == 0 {
        return null;
      }
      hide Ordered, OrderedAbove, LastToFront;
      ghost var v := Live();
      removed := procs[0];
      size := size - 1;
      procs[0] := procs[size];
      if size > 0 {
        assert Live() == LastToFront(v);
        LastToFrontOrder(v);
        LastToFrontMultiset(v);
      }
      SiftRoot();
    }
  }
}