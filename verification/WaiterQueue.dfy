/**
 The queue of waiting processes of phase3/phase31.c, on values.  It is threaded through the entries of the
 processes and counts them apart.  Unlike a queue of nodes that join only once they have left, it may be
 given a process that is still listed.
 */
module WaiterQueue {
  import opened Sequences
  import opened Wrappers

  type Pid = nat

  /** Links outlive the stay of their process on the queue. */
  datatype Queue = Queue(head: Option<Pid>, tail: Option<Pid>, next: map<Pid, Pid>, size: int)

  const EMPTY := Queue(None, None, map[], 0)

  function Link(q: Queue, p: Pid): Option<Pid> {
    if p in q.next then Some(q.next[p]) else None
  }

  /** enq3; the store through a null tail under a head does not occur (see `Threads`). */
  function Enqueue(q: Queue, p: Pid): Queue {
    var q' := q.(tail := Some(p), size := q.size + 1);
    if q.head == None && q.tail == None then q'.(head := Some(p))
    else if q.tail.Some? then q'.(next := q.next[q.tail.value := p])
    else q'
  }

  /** deq3: an empty list is left alone, whatever the size says. */
  function Dequeue(q: Queue): Queue {
    if q.head == None then q
    else if q.head == q.tail then q.(head := None, tail := None, size := q.size - 1)
    else q.(head := Link(q, q.head.value), size := q.size - 1)
  }

  // ---------------------------------------------------------------------------------------------
  // The processes on the list

  ghost predicate Distinct(line: seq<Pid>) {
    forall i, j :: 0 <= i < j < |line| ==> line[i] != line[j]
  }

  /** Following the links from the head to the tail yields `line`. */
  ghost predicate Threads(q: Queue, line: seq<Pid>) {
    && Distinct(line)
    && q.head == (if line == [] then None else Some(line[0]))
    && q.tail == (if line == [] then None else Some(line[|line| - 1]))
    && forall i, j :: 0 <= i && i + 1 == j < |line| ==> Link(q, line[i]) == Some(line[j])
  }

  lemma {:induction false} SameLinks(q: Queue, a: seq<Pid>, b: seq<Pid>, n: nat)
    requires Threads(q, a) && Threads(q, b) && n <= |a| <= |b|
    ensures forall i :: 0 <= i < n ==> a[i] == b[i]
  {
    if n > 1 {
      SameLinks(q, a, b, n - 1);
      assert Link(q, a[n - 2]) == Some(a[n - 1]) && Link(q, b[n - 2]) == Some(b[n - 1]);
    }
  }

  /** At most one list is threaded by a queue. */
  lemma {:induction false} ThreadsOne(q: Queue, a: seq<Pid>, b: seq<Pid>)
    requires Threads(q, a) && Threads(q, b)
    ensures a == b
  {
    if |a| <= |b| {
      SameLinks(q, a, b, |a|);
    } else {
      SameLinks(q, b, a, |b|);
    }
  }

  /** Where a process stands in line; the length of the line if it does not. */
  function Place(line: seq<Pid>, p: Pid): (k: nat)
    ensures k <= |line| && (k < |line| <==> p in line)
    ensures k < |line| ==> line[k] == p
    ensures p !in line[..k]
  {
    if line == [] || line[0] == p then 0 else
    var k := Place(line[1..], p);
    assert line[..k + 1] == [line[0]] + line[1..][..k];
    k + 1
  }

  /** The line after `p` joins: a process that is still listed cuts off everybody behind it. */
  function Join(line: seq<Pid>, p: Pid): seq<Pid> {
    line[..Place(line, p)] + [p]
  }

  function Leave(line: seq<Pid>): seq<Pid> {
    if line == [] then [] else line[1..]
  }

  lemma EnqueueThreads(q: Queue, line: seq<Pid>, p: Pid)
    requires Threads(q, line)
    ensures Threads(Enqueue(q, p), Join(line, p))
    ensures |Join(line, p)| <= |line| + 1
    ensures |Join(line, p)| == |line| + 1 <==> p !in line
    ensures Enqueue(q, p).size == q.size + 1
  {
    var q', line', k := Enqueue(q, p), Join(line, p), Place(line, p);
    hide Place;
    forall i, j | 0 <= i && i + 1 == j < |line'| ensures Link(q', line'[i]) == Some(line'[j]) {
      assert j < k ==> line'[j] == line[j];
      assert k < |line| ==> line[k] == p;
      assert i + 1 < |line| ==> line[i] != line[|line| - 1] && Link(q, line[i]) == Some(line[i + 1]);
    }
    assert Distinct(line') by {
      assert forall i :: 0 <= i < k ==> line[..k][i] == line[i];
    }
  }

  lemma DequeueThreads(q: Queue, line: seq<Pid>)
    requires Threads(q, line)
    ensures Threads(Dequeue(q), Leave(line))
  {
    if |line| > 1 {
      assert Link(q, line[0]) == Some(line[1]);
    }
  }

  // ---------------------------------------------------------------------------------------------
  // Runs

  datatype Op = Enter(p: Pid) | Take

  function Apply(q: Queue, o: Op): Queue {
    if o.Enter? then Enqueue(q, o.p) else Dequeue(q)
  }

  function Run(q: Queue, os: seq<Op>): Queue
    decreases |os|
  {
    if os == [] then q else Run(Apply(q, os[0]), os[1..])
  }

  function EnteredBy(o: Op): seq<Pid> {
    if o.Enter? then [o.p] else []
  }

  /** What a dequeue returns, which is nothing at the end of the list. */
  function TakenBy(q: Queue, o: Op): seq<Pid> {
    if o.Take? && q.head.Some? then [q.head.value] else []
  }

  function Entered(os: seq<Op>): seq<Pid> {
    if os == [] then [] else EnteredBy(os[0]) + Entered(os[1..])
  }

  function Taken(q: Queue, os: seq<Op>): seq<Pid>
    decreases |os|
  {
    if os == [] then [] else TakenBy(q, os[0]) + Taken(Apply(q, os[0]), os[1..])
  }

  /** Nobody enters the run while listed. */
  ghost predicate NobodyReenters(line: seq<Pid>, os: seq<Op>)
    decreases |os|
  {
    os != [] ==>
      match os[0]
      case Enter(p) => p !in line && NobodyReenters(line + [p], os[1..])
      case Take => NobodyReenters(Leave(line), os[1..])
  }

  lemma OpThreads(q: Queue, line: seq<Pid>, o: Op) returns (mid: seq<Pid>)
    requires Threads(q, line) && (o.Enter? ==> o.p !in line)
    ensures mid == if o.Enter? then line + [o.p] else Leave(line)
    ensures Threads(Apply(q, o), mid) && line + EnteredBy(o) == TakenBy(q, o) + mid
  {
    if o.Enter? {
      mid := line + [o.p];
      EnqueueThreads(q, line, o.p);
      assert line[..|line|] == line;
    } else {
      mid := Leave(line);
      DequeueThreads(q, line);
    }
  }

  /**
   First in, first out: while nobody enters who is listed, those on the list followed by those that enter are
   those taken followed by those on the list.
   */
  lemma {:induction false} FirstInFirstOut(q: Queue, line: seq<Pid>, os: seq<Op>) returns (line': seq<Pid>)
    requires Threads(q, line) && NobodyReenters(line, os)
    ensures Threads(Run(q, os), line') && line + Entered(os) == Taken(q, os) + line'
    decreases |os|
  {
    hide Threads, Apply, EnteredBy, TakenBy, Leave;
    if os == [] {
      line' := line;
    } else {
      var o, rest := os[0], os[1..];
      var mid := OpThreads(q, line, o);
      line' := FirstInFirstOut(Apply(q, o), mid, rest);
      Chain(line, EnteredBy(o), TakenBy(q, o), mid, Entered(rest), Taken(Apply(q, o), rest), line');
    }
  }

  // ---------------------------------------------------------------------------------------------
  // Dequeueing until the size is 0, as semFreeReal does

  function Drop(q: Queue, n: nat): Queue
    decreases n
  {
    if n == 0 then q else Drop(Dequeue(q), n - 1)
  }

  lemma SizeDropped(q: Queue, line: seq<Pid>)
    requires Threads(q, line)
    ensures Dequeue(q).size == q.size - if line == [] then 0 else 1
  {
  }

  /** A dequeue takes one off the list and off the size, until the list is empty. */
  lemma {:induction false} DropTakes(q: Queue, line: seq<Pid>, n: nat)
    requires Threads(q, line)
    ensures var k := if n <= |line| then n else |line|;
            Threads(Drop(q, n), line[k..]) && Drop(q, n).size == q.size - k
    decreases n
  {
    hide Threads;
    if n > 0 {
      DequeueThreads(q, line);
      SizeDropped(q, line);
      DropTakes(Dequeue(q), Leave(line), n - 1);
    } else {
      assert line[0..] == line;
    }
  }

  /** So the loop ends if and only if the size is right. */
  lemma DropEndsExactlyWhen(q: Queue, line: seq<Pid>)
    requires Threads(q, line) && |line| <= q.size
    ensures (exists n: nat :: Drop(q, n).size <= 0) <==> q.size == |line|
  {
    forall n: nat ensures Drop(q, n).size == q.size - if n <= |line| then n else |line| {
      DropTakes(q, line, n);
    }
    assert Drop(q, |line|).size == q.size - |line|;
  }
}
