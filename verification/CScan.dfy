/**
 The disk request queue as a mathematical object: requests sorted by track and a cursor that sweeps
 upward and wraps.  DiskQueue.dfy proves that the linked ring of phase4/phase4.c implements it; here
 are the laws of the discipline itself, over all runs of arrivals and services.
 */
module CScan {
  import opened Sequences
  import opened Wrappers

  datatype Request = Request(slot: nat, track: int)

  /** `cursor` is the index of the request being swept over, if a sweep has begun. */
  datatype Queue = Queue(reqs: seq<Request>, cursor: Option<nat>)

  const EMPTY := Queue([], None)

  ghost predicate Sorted(s: seq<Request>) {
    forall i, j :: 0 <= i < j < |s| ==> s[i].track <= s[j].track
  }

  /** Besides being a legal index, the cursor always rests on the first request of its track. */
  ghost predicate Wf(q: Queue) {
    && Sorted(q.reqs)
    && (q.cursor.Some? ==> q.cursor.value < |q.reqs|)
    && (q.cursor.Some? && q.cursor.value > 0 ==>
          q.reqs[q.cursor.value - 1].track < q.reqs[q.cursor.value].track)
  }

  // ---------------------------------------------------------------------------------------------
  // Operations

  /** Where the search loop of the insertion stops: behind the leading requests of no larger track. */
  function InsertPos(s: seq<Request>, track: int): (k: nat)
    ensures k <= |s|
    ensures forall i :: 0 <= i < k ==> s[i].track <= track
    ensures k < |s| ==> track < s[k].track
  {
    if s == [] || track < s[0].track then 0 else 1 + InsertPos(s[1..], track)
  }

  function Insert(s: seq<Request>, r: Request): seq<Request> {
    var k := InsertPos(s, r.track);
    s[..k] + [r] + s[k..]
  }

  function Add(q: Queue, r: Request): Queue {
    Queue(Insert(q.reqs, r),
          match q.cursor
          case None => None
          case Some(c) => Some(if InsertPos(q.reqs, r.track) <= c then c + 1 else c))
  }

  function Peek(q: Queue): Queue {
    if q.cursor.None? && q.reqs != [] then q.(cursor := Some(0)) else q
  }

  /** The index the next service takes. */
  function Front(q: Queue): nat {
    if q.cursor.Some? then q.cursor.value else 0
  }

  function Remove(q: Queue): Queue
    requires q.reqs != [] ==> Front(q) < |q.reqs|
  {
    if q.reqs == [] then q else
    var c := Front(q);
    Queue(q.reqs[..c] + q.reqs[c + 1..],
          if |q.reqs| == 1 then None else Some(if c == |q.reqs| - 1 then 0 else c))
  }

  lemma InsertAt(s: seq<Request>, r: Request, i: nat)
    requires i <= |s|
    ensures |Insert(s, r)| == |s| + 1
    ensures var k := InsertPos(s, r.track);
            Insert(s, r)[i] == if i < k then s[i] else if i == k then r else s[i - 1]
  {
  }

  lemma InsertSorted(s: seq<Request>, r: Request)
    requires Sorted(s)
    ensures Sorted(Insert(s, r))
  {
    var t, k := Insert(s, r), InsertPos(s, r.track);
    forall i, j | 0 <= i < j < |t| ensures t[i].track <= t[j].track {
      InsertAt(s, r, i);
      InsertAt(s, r, j);
      assert i < k ==> s[i].track <= r.track;
      assert k < j ==> r.track < s[k].track <= s[j - 1].track;
    }
  }

  lemma AddWf(q: Queue, r: Request)
    requires Wf(q)
    ensures Wf(Add(q, r))
  {
    InsertSorted(q.reqs, r);
    if q.cursor.Some? {
      var c := Add(q, r).cursor.value;
      hide InsertPos, Sorted;
      InsertAt(q.reqs, r, c);
      if c > 0 { InsertAt(q.reqs, r, c - 1); }
    }
  }

  lemma RemoveWf(q: Queue)
    requires Wf(q)
    ensures Wf(Peek(q)) && Wf(Remove(q))
  {
  }

  // ---------------------------------------------------------------------------------------------
  // Service order

  /** The order in which the waiting requests would be served if nothing else arrived. */
  function Order(q: Queue): seq<Request>
    requires Front(q) <= |q.reqs|
  {
    q.reqs[Front(q)..] + q.reqs[..Front(q)]
  }

  /** Repeated removal until the queue is empty. */
  function Drain(q: Queue): seq<Request>
    requires Wf(q)
    decreases |q.reqs|
  {
    if q.reqs == [] then [] else
    RemoveWf(q);
    [q.reqs[Front(q)]] + Drain(Remove(q))
  }

  lemma RotationTail<T>(s: seq<T>, c: nat)
    requires c < |s|
    ensures (s[c..] + s[..c])[0] == s[c]
    ensures (s[c..] + s[..c])[1..] == s[c + 1..] + s[..c]
  {
    assert s[c..] == [s[c]] + s[c + 1..];
  }

  lemma RotationWithout<T>(s: seq<T>, c: nat)
    requires c < |s|
    ensures var t := s[..c] + s[c + 1..];
            t[c..] == s[c + 1..] && t[..c] == s[..c]
  {
  }

  lemma RemoveTakesHead(q: Queue)
    requires Wf(q) && q.reqs != []
    ensures Wf(Remove(q))
    ensures Order(q)[0] == q.reqs[Front(q)]
    ensures Order(Remove(q)) == Order(q)[1..]
  {
    var c := Front(q);
    RemoveWf(q);
    RotationTail(q.reqs, c);
    RotationWithout(q.reqs, c);
    if c == |q.reqs| - 1 {
      assert Order(Remove(q)) == Remove(q).reqs;
    }
  }

  /** Repeated removal serves from the cursor to the end and then from the start to the cursor. */
  lemma {:induction false} DrainIsRotation(q: Queue)
    requires Wf(q)
    ensures Drain(q) == q.reqs[Front(q)..] + q.reqs[..Front(q)]
    decreases |q.reqs|
  {
    if q.reqs != [] {
      RemoveTakesHead(q);
      DrainIsRotation(Remove(q));
      assert Order(q) == [Order(q)[0]] + Order(q)[1..];
    }
  }

  // ---------------------------------------------------------------------------------------------
  // The discipline: an upward sweep that wraps

  /** 0 while the sweep under way will still reach `track`, 1 when only the next sweep does. */
  function Lap(q: Queue, track: int): nat
    requires Front(q) <= |q.reqs| && (q.cursor.Some? ==> q.cursor.value < |q.reqs|)
  {
    if q.cursor.Some? && track < q.reqs[q.cursor.value].track then 1 else 0
  }

  /** Will a newcomer at track `a` be served before a request waiting at track `b`? */
  predicate Overtakes(q: Queue, a: int, b: int)
    requires Front(q) <= |q.reqs| && (q.cursor.Some? ==> q.cursor.value < |q.reqs|)
  {
    Lap(q, a) < Lap(q, b) || (Lap(q, a) == Lap(q, b) && a < b)
  }

  /** Where a request of the given index stands in the service order. */
  function Standing(q: Queue, i: nat): nat
    requires Front(q) <= |q.reqs| && i < |q.reqs|
  {
    if i >= Front(q) then i - Front(q) else |q.reqs| - Front(q) + i
  }

  /** The service order is by lap, and by track within a lap; within a track it keeps queue order. */
  lemma OrderIsByLapThenTrack(q: Queue, d: nat, e: nat)
    requires Wf(q) && d < e < |q.reqs|
    ensures !Overtakes(q, Order(q)[e].track, Order(q)[d].track)
  {
    var c, n := Front(q), |q.reqs|;
    assert Order(q)[d] == q.reqs[if d < n - c then c + d else d - (n - c)];
    assert Order(q)[e] == q.reqs[if e < n - c then c + e else e - (n - c)];
  }

  lemma FrontOfRest(q: Queue)
    requires Wf(q) && |q.reqs| > 1
    ensures |Remove(q).reqs| > 0 && Front(Remove(q)) <= |Remove(q).reqs|
    ensures Order(q)[0] == q.reqs[Front(q)]
    ensures Order(Remove(q))[0] == q.reqs[if Front(q) < |q.reqs| - 1 then Front(q) + 1 else 0]
  {
  }

  lemma IndexBefore(q: Queue, r: Request) returns (j: nat)
    requires Wf(q) && r in Remove(q).reqs
    ensures j < |q.reqs| && q.reqs[j] == r && (j != Front(q) || q.reqs == [])
  {
    var s, c := Remove(q).reqs, Front(q);
    var i :| 0 <= i < |s| && s[i] == r;
    j := if i < c then i else i + 1;
  }

  lemma NearestByIndex(q: Queue, j: nat)
    requires Wf(q) && j < |q.reqs| && j != Front(q)
    ensures var c := Front(q);
            var served, next := q.reqs[c].track, q.reqs[if c < |q.reqs| - 1 then c + 1 else 0].track;
            if served <= next then served <= q.reqs[j].track ==> next <= q.reqs[j].track
            else q.reqs[j].track < served && next <= q.reqs[j].track
  {
    var c := Front(q);
    if j < c {
      assert q.reqs[j].track <= q.reqs[c - 1].track;
    }
  }

  /**
   After a removal the next request served is the nearest one at or above the track just served,
   and only when there is none does the sweep start again from the lowest track waiting.
   */
  lemma NextIsNearestAbove(q: Queue, r: Request)
    requires Wf(q) && q.reqs != [] && r in Remove(q).reqs
    ensures var served := Order(q)[0].track;
            var next := Order(Remove(q))[0].track;
            if served <= next then served <= r.track ==> next <= r.track
            else r.track < served && next <= r.track
  {
    var j := IndexBefore(q, r);
    FrontOfRest(q);
    NearestByIndex(q, j);
  }

  lemma StandingInOrder(q: Queue, i: nat)
    requires Front(q) <= |q.reqs| && i < |q.reqs|
    ensures Standing(q, i) < |Order(q)| && Order(q)[Standing(q, i)] == q.reqs[i]
  {
  }

  /** The index of the request at a given place of the service order. */
  function IndexOf(q: Queue, d: nat): (i: nat)
    requires Front(q) <= |q.reqs| && d < |q.reqs|
    ensures i < |q.reqs| && Standing(q, i) == d
  {
    if d < |q.reqs| - Front(q) then Front(q) + d else d - (|q.reqs| - Front(q))
  }

  lemma InsertShifts(s: seq<Request>, r: Request, i: nat)
    requires i < |s|
    ensures |Insert(s, r)| == |s| + 1
    ensures Insert(s, r)[if i < InsertPos(s, r.track) then i else i + 1] == s[i]
  {
  }

  /** What a newcomer overtakes, in terms of positions in the sorted list. */
  lemma OvertakesByIndex(q: Queue, track: int, i: nat)
    requires Wf(q) && i < |q.reqs|
    ensures var k, c := InsertPos(q.reqs, track), Front(q);
            Overtakes(q, track, q.reqs[i].track) <==>
              if q.cursor.Some? && k <= c then i < c && k <= i else i < c || k <= i
  {
    var k, c := InsertPos(q.reqs, track), Front(q);
    if i < k {
      assert q.reqs[i].track <= track;
    } else {
      assert track < q.reqs[k].track <= q.reqs[i].track;
    }
    if q.cursor.Some? {
      if c < k {
        assert q.reqs[c].track <= track;
      } else {
        assert track < q.reqs[k].track <= q.reqs[c].track;
      }
      if i < c {
        assert q.reqs[i].track <= q.reqs[c - 1].track < q.reqs[c].track;
      } else {
        assert q.reqs[c].track <= q.reqs[i].track;
      }
    }
  }

  lemma StandingAfterAdd(q: Queue, r: Request, i: nat)
    requires Wf(q) && i < |q.reqs|
    ensures var i' := if i < InsertPos(q.reqs, r.track) then i else i + 1;
            && Front(Add(q, r)) <= |Add(q, r).reqs| == |q.reqs| + 1
            && Standing(Add(q, r), i')
               == if Overtakes(q, r.track, q.reqs[i].track) then Standing(q, i) + 1 else Standing(q, i)
  {
    OvertakesByIndex(q, r.track, i);
  }

  /** A newcomer slides into the service order exactly behind everyone it does not overtake. */
  lemma AddInOrder(q: Queue, r: Request, d: nat)
    requires Wf(q) && d < |q.reqs|
    ensures Wf(Add(q, r)) && |Add(q, r).reqs| == |q.reqs| + 1
    ensures var d' := if Overtakes(q, r.track, Order(q)[d].track) then d + 1 else d;
            Order(Add(q, r))[d'] == Order(q)[d]
  {
    hide Insert, InsertPos, Overtakes, Sorted, Order;
    AddWf(q, r);
    var i := IndexOf(q, d);
    var i' := if i < InsertPos(q.reqs, r.track) then i else i + 1;
    assert Order(q)[d] == q.reqs[i] by { StandingInOrder(q, i); }
    StandingAfterAdd(q, r, i);
    assert Add(q, r).reqs[i'] == q.reqs[i] by { InsertShifts(q.reqs, r, i); }
    StandingInOrder(Add(q, r), i');
  }

  // ---------------------------------------------------------------------------------------------
  // Runs

  datatype Event = Arrive(r: Request) | Look | Serve

  function Step(q: Queue, e: Event): Queue
    requires Wf(q)
  {
    match e
    case Arrive(r) => Add(q, r)
    case Look => Peek(q)
    case Serve => Remove(q)
  }

  lemma StepWf(q: Queue, e: Event)
    requires Wf(q)
    ensures Wf(Step(q, e))
  {
    RemoveWf(q);
    if e.Arrive? { AddWf(q, e.r); }
  }

  function Run(q: Queue, es: seq<Event>): (q': Queue)
    requires Wf(q)
    ensures Wf(q')
    decreases |es|
  {
    if es == [] then q else
    StepWf(q, es[0]);
    Run(Step(q, es[0]), es[1..])
  }

  function Entering(e: Event): seq<Request> {
    if e.Arrive? then [e.r] else []
  }

  function Leaving(q: Queue, e: Event): seq<Request>
    requires Wf(q)
  {
    if e.Serve? && q.reqs != [] then [q.reqs[Front(q)]] else []
  }

  /** The requests removed along a run, in the order of their removal. */
  function Served(q: Queue, es: seq<Event>): seq<Request>
    requires Wf(q)
    decreases |es|
  {
    if es == [] then [] else
    StepWf(q, es[0]);
    Leaving(q, es[0]) + Served(Step(q, es[0]), es[1..])
  }

  function Arrivals(es: seq<Event>): seq<Request> {
    if es == [] then [] else
    Entering(es[0]) + Arrivals(es[1..])
  }

  function Serves(es: seq<Event>): nat {
    if es == [] then 0 else (if es[0].Serve? then 1 else 0) + Serves(es[1..])
  }

  /** How many arrivals along a run go ahead of a request waiting at `track`. */
  function Overtakers(q: Queue, track: int, es: seq<Event>): nat
    requires Wf(q)
    decreases |es|
  {
    if es == [] then 0 else
    StepWf(q, es[0]);
    (if es[0].Arrive? && Overtakes(q, es[0].r.track, track) then 1 else 0)
    + Overtakers(Step(q, es[0]), track, es[1..])
  }

  /** The distance of a request at `track`, previously `d`, after one event that does not serve it. */
  function Distance(q: Queue, track: int, d: nat, e: Event): int
    requires Wf(q)
  {
    match e
    case Look => d
    case Arrive(r) => if Overtakes(q, r.track, track) then d + 1 else d
    case Serve => d - 1
  }

  lemma LookInOrder(q: Queue)
    requires Wf(q)
    ensures Wf(Peek(q)) && |Peek(q).reqs| == |q.reqs| && Order(Peek(q)) == Order(q)
  {
    RemoveWf(q);
  }

  lemma ServeInOrder(q: Queue, d: nat)
    requires Wf(q) && 0 < d < |q.reqs|
    ensures Wf(Remove(q)) && |Remove(q).reqs| == |q.reqs| - 1 && Order(Remove(q))[d - 1] == Order(q)[d]
  {
    RemoveTakesHead(q);
  }

  lemma StepDistance(q: Queue, x: Request, d: nat, e: Event)
    requires Wf(q) && d < |q.reqs| && Order(q)[d] == x
    requires Distance(q, x.track, d, e) >= 0
    ensures var d' := Distance(q, x.track, d, e);
            Wf(Step(q, e)) && d' < |Step(q, e).reqs| && Order(Step(q, e))[d'] == x
  {
    hide Wf, Order, Overtakes, Add, Peek, Remove;
    match e
    case Look => LookInOrder(q);
    case Arrive(r) => AddInOrder(q, r, d);
    case Serve => ServeInOrder(q, d);
  }

  /** No service along the run finds the request that stood at distance `d` at the front. */
  predicate Waits(q: Queue, track: int, d: nat, es: seq<Event>)
    requires Wf(q)
    decreases |es|
  {
    es == [] ||
    (StepWf(q, es[0]);
     var d' := Distance(q, track, d, es[0]);
     d' >= 0 && Waits(Step(q, es[0]), track, d', es[1..]))
  }

  lemma NoEvents(q: Queue, track: int)
    requires Wf(q)
    ensures Run(q, []) == q && Served(q, []) == [] && Arrivals([]) == []
    ensures Overtakers(q, track, []) == 0 && Serves([]) == 0
  {
  }

  lemma UnrollRun(q: Queue, es: seq<Event>)
    requires Wf(q) && es != []
    ensures Wf(Step(q, es[0])) && Run(q, es) == Run(Step(q, es[0]), es[1..])
    ensures Served(q, es) == Leaving(q, es[0]) + Served(Step(q, es[0]), es[1..])
    ensures Arrivals(es) == Entering(es[0]) + Arrivals(es[1..])
  {
    StepWf(q, es[0]);
  }

  lemma UnrollWait(q: Queue, track: int, d: nat, es: seq<Event>)
    requires Wf(q) && es != []
    ensures Wf(Step(q, es[0]))
    ensures var d' := Distance(q, track, d, es[0]);
            && (Waits(q, track, d, es) <==> d' >= 0 && Waits(Step(q, es[0]), track, d', es[1..]))
            && d + Overtakers(q, track, es) - Serves(es)
               == d' + Overtakers(Step(q, es[0]), track, es[1..]) - Serves(es[1..])
  {
    StepWf(q, es[0]);
  }

  lemma UnrollServes(q: Queue, es: seq<Event>)
    requires Wf(q) && es != []
    ensures Serves(es) == Serves(es[1..]) + if es[0].Serve? then 1 else 0
    ensures |Leaving(q, es[0])| == if es[0].Serve? && q.reqs != [] then 1 else 0
  {
  }

  /**
   The exact waiting time.  A request at distance d is, as long as it has not been served, at
   distance d + (arrivals that overtook it) - (services) from the front, whatever else arrives.
   */
  lemma {:induction false} ExactWait(q: Queue, x: Request, d: nat, es: seq<Event>)
    requires Wf(q) && d < |q.reqs| && Order(q)[d] == x
    requires Waits(q, x.track, d, es)
    ensures var d' := d + Overtakers(q, x.track, es) - Serves(es);
            0 <= d' < |Run(q, es).reqs| && Order(Run(q, es))[d'] == x
    ensures |Served(q, es)| == Serves(es)
    decreases |es|
  {
    hide *;
    if es == [] {
      NoEvents(q, x.track);
    } else {
      UnrollWait(q, x.track, d, es);
      StepDistance(q, x, d, es[0]);
      ExactWait(Step(q, es[0]), x, Distance(q, x.track, d, es[0]), es[1..]);
      UnrollRun(q, es);
      UnrollServes(q, es);
    }
  }

  lemma {:induction false} ServedThen(q: Queue, es: seq<Event>)
    requires Wf(q)
    ensures Served(q, es + [Serve]) == Served(q, es) + Leaving(Run(q, es), Serve)
    decreases |es|
  {
    var all := es + [Serve];
    if es == [] {
      assert all == [Serve] && all[1..] == [];
      StepWf(q, Serve);
    } else {
      assert all[0] == es[0] && all[1..] == es[1..] + [Serve];
      hide *;
      UnrollRun(q, es);
      UnrollRun(q, all);
      ServedThen(Step(q, es[0]), es[1..]);
    }
  }

  lemma {:induction false} RunThen(q: Queue, es: seq<Event>, e: Event)
    requires Wf(q)
    ensures Run(q, es + [e]) == Step(Run(q, es), e)
    decreases |es|
  {
    var all := es + [e];
    if es == [] {
      assert all == [e] && all[1..] == [];
      StepWf(q, e);
    } else {
      assert all[0] == es[0] && all[1..] == es[1..] + [e];
      hide *;
      UnrollRun(q, es);
      UnrollRun(q, all);
      RunThen(Step(q, es[0]), es[1..], e);
    }
  }

  lemma LeavesFromFront(q: Queue)
    requires Wf(q) && q.reqs != []
    ensures Leaving(q, Serve) == [Order(q)[0]]
  {
  }

  /** So the service that removes it is number d + overtakers + 1. */
  lemma ServedAsNumber(q: Queue, x: Request, d: nat, es: seq<Event>)
    requires Wf(q) && d < |q.reqs| && Order(q)[d] == x
    requires Waits(q, x.track, d, es) && Serves(es) == d + Overtakers(q, x.track, es)
    ensures var n := d + Overtakers(q, x.track, es);
            |Served(q, es + [Serve])| == n + 1 && Served(q, es + [Serve])[n] == x
  {
    hide *;
    ExactWait(q, x, d, es);
    LeavesFromFront(Run(q, es));
    ServedThen(q, es);
  }

  /** The k-th event is that service. */
  ghost predicate ServedAt(q: Queue, x: Request, d: nat, es: seq<Event>, k: nat)
    requires Wf(q)
  {
    && k < |es| && es[k] == Serve
    && Waits(q, x.track, d, es[..k]) && Serves(es[..k]) == d + Overtakers(q, x.track, es[..k])
  }

  lemma ServedFirst(q: Queue, x: Request, d: nat, es: seq<Event>)
    requires Wf(q) && es != [] && Distance(q, x.track, d, es[0]) < 0
    ensures ServedAt(q, x, d, es, 0)
  {
    assert es[..0] == [];
  }

  lemma NotServedFirst(q: Queue, x: Request, d: nat, es: seq<Event>)
    requires Wf(q) && es != [] && Distance(q, x.track, d, es[0]) >= 0
    ensures !ServedAt(q, x, d, es, 0)
  {
    assert es[..0] == [];
  }

  lemma ServedLater(q: Queue, x: Request, d: nat, es: seq<Event>, k: nat)
    requires Wf(q) && es != [] && Distance(q, x.track, d, es[0]) >= 0
    ensures Wf(Step(q, es[0]))
    ensures ServedAt(Step(q, es[0]), x, Distance(q, x.track, d, es[0]), es[1..], k) <==> ServedAt(q, x, d, es, k + 1)
  {
    StepWf(q, es[0]);
    if k + 1 < |es| {
      var first := es[..k + 1];
      assert first[0] == es[0] && first[1..] == es[1..][..k];
      hide Wf, Step, Distance, Overtakers, Serves, Waits;
      UnrollWait(q, x.track, d, first);
    }
  }

  lemma {:induction false} StopsWaiting(q: Queue, x: Request, d: nat, es: seq<Event>)
    requires Wf(q)
    ensures !Waits(q, x.track, d, es) <==> exists k: nat :: ServedAt(q, x, d, es, k)
    decreases |es|
  {
    if es != [] {
      var e, rest, d' := es[0], es[1..], Distance(q, x.track, d, es[0]);
      hide Wf, Step, Distance, Overtakers, Serves;
      UnrollWait(q, x.track, d, es);
      if d' < 0 {
        ServedFirst(q, x, d, es);
      } else {
        StopsWaiting(Step(q, e), x, d', rest);
        forall k: nat ensures ServedAt(Step(q, e), x, d', rest, k) <==> ServedAt(q, x, d, es, k + 1) {
          ServedLater(q, x, d, es, k);
        }
        NotServedFirst(q, x, d, es);
        if k: nat :| ServedAt(Step(q, e), x, d', rest, k) {
          assert ServedAt(q, x, d, es, k + 1);
        }
        if k: nat :| ServedAt(q, x, d, es, k) {
          assert ServedAt(Step(q, e), x, d', rest, k - 1);
        }
      }
    }
  }

  /** A request stops waiting exactly by being served, by the service with its number. */
  lemma WaitsUntilServed(q: Queue, x: Request, d: nat, es: seq<Event>)
    requires Wf(q) && d < |q.reqs| && Order(q)[d] == x
    ensures !Waits(q, x.track, d, es) <==> exists k: nat :: ServedAt(q, x, d, es, k)
    ensures forall k: nat {:trigger ServedAt(q, x, d, es, k)} :: ServedAt(q, x, d, es, k) ==>
              var n := d + Overtakers(q, x.track, es[..k]);
              |Served(q, es[..k + 1])| == n + 1 && Served(q, es[..k + 1])[n] == x
  {
    hide Wf, Waits, Overtakers, Serves, Served, Order;
    StopsWaiting(q, x, d, es);
    forall k: nat | ServedAt(q, x, d, es, k)
      ensures var n := d + Overtakers(q, x.track, es[..k]);
              |Served(q, es[..k + 1])| == n + 1 && Served(q, es[..k + 1])[n] == x
    {
      assert es[..k + 1] == es[..k] + [Serve];
      ServedAsNumber(q, x, d, es[..k]);
    }
  }

  /** Whatever arrives between a look at the queue and the matching removal, the same request goes. */
  lemma {:induction false} ArrivalsKeepTheFront(q: Queue, es: seq<Event>)
    requires Wf(q) && q.cursor.Some?
    requires forall e :: e in es ==> !e.Serve?
    ensures Run(q, es).cursor.Some?
    ensures Order(Run(q, es))[0] == Order(q)[0]
    decreases |es|
  {
    if es != [] {
      StepWf(q, es[0]);
      StepDistance(q, Order(q)[0], 0, es[0]);
      ArrivalsKeepTheFront(Step(q, es[0]), es[1..]);
    }
  }

  /** A look settles what is next. */
  lemma LookSettlesTheFront(q: Queue, es: seq<Event>)
    requires Wf(q) && q.reqs != []
    requires forall e :: e in es ==> !e.Serve?
    ensures Wf(Peek(q)) && Run(Peek(q), es).reqs != []
    ensures Order(Run(Peek(q), es))[0] == Order(q)[0]
  {
    hide Run, Order;
    RemoveWf(q);
    LookInOrder(q);
    ArrivalsKeepTheFront(Peek(q), es);
  }

  lemma FrontAfterRemove(q: Queue)
    requires Wf(q) && |q.reqs| > 1
    ensures Wf(Remove(q)) && Remove(q).reqs != [] && Remove(q).cursor.Some?
  {
    RemoveWf(q);
  }

  /** What is next once a request is served stays next, whatever arrives: the sweep goes on, or begins anew. */
  lemma NextStaysNext(q: Queue, es: seq<Event>)
    requires Wf(q) && |q.reqs| > 1
    requires forall e :: e in es ==> !e.Serve?
    ensures Wf(Remove(q)) && Remove(q).reqs != [] && Run(Remove(q), es).reqs != []
    ensures Order(Run(Remove(q), es))[0] == Order(Remove(q))[0]
  {
    hide Run, Remove, Order;
    FrontAfterRemove(q);
    ArrivalsKeepTheFront(Remove(q), es);
  }

  /** Before the first look the sweep is going to begin at the lowest track, whatever arrives. */
  lemma {:induction false} BeginsAtTheLowest(q: Queue, es: seq<Event>, r: Request)
    requires Wf(q) && q.cursor.None? && r in Run(q, es).reqs
    requires forall e :: e in es ==> e.Arrive?
    ensures Order(Run(q, es))[0].track <= r.track
    decreases |es|
  {
    if es != [] {
      StepWf(q, es[0]);
      BeginsAtTheLowest(Step(q, es[0]), es[1..], r);
    } else {
      assert Order(q) == q.reqs;
    }
  }

  /** Two processes keep the disk busy on `track`: the one asks again before the other is served. */
  function Hogging(slot: nat, other: nat, track: int, n: nat): seq<Event>
    decreases n
  {
    if n == 0 then [] else [Arrive(Request(other, track)), Serve] + Hogging(other, slot, track, n - 1)
  }

  function Hogged(slot: nat, track: int, x: Request): Queue {
    Queue([Request(slot, track), x], Some(0))
  }

  lemma HogRound(slot: nat, other: nat, track: int, x: Request)
    requires track < x.track
    ensures var q := Hogged(slot, track, x);
            Wf(q) && Step(Add(q, Request(other, track)), Serve) == Hogged(other, track, x)
            && Wf(Add(q, Request(other, track)))
  {
    var q := Hogged(slot, track, x);
    var q' := Add(q, Request(other, track));
    assert InsertPos(q.reqs[1..], track) == 0;
    assert q'.reqs == [Request(slot, track), Request(other, track), x];
    assert q'.reqs[..0] + q'.reqs[1..] == Hogged(other, track, x).reqs;
  }

  lemma AStep(q: Queue, r: Request)
    requires Wf(q)
    ensures Step(q, Arrive(r)) == Add(q, r)
  {
  }

  lemma HogOvertakes(slot: nat, track: int, x: Request)
    requires track < x.track
    ensures Wf(Hogged(slot, track, x)) && Order(Hogged(slot, track, x))[1] == x
    ensures Overtakes(Hogged(slot, track, x), track, x.track)
  {
  }

  lemma UnrollTwo(q: Queue, track: int, d: nat, e0: Event, e1: Event, rest: seq<Event>)
    requires Wf(q) && Distance(q, track, d, e0) >= 0
    ensures Wf(Step(q, e0)) && Wf(Step(Step(q, e0), e1))
    ensures var es, q1, d1 := [e0, e1] + rest, Step(q, e0), Distance(q, track, d, e0);
            var q2, d2 := Step(q1, e1), Distance(q1, track, d1, e1);
            && Run(q, es) == Run(q2, rest)
            && (Waits(q, track, d, es) <==> d2 >= 0 && Waits(q2, track, d2, rest))
            && d + Overtakers(q, track, es) - Serves(es) == d2 + Overtakers(q2, track, rest) - Serves(rest)
  {
    var es := [e0, e1] + rest;
    assert es[0] == e0 && es[1..] == [e1] + rest && es[1..][0] == e1 && es[1..][1..] == rest;
    hide *;
    UnrollRun(q, es);
    UnrollRun(Step(q, e0), es[1..]);
    UnrollWait(q, track, d, es);
    UnrollWait(Step(q, e0), track, Distance(q, track, d, e0), es[1..]);
  }

  lemma HogSteps(slot: nat, other: nat, track: int, x: Request)
    requires track < x.track
    ensures var q, r := Hogged(slot, track, x), Request(other, track);
            && Wf(q) && Distance(q, x.track, 1, Arrive(r)) == 2
            && Wf(Step(q, Arrive(r))) && Distance(Step(q, Arrive(r)), x.track, 2, Serve) == 1
            && Step(Step(q, Arrive(r)), Serve) == Hogged(other, track, x)
  {
    HogRound(slot, other, track, x);
    HogOvertakes(slot, track, x);
    AStep(Hogged(slot, track, x), Request(other, track));
  }

  lemma {:induction false} HoggingServes(slot: nat, other: nat, track: int, n: nat)
    ensures Serves(Hogging(slot, other, track, n)) == n
    decreases n
  {
    if n > 0 {
      HoggingServes(other, slot, track, n - 1);
      var es := Hogging(slot, other, track, n);
      assert es[1..][1..] == Hogging(other, slot, track, n - 1);
    }
  }

  lemma NothingHogged(slot: nat, track: int, x: Request)
    requires track < x.track
    ensures var q := Hogged(slot, track, x);
            Wf(q) && Run(q, []) == q && Overtakers(q, x.track, []) == 0 && Serves([]) == 0 && Waits(q, x.track, 1, [])
  {
  }

  /**
   There is no bound on the overtakers: a request can wait through any number of services, each of
   them for an overtaker.
   */
  lemma {:induction false} CanStarve(slot: nat, other: nat, track: int, x: Request, n: nat)
    requires track < x.track
    ensures var q, es := Hogged(slot, track, x), Hogging(slot, other, track, n);
            && Wf(q) && Serves(es) == n && Overtakers(q, x.track, es) == n
            && Waits(q, x.track, 1, es)
            && exists k: nat :: Run(q, es) == Hogged(k, track, x)
    decreases n
  {
    hide Run, Waits, Overtakers, Serves, Hogged, Wf, Step, Distance;
    HogSteps(slot, other, track, x);
    HoggingServes(slot, other, track, n);
    if n == 0 {
      NothingHogged(slot, track, x);
    } else {
      var rest := Hogging(other, slot, track, n - 1);
      UnrollTwo(Hogged(slot, track, x), x.track, 1, Arrive(Request(other, track)), Serve, rest);
      HoggingServes(other, slot, track, n - 1);
      CanStarve(other, slot, track, x, n - 1);
    }
  }

  // ---------------------------------------------------------------------------------------------
  // Requests of one track are never reordered

  function OnTrack(s: seq<Request>, track: int): seq<Request> {
    if s == [] then [] else
    (if s[0].track == track then [s[0]] else []) + OnTrack(s[1..], track)
  }

  lemma {:induction false} OnTrackConcat(a: seq<Request>, b: seq<Request>, track: int)
    ensures OnTrack(a + b, track) == OnTrack(a, track) + OnTrack(b, track)
    decreases |a|
  {
    if a == [] {
      assert a + b == b;
    } else {
      OnTrackConcat(a[1..], b, track);
      assert (a + b)[1..] == a[1..] + b && (a + b)[0] == a[0];
      var first := if a[0].track == track then [a[0]] else [];
      assert OnTrack(a, track) == first + OnTrack(a[1..], track);
      assert OnTrack(a + b, track) == first + OnTrack(a[1..] + b, track);
    }
  }

  lemma {:induction false} OnTrackNone(s: seq<Request>, track: int)
    requires forall i :: 0 <= i < |s| ==> s[i].track != track
    ensures OnTrack(s, track) == []
    decreases |s|
  {
    if s != [] { OnTrackNone(s[1..], track); }
  }

  lemma OnTrackOne(r: Request, track: int)
    ensures OnTrack([r], track) == if r.track == track then [r] else []
  {
  }

  lemma Exchange<T>(a: seq<T>, o: seq<T>, z: seq<T>)
    requires o == [] || z == []
    ensures (a + o) + z == (a + z) + o
  {
  }

  lemma InsertedLast(before: seq<Request>, r: Request, after: seq<Request>, track: int)
    requires forall i :: 0 <= i < |after| ==> after[i].track != r.track
    ensures OnTrack(before + [r] + after, track) == OnTrack(before + after, track) + OnTrack([r], track)
  {
    hide *;
    var a, o, z := OnTrack(before, track), OnTrack([r], track), OnTrack(after, track);
    assert o == [] || z == [] by {
      OnTrackOne(r, track);
      if r.track == track { OnTrackNone(after, track); }
    }
    assert OnTrack(before + after, track) + o == (a + o) + z by {
      OnTrackConcat(before, after, track);
      Exchange(a, o, z);
    }
    assert OnTrack(before + [r] + after, track) == (a + o) + z by {
      OnTrackConcat(before + [r], after, track);
      OnTrackConcat(before, [r], track);
    }
  }

  /** An arrival joins its track at the back. */
  lemma InsertOnTrack(s: seq<Request>, r: Request, track: int)
    requires Sorted(s)
    ensures OnTrack(Insert(s, r), track) == OnTrack(s, track) + OnTrack([r], track)
  {
    hide OnTrack;
    var k := InsertPos(s, r.track);
    var before, after := s[..k], s[k..];
    forall i | 0 <= i < |after| ensures after[i].track != r.track {
      assert after[i] == s[k + i] && r.track < s[k].track;
    }
    InsertedLast(before, r, after, track);
    assert s == before + after;
  }

  /** Taking out the first request of a track takes the front of that track. */
  lemma TakeFirstOnTrack(s: seq<Request>, c: nat, track: int)
    requires c < |s|
    requires forall i :: 0 <= i < c ==> s[i].track != s[c].track
    ensures OnTrack(s, track) == OnTrack([s[c]], track) + OnTrack(s[..c] + s[c + 1..], track)
  {
    var before, x, after := s[..c], s[c], s[c + 1..];
    assert s == before + ([x] + after);
    OnTrackConcat(before, [x] + after, track);
    OnTrackConcat([x], after, track);
    OnTrackConcat(before, after, track);
    if x.track == track {
      OnTrackNone(before, track);
    }
  }

  /** One event: requests enter their track at the back and leave it from the front. */
  lemma StepOnTrack(q: Queue, e: Event, track: int)
    requires Wf(q)
    ensures OnTrack(q.reqs, track) + OnTrack(Entering(e), track)
            == OnTrack(Leaving(q, e), track) + OnTrack(Step(q, e).reqs, track)
  {
    if e.Arrive? {
      InsertOnTrack(q.reqs, e.r, track);
    } else if e.Serve? && q.reqs != [] {
      var c := Front(q);
      forall i | 0 <= i < c ensures q.reqs[i].track != q.reqs[c].track {
        assert q.reqs[i].track <= q.reqs[c - 1].track;
      }
      TakeFirstOnTrack(q.reqs, c, track);
    }
  }

  /**
   First come, first served on every track, over all runs: what was waiting there followed by what
   arrived there is what was served there followed by what still waits there.
   */
  lemma {:induction false} FifoPerTrack(q: Queue, es: seq<Event>, track: int)
    requires Wf(q)
    ensures OnTrack(q.reqs, track) + OnTrack(Arrivals(es), track)
            == OnTrack(Served(q, es), track) + OnTrack(Run(q, es).reqs, track)
    decreases |es|
  {
    hide *;
    if es == [] {
      NoEvents(q, track);
      OnTrackNone([], track);
    } else {
      var e, rest := es[0], es[1..];
      UnrollRun(q, es);
      StepOnTrack(q, e, track);
      FifoPerTrack(Step(q, e), rest, track);
      OnTrackConcat(Entering(e), Arrivals(rest), track);
      OnTrackConcat(Leaving(q, e), Served(Step(q, e), rest), track);
      Chain(OnTrack(q.reqs, track), OnTrack(Entering(e), track), OnTrack(Leaving(q, e), track),
            OnTrack(Step(q, e).reqs, track), OnTrack(Arrivals(rest), track),
            OnTrack(Served(Step(q, e), rest), track), OnTrack(Run(q, es).reqs, track));
    }
  }
}
