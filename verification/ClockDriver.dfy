/**
 Sleeping and waking: sleep_real puts the calling process on the heap of sleepers, the clock driver
 takes off everyone whose time has come.
 */
module ClockDriver {
  import opened CTypes
  import opened Wrappers
  import opened ProcTable
  import opened SleepHeap

  function WakeTime(now: int, seconds: int): int {
    Wrap(now + Wrap(seconds * 1_000_000))
  }

  /**
   The wake time is the C `int` that differs from the one asked for by a multiple of 2^32, and so is the one asked for
   exactly when that is a C `int` itself.
   */
  lemma WakeTimeExact(now: int, seconds: int)
    ensures IsInt(WakeTime(now, seconds))
    ensures (now + seconds * 1_000_000 - WakeTime(now, seconds)) % 0x1_0000_0000 == 0
    ensures WakeTime(now, seconds) == now + seconds * 1_000_000 <==> IsInt(now + seconds * 1_000_000)
  {
    hide Wrap;
    var micros := seconds * 1_000_000;
    WrapSum(now, micros);
    WrapSum(now, Wrap(micros));
    WrapIs(now + micros, WakeTime(now, seconds));
  }

  /** Wake-ups in nondecreasing wake-time order, the i-th no earlier than its wake time. */
  ghost predicate Timely(woken: seq<Proc>, clock: nat -> int)
    reads woken
  {
    && (forall i, j :: 0 <= i <= j < |woken| ==> woken[i].wakeTime <= woken[j].wakeTime)
    && (forall i :: 0 <= i < |woken| ==> woken[i].wakeTime <= clock(i))
  }

  lemma TimelyNone(clock: nat -> int)
    ensures Timely([], clock)
  {
  }

  lemma TimelyAppend(woken: seq<Proc>, p: Proc, clock: nat -> int)
    requires Timely(woken, clock)
    requires woken != [] ==> woken[|woken| - 1].wakeTime <= p.wakeTime
    requires p.wakeTime <= clock(|woken|)
    ensures Timely(woken + [p], clock)
  {
  }

  // ---------------------------------------------------------------------------------------------
  // Sleeping and waking in any order

  /** A process goes to sleep; a test of the drain loop wakes one, or finds nobody due. */
  datatype Event = Sleeps(p: Proc, seconds: int, now: int) | Wakes(p: Proc, now: int) | Finds(now: int)

  /** One event, on the wake times of the processes asleep. */
  ghost predicate Next(m: map<Proc, int>, e: Event, m': map<Proc, int>) {
    match e
    case Sleeps(p, seconds, now) => p !in m && m' == m[p := WakeTime(now, seconds)]
    case Wakes(p, now) => p in m && m[p] <= now && (forall q :: q in m ==> m[p] <= m[q]) && m' == m - {p}
    case Finds(now) => (forall q :: q in m ==> now < m[q]) && m' == m
  }

  lemma SleepsNext(m: map<Proc, int>, p: Proc, seconds: int, now: int)
    requires p !in m
    ensures Next(m, Sleeps(p, seconds, now), m[p := WakeTime(now, seconds)])
  {
  }

  ghost predicate Trace(ms: seq<map<Proc, int>>, es: seq<Event>) {
    && |ms| == |es| + 1
    && forall i {:trigger es[i]} :: 0 <= i < |es| ==> Next(ms[i], es[i], ms[i + 1])
  }

  predicate About(e: Event, p: Proc) {
    !e.Finds? && e.p == p
  }

  /** Since the j-th event nothing has happened to `p`. */
  ghost predicate Quiet(es: seq<Event>, p: Proc, j: int, i: nat)
    requires -1 <= j && i <= |es|
  {
    forall k :: j < k < i ==> !About(es[k], p)
  }

  /** Who is asleep has been so from the start, or has the wake time of its last call of sleep_real. */
  lemma {:induction false} WakeTimeOfSleep(ms: seq<map<Proc, int>>, es: seq<Event>, p: Proc, i: nat) returns (j: int)
    requires Trace(ms, es) && i <= |es| && p in ms[i]
    ensures -1 <= j < i && Quiet(es, p, j, i)
    ensures if j == -1 then p in ms[0] && ms[0][p] == ms[i][p]
            else es[j].Sleeps? && es[j].p == p && ms[i][p] == WakeTime(es[j].now, es[j].seconds)
    decreases i
  {
    if i == 0 {
      j := -1;
    } else if About(es[i - 1], p) {
      j := i - 1;
    } else {
      j := WakeTimeOfSleep(ms, es, p, i - 1);
    }
  }

  /** Whatever goes on in between, nobody is woken before the time last asked for. */
  lemma NobodyIsEarly(ms: seq<map<Proc, int>>, es: seq<Event>, i: nat) returns (j: int)
    requires Trace(ms, es) && i < |es| && es[i].Wakes?
    ensures -1 <= j < i && Quiet(es, es[i].p, j, i)
    ensures if j == -1 then es[i].p in ms[0] && ms[0][es[i].p] <= es[i].now
            else es[j].Sleeps? && es[j].p == es[i].p && WakeTime(es[j].now, es[j].seconds) <= es[i].now
  {
    assert Next(ms[i], es[i], ms[i + 1]);
    j := WakeTimeOfSleep(ms, es, es[i].p, i);
  }

  lemma {:induction false} AsleepUntilWoken(ms: seq<map<Proc, int>>, es: seq<Event>, p: Proc, j: nat, i: nat)
    requires Trace(ms, es) && j <= i <= |es| && p in ms[j]
    requires forall k :: j <= k < i ==> !(es[k].Wakes? && es[k].p == p)
    ensures p in ms[i] && ms[i][p] == ms[j][p]
    decreases i
  {
    if j < i {
      AsleepUntilWoken(ms, es, p, j, i - 1);
      assert Next(ms[i - 1], es[i - 1], ms[i]);
    }
  }

  /** When the loop finds nobody due, everybody has been woken who was asleep with a time that has come. */
  lemma NobodyIsForgotten(ms: seq<map<Proc, int>>, es: seq<Event>, p: Proc, j: nat, i: nat)
    requires Trace(ms, es) && j <= i < |es| && es[i].Finds? && p in ms[j] && ms[j][p] <= es[i].now
    ensures exists k :: j <= k < i && es[k].Wakes? && es[k].p == p
  {
    assert Next(ms[i], es[i], ms[i + 1]);
    if forall k :: j <= k < i ==> !(es[k].Wakes? && es[k].p == p) {
      AsleepUntilWoken(ms, es, p, j, i);
    }
  }

  function Sleeping(es: seq<Event>, p: Proc): nat {
    if es == [] then 0 else Sleeping(es[..|es| - 1], p) + if es[|es| - 1].Sleeps? && es[|es| - 1].p == p then 1 else 0
  }

  function Waking(es: seq<Event>, p: Proc): nat {
    if es == [] then 0 else Waking(es[..|es| - 1], p) + if es[|es| - 1].Wakes? && es[|es| - 1].p == p then 1 else 0
  }

  /** Every sleep ends with one wake-up. */
  lemma {:induction false} OneWakeUpEach(ms: seq<map<Proc, int>>, es: seq<Event>, p: Proc)
    requires Trace(ms, es)
    ensures (if p in ms[0] then 1 else 0) + Sleeping(es, p) == Waking(es, p) + if p in ms[|es|] then 1 else 0
    decreases |es|
  {
    if es != [] {
      var k := |es| - 1;
      OneWakeUpEach(ms[..|es|], es[..k], p);
      assert Next(ms[k], es[k], ms[k + 1]);
    }
  }

  // ---------------------------------------------------------------------------------------------

  class Sleepers {
    const table: seq<Proc>      // the process table
    const heap: Heap
    ghost var asleep: set<Proc> // the processes blocked in sleep_real

    /** A process is on the heap, and then once, exactly while it is asleep. */
    ghost predicate Valid()
      reads this, heap, heap.procs, if heap.Shaped() then set p | p in heap.Live() else {}
    {
      && |table| == MAXPROC
      && (forall i, j :: 0 <= i < j < |table| ==> table[i] != table[j])
      && (forall p :: p in asleep ==> p in table)
      && heap.Valid()
      && multiset(heap.Live()) == multiset(asleep)
    }

    /** The wake times of the processes asleep. */
    ghost function Times(): map<Proc, int>
      reads this, asleep
    {
      map p | p in asleep :: p.wakeTime
    }

    constructor (table: seq<Proc>)
      requires |table| == MAXPROC
      requires forall i, j :: 0 <= i < j < |table| ==> table[i] != table[j]
      ensures Valid() && asleep == {} && this.table == table && fresh(heap) && fresh(heap.procs)
    {
      this.table := table;
      heap := new Heap();
      asleep := {};
    }

    static lemma {:induction false} SetOfSeq(v: seq<Proc>)
      ensures |set q | q in v| <= |v|
      decreases |v|
    {
      if v != [] {
        SetOfSeq(v[1..]);
        assert (set q | q in v) == {v[0]} + (set q | q in v[1..]);
      }
    }

    /** Distinct slots of a table of MAXPROC are at most MAXPROC, and fewer if one is missing. */
    static lemma Pigeonhole(table: seq<Proc>, s: set<Proc>, p: Proc)
      requires |table| == MAXPROC
      requires (forall q :: q in s ==> q in table) && p in table && p !in s
      ensures |s| < MAXPROC
    {
      var all := set q | q in table;
      SetOfSeq(table);
      assert s <= all && p in all - s;
      assert all == s + (all - s);
      assert |all - s| > 0;
    }

    /** The heap has room for every caller: the store at the end of the array is in bounds. */
    lemma RoomFor(p: Proc)
      requires Valid() && p in table && p !in asleep
      ensures heap.size < MAXPROC && p !in heap.Live()
    {
      Pigeonhole(table, asleep, p);
      assert |multiset(heap.Live())| == |multiset(asleep)|;
      assert p !in multiset(asleep);
    }

    /** `p` is the entry of the calling process, which is running and hence not asleep. */
    method Sleep(p: Proc, seconds: int, now: int) returns (code: int)
      requires Valid() && p in table && p !in asleep
      modifies this`asleep, heap, heap.procs, p`wakeTime
      ensures Valid()
      ensures seconds < 0 ==> code == -1 && asleep == old(asleep) && unchanged(p) && unchanged(heap)
      ensures seconds >= 0 ==>
                && code == 0 && asleep == old(asleep) + {p} && p.wakeTime == WakeTime(now, seconds)
                && Next(old(Times()), Sleeps(p, seconds, now), Times())
    {
      hide Next, WakeTime, Ordered;
      if seconds < 0 {
        return -1;
      }
      RoomFor(p);
      ghost var times := Times();
      p.wakeTime := WakeTime(now, seconds);
      heap.Add(p);
      asleep := asleep + {p};
      assert Times() == times[p := WakeTime(now, seconds)];
      SleepsNext(times, p, seconds, now);
      code := 0;
    }

    lemma LiveIsAsleep(p: Proc)
      requires Valid()
      ensures p in heap.Live() <==> p in asleep
    {
      assert p in heap.Live() <==> p in multiset(heap.Live());
      assert p in asleep <==> p in multiset(asleep);
    }

    lemma NobodyLeft()
      requires Valid()
      ensures heap.size > 0 <==> asleep != {}
    {
      if asleep != {} {
        var p :| p in asleep;
        LiveIsAsleep(p);
      } else if heap.size > 0 {
        LiveIsAsleep(heap.Live()[0]);
      }
    }

    /** The sleeper that heap_peek yields. */
    method Earliest() returns (p: Proc)
      requires Valid() && heap.size > 0
      ensures p == heap.Live()[0] && p in asleep
      ensures forall q :: q in asleep ==> p.wakeTime <= q.wakeTime
    {
      p := heap.Peek();
      LiveIsAsleep(p);
      forall q | q in asleep ensures p.wakeTime <= q.wakeTime {
        LiveIsAsleep(q);
      }
    }

    /** One wake-up of the drain loop. */
    method WakeFirst() returns (p: Proc)
      requires Valid() && heap.size > 0
      modifies this`asleep, heap, heap.procs
      ensures Valid() && heap.size == old(heap.size) - 1
      ensures p == old(heap.Live()[0]) && p in old(asleep) && asleep == old(asleep) - {p}
    {
      hide Ordered;
      LiveIsAsleep(heap.Live()[0]);
      p := heap.Remove();
      assert multiset(asleep - {p}) == multiset(asleep) - multiset{p};
      asleep := asleep - {p};
    }

    /** One test of the drain loop, with somebody asleep, and one wake-up if it succeeds. */
    method WakeIfDue(now: int) returns (woken: Option<Proc>)
      requires Valid() && heap.size > 0
      modifies this`asleep, heap, heap.procs
      ensures Valid()
      ensures woken.Some? <==> exists q :: q in old(asleep) && q.wakeTime <= now
      ensures match woken
              case None => asleep == old(asleep) && heap.size == old(heap.size)
              case Some(p) =>
                && p in old(asleep) && p.wakeTime <= now
                && (forall q :: q in old(asleep) ==> p.wakeTime <= q.wakeTime)
                && asleep == old(asleep) - {p} && heap.size == old(heap.size) - 1
      ensures Next(old(Times()), match woken case None => Finds(now) case Some(p) => Wakes(p, now), Times())
    {
      hide Valid, Heap.Valid;
      var top := Earliest();
      if now < top.wakeTime {
        return None;
      }
      var p := WakeFirst();
      woken := Some(p);
    }

    /**
     The drain loop, while nobody goes to sleep.  `clock(r)` is the r-th reading of the clock, which never
     runs backwards; every test of the loop that finds a sleeper reads it once.
     */
    method Drain(clock: nat -> int) returns (woken: seq<Proc>)
      requires Valid()
      requires forall r, r' :: r <= r' ==> clock(r) <= clock(r')
      modifies this`asleep, heap, heap.procs
      ensures Valid()
      ensures multiset(old(asleep)) == multiset(asleep) + multiset(woken)
      ensures Timely(woken, clock)
      ensures forall p :: p in asleep ==> clock(|woken|) < p.wakeTime
    {
      hide Valid, Heap.Valid, Timely;
      woken := [];
      assert Timely(woken, clock) by { TimelyNone(clock); }
      var r := 0;
      NobodyLeft();
      while heap.size > 0
        invariant Valid() && r == |woken|
        invariant heap.size > 0 <==> asleep != {}
        invariant multiset(old(asleep)) == multiset(asleep) + multiset(woken)
        invariant Timely(woken, clock)
        invariant woken != [] ==> forall p :: p in asleep ==> woken[|woken| - 1].wakeTime <= p.wakeTime
        decreases heap.size
      {
        var next := WakeIfDue(clock(r));
        r := r + 1;
        if next == None {
          break;
        }
        var p := next.value;
        assert multiset(asleep + {p}) == multiset(asleep) + multiset{p};
        TimelyAppend(woken, p, clock);
        woken := woken + [p];
        NobodyLeft();
      }
    }
  }

  /** In particular everyone whose time had come at the first reading is woken. */
  lemma DueAreWoken(before: set<Proc>, after: set<Proc>, woken: seq<Proc>, clock: nat -> int, p: Proc)
    requires multiset(before) == multiset(after) + multiset(woken)
    requires forall r, r' :: r <= r' ==> clock(r) <= clock(r')
    requires forall q :: q in after ==> clock(|woken|) < q.wakeTime
    requires p in before && p.wakeTime <= clock(0)
    ensures p in woken
  {
    assert p in multiset(before);
    assert clock(0) <= clock(|woken|);
    assert p !in multiset(after);
  }
}
