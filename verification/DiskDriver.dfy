/**
 The disk driver of phase4/phase4.c: how a read or write request is validated and queued, and how the
 driver turns the request at the cursor into seeks and sector transfers.
 */
module DiskDriver {
  import opened CTypes
  import opened ProcTable
  import opened DiskSpan
  import opened DiskQueue
  import CScan

  datatype DiskState = DiskState(store: Store, trace: seq<Access>, seeks: seq<int>)

  /** The device: a head over one track, and the sectors.  `trace` and `seeks` record its use. */
  class Disk {
    const tracks: int
    var head: int
    var store: Store
    ghost var trace: seq<Access>
    ghost var seeks: seq<int>

    ghost function State(): DiskState
      reads this
    {
      DiskState(store, trace, seeks)
    }

    constructor (tracks: int) {
      this.tracks := tracks;
      head, store, trace, seeks := 0, map[], [], [];
    }

    method Seek(track: int)
      modifies this
      ensures head == track && store == old(store) && trace == old(trace) && seeks == old(seeks) + [track]
    {
      head, seeks := track, seeks + [track];
    }

    /** One sector from the disk into the buffer, or from the buffer onto the disk. */
    method Transfer(opr: Operation, sector: int, buffer: array<byte>, offset: nat)
      requires opr != Tracks && offset + SECTOR_SIZE <= buffer.Length
      requires Full(store)
      modifies this, if opr == Read then {buffer} else {}
      ensures head == old(head) && seeks == old(seeks) && Full(store)
      ensures trace == old(trace) + [Access(head, sector, offset)]
      ensures opr == Write ==> store == old(store)[(head, sector) := buffer[offset..offset + SECTOR_SIZE]]
      ensures opr == Read ==> store == old(store)
      ensures opr == Read ==> buffer[..offset] == old(buffer[..offset])
      ensures opr == Read ==> buffer[offset..offset + SECTOR_SIZE] == At(store, head, sector)
      ensures opr == Read ==> buffer[offset + SECTOR_SIZE..] == old(buffer[offset + SECTOR_SIZE..])
    {
      trace := trace + [Access(head, sector, offset)];
      if opr == Write {
        store := store[(head, sector) := buffer[offset..offset + SECTOR_SIZE]];
      } else {
        var data := At(store, head, sector);
        forall i | 0 <= i < SECTOR_SIZE {
          buffer[offset + i] := data[i];
        }
      }
    }
  }

  /** The n sectors' worth of bytes that a buffer holds from `offset` on. */
  ghost function Chunks(buffer: seq<byte>, offset: nat, n: nat): (c: seq<seq<byte>>)
    requires offset + SECTOR_SIZE * n <= |buffer|
    ensures |c| == n
  {
    seq(n, k requires 0 <= k < n => buffer[offset + SECTOR_SIZE * k..offset + SECTOR_SIZE * (k + 1)])
  }

  lemma ChunksConcat(buffer: seq<byte>, offset: nat, n: nat, m: nat)
    requires offset + SECTOR_SIZE * (n + m) <= |buffer|
    ensures Chunks(buffer, offset, n) + Chunks(buffer, offset + SECTOR_SIZE * n, m) == Chunks(buffer, offset, n + m)
  {
  }

  function Min(a: int, b: int): int {
    if a < b then a else b
  }

  /** What serving `n` sectors does to the disk and the buffer, whichever way the data flows. */
  ghost predicate Moved(opr: Operation, track: int, first: nat, n: nat, offset: nat,
                        before: Store, after: Store, oldBuffer: seq<byte>, buffer: seq<byte>)
    requires |oldBuffer| == |buffer| && offset + SECTOR_SIZE * n <= |buffer|
  {
    if opr == Write then
      && buffer == oldBuffer
      && after == WriteSpan(before, track, first, Chunks(buffer, offset, n))
    else
      && after == before
      && Chunks(buffer, offset, n) == ReadSpan(before, track, first, n)
      && buffer[..offset] == oldBuffer[..offset]
      && buffer[offset + SECTOR_SIZE * n..] == oldBuffer[offset + SECTOR_SIZE * n..]
  }

  lemma ChunksOfPrefix(a: seq<byte>, b: seq<byte>, offset: nat, n: nat)
    requires offset + SECTOR_SIZE * n <= |a| && offset + SECTOR_SIZE * n <= |b|
    requires a[..offset + SECTOR_SIZE * n] == b[..offset + SECTOR_SIZE * n]
    ensures Chunks(a, offset, n) == Chunks(b, offset, n)
  {
    var cut := offset + SECTOR_SIZE * n;
    forall k | 0 <= k < n ensures Chunks(a, offset, n)[k] == Chunks(b, offset, n)[k] {
      var lo, hi := offset + SECTOR_SIZE * k, offset + SECTOR_SIZE * (k + 1);
      assert a[lo..hi] == a[..cut][lo..hi];
      assert b[lo..hi] == b[..cut][lo..hi];
    }
  }

  lemma MovedConcat(opr: Operation, track: int, first: nat, n: nat, offset: nat, track': int, first': nat, m: nat,
                    st0: Store, st1: Store, st2: Store, b0: seq<byte>, b1: seq<byte>, b2: seq<byte>)
    requires |b0| == |b1| == |b2| && offset + SECTOR_SIZE * (n + m) <= |b0|
    requires track' * TRACK_SIZE + first' == track * TRACK_SIZE + first + n
    requires Moved(opr, track, first, n, offset, st0, st1, b0, b1)
    requires Moved(opr, track', first', m, offset + SECTOR_SIZE * n, st1, st2, b1, b2)
    ensures Moved(opr, track, first, n + m, offset, st0, st2, b0, b2)
  {
    ChunksConcat(b2, offset, n, m);
    if opr == Write {
      WriteSpanConcat(st0, track, first, Chunks(b0, offset, n), track', first',
                      Chunks(b0, offset + SECTOR_SIZE * n, m));
    } else {
      ReadSpanConcat(st0, track, first, n, track', first', m);
      var cut := offset + SECTOR_SIZE * n;
      assert b2[..cut] == b1[..cut];
      assert Chunks(b2, offset, n) == Chunks(b1, offset, n) by { ChunksOfPrefix(b1, b2, offset, n); }
      assert b2[..offset] == b2[..cut][..offset] == b1[..offset];
      assert b1[offset + SECTOR_SIZE * (n + m)..] == b1[cut..][SECTOR_SIZE * m..];
      assert b0[offset + SECTOR_SIZE * (n + m)..] == b0[cut..][SECTOR_SIZE * m..];
    }
  }

  /** A transfer of one sector is the one-sector case. */
  lemma MovedOne(opr: Operation, track: int, sector: nat, offset: nat, st0: Store, st1: Store,
                 b0: seq<byte>, b1: seq<byte>)
    requires opr != Tracks && sector < TRACK_SIZE
    requires |b0| == |b1| && offset + SECTOR_SIZE <= |b0|
    requires opr == Write ==> b1 == b0 && st1 == st0[(track, sector) := b0[offset..offset + SECTOR_SIZE]]
    requires opr == Read ==>
               && st1 == st0 && b1[..offset] == b0[..offset]
               && b1[offset..offset + SECTOR_SIZE] == At(st0, track, sector)
               && b1[offset + SECTOR_SIZE..] == b0[offset + SECTOR_SIZE..]
    ensures Moved(opr, track, sector, 1, offset, st0, st1, b0, b1)
  {
    assert Place(track, sector, 0) == (track, sector);
    if opr == Write {
      var c := Chunks(b0, offset, 1);
      assert WriteSpan(st0, track, sector, c) == WriteSpan(st0, track, sector, c[..0])[(track, sector) := c[0]];
    }
  }

  lemma MovedNothing(opr: Operation, track: int, first: nat, offset: nat, st: Store, b: seq<byte>)
    requires offset <= |b|
    ensures Moved(opr, track, first, 0, offset, st, st, b, b)
    ensures Transfers(track, first, 0, offset) == []
  {
  }

  lemma TransfersOne(track: int, sector: nat, offset: nat)
    requires sector < TRACK_SIZE
    ensures Transfers(track, sector, 1, offset) == [Access(track, sector, offset)]
  {
    assert Place(track, sector, 0) == (track, sector);
  }

  /** The inner loop: as many sectors as are wanted and still lie on the track under the head. */
  method Pass(disk: Disk, p: Proc)
    requires p.opr != Tracks && Full(disk.store)
    requires 0 <= p.diskFirstSec <= TRACK_SIZE
    requires p.offset + SECTOR_SIZE * Todo(p.diskSectors) <= p.buffer.Length
    modifies disk, p`diskSectors, p`offset, if p.opr == Read then {p.buffer} else {}
    ensures Full(disk.store) && disk.head == old(disk.head) && disk.seeks == old(disk.seeks)
    ensures var m := Min(TRACK_SIZE - p.diskFirstSec, Todo(old(p.diskSectors)));
            && p.diskSectors == old(p.diskSectors) - m
            && p.offset == old(p.offset) + SECTOR_SIZE * m
            && disk.trace == old(disk.trace) + Transfers(disk.head, p.diskFirstSec, m, old(p.offset))
            && Moved(p.opr, disk.head, p.diskFirstSec, m, old(p.offset),
                     old(disk.store), disk.store, old(p.buffer[..]), p.buffer[..])
  {
    hide Moved, Transfers, WriteSpan, ReadSpan;
    ghost var track, first, offset, n := disk.head, p.diskFirstSec, p.offset, Todo(p.diskSectors);
    ghost var st0, b0 := disk.store, p.buffer[..];
    var s := p.diskFirstSec;
    MovedNothing(p.opr, track, first, offset, st0, b0);
    while p.diskSectors > 0 && s < TRACK_SIZE
      invariant first <= s <= TRACK_SIZE && s - first <= n && n - (s - first) == Todo(p.diskSectors)
      invariant p.diskSectors == old(p.diskSectors) - (s - first)
      invariant Full(disk.store) && disk.head == track && disk.seeks == old(disk.seeks)
      invariant p.offset == offset + SECTOR_SIZE * (s - first)
      invariant disk.trace == old(disk.trace) + Transfers(track, first, s - first, offset)
      invariant Moved(p.opr, track, first, s - first, offset, st0, disk.store, b0, p.buffer[..])
      decreases TRACK_SIZE - s
    {
      ghost var st1, b1, k := disk.store, p.buffer[..], s - first;
      disk.Transfer(p.opr, s, p.buffer, p.offset);
      assert Moved(p.opr, track, s, 1, p.offset, st1, disk.store, b1, p.buffer[..]) by {
        MovedOne(p.opr, track, s, p.offset, st1, disk.store, b1, p.buffer[..]);
      }
      MovedConcat(p.opr, track, first, k, offset, track, s, 1, st0, st1, disk.store, b0, b1, p.buffer[..]);
      TransfersConcat(track, first, k, offset, track, s, 1);
      TransfersOne(track, s, p.offset);
      p.diskSectors := p.diskSectors - 1;
      p.offset := p.offset + SECTOR_SIZE;
      s := s + 1;
    }
  }

  /** After `passes` passes the `k` sectors moved end on the last of the tracks swept. */
  ghost predicate Swept(passes: int, first: nat, k: nat, n: nat, sector: int) {
    if passes == 0 then k == 0 && sector == first else
      && passes > 0 && sector == 0 && n > 0
      && TRACK_SIZE * (passes - 1) < first + k <= TRACK_SIZE * passes
      && (k < n ==> first + k == TRACK_SIZE * passes)
  }

  lemma SweptStart(first: nat, n: nat)
    ensures Swept(0, first, 0, n, first)
  {
  }

  lemma SweptStep(passes: int, first: nat, k: nat, n: nat, sector: int)
    requires Swept(passes, first, k, n, sector) && k < n && first <= TRACK_SIZE
    ensures passes >= 0 && 0 <= sector <= TRACK_SIZE
    ensures TRACK_SIZE * passes + sector == first + k
    ensures Swept(passes + 1, first, k + Min(TRACK_SIZE - sector, n - k), n, 0)
  {
  }

  lemma SweptEnd(passes: int, first: nat, n: nat, sector: int)
    requires Swept(passes, first, n, n, sector)
    ensures passes == Passes(first, n)
  {
  }

  /**
   The outer loop: serves a read or write request.  The linear sectors track * 16 + first + k are
   transferred in order, each once, at byte offset 512 * k of the buffer, and the tracks are sought
   one after the other.  A request may begin at sector 16; its first pass then moves nothing.
   */
  method ServeTransfer(disk: Disk, p: Proc)
    requires p.opr != Tracks && Full(disk.store)
    requires 0 <= p.diskFirstSec <= TRACK_SIZE
    requires p.offset + SECTOR_SIZE * Todo(p.diskSectors) <= p.buffer.Length
    modifies disk, p`diskFirstSec, p`diskSectors, p`offset, if p.opr == Read then {p.buffer} else {}
    ensures Full(disk.store) && 0 <= p.diskFirstSec <= TRACK_SIZE
    ensures var first, n, offset := old(p.diskFirstSec), Todo(old(p.diskSectors)), old(p.offset);
            && p.diskSectors == old(p.diskSectors) - n
            && p.offset == offset + SECTOR_SIZE * n
            && disk.trace == old(disk.trace) + Transfers(p.diskTrack, first, n, offset)
            && disk.seeks == old(disk.seeks) + Seeks(p.diskTrack, first, n)
            && Moved(p.opr, p.diskTrack, first, n, offset,
                     old(disk.store), disk.store, old(p.buffer[..]), p.buffer[..])
  {
    hide Moved, Transfers, WriteSpan, ReadSpan, Swept, Passes, Full, At, Place, Chunks;
    var track := p.diskTrack;
    ghost var t, first, n, offset := p.diskTrack, p.diskFirstSec, Todo(p.diskSectors), p.offset;
    ghost var st0, b0, k := disk.store, p.buffer[..], 0;
    MovedNothing(p.opr, t, first, offset, st0, b0);
    SweptStart(first, n);
    while p.diskSectors > 0
      invariant 0 <= k <= n && Todo(p.diskSectors) == n - k && p.diskSectors == old(p.diskSectors) - k
      invariant 0 <= p.diskFirstSec <= TRACK_SIZE
      invariant track >= t && Swept(track - t, first, k, n, p.diskFirstSec)
      invariant Full(disk.store) && disk.seeks == old(disk.seeks) + seq(track - t, i => t + i)
      invariant p.offset == offset + SECTOR_SIZE * k
      invariant disk.trace == old(disk.trace) + Transfers(t, first, k, offset)
      invariant Moved(p.opr, t, first, k, offset, st0, disk.store, b0, p.buffer[..])
      decreases p.diskSectors, p.diskFirstSec
    {
      ghost var st1, b1, m := disk.store, p.buffer[..], Min(TRACK_SIZE - p.diskFirstSec, n - k);
      SweptStep(track - t, first, k, n, p.diskFirstSec);
      disk.Seek(track);
      Pass(disk, p);
      MovedConcat(p.opr, t, first, k, offset, track, p.diskFirstSec, m, st0, st1, disk.store, b0, b1, p.buffer[..]);
      TransfersConcat(t, first, k, offset, track, p.diskFirstSec, m);
      k := k + m;
      track := track + 1;
      p.diskFirstSec := 0;
    }
    SweptEnd(track - t, first, n, p.diskFirstSec);
  }

  // ---------------------------------------------------------------------------------------------
  // Requests

  /** What the driver relies on in a queued request. */
  ghost predicate Servable(p: Proc)
    reads p`opr, p`diskFirstSec, p`diskSectors, p`offset, p`buffer
  {
    p.opr != Tracks ==>
      && 0 <= p.diskFirstSec <= TRACK_SIZE
      && p.offset + SECTOR_SIZE * Todo(p.diskSectors) <= p.buffer.Length
  }

  /**
   The caller's side: an illegal request is refused and leaves no trace, a legal one is queued.  Nothing
   checks that the buffer is as large as the request.
   */
  method Submit(q: RequestQueue, p: Proc, opr: Operation, unit: int, track: int, first: int, sectors: int,
                buffer: array?<byte>, tracks: int) returns (queued: bool)
    requires q.Valid() && p !in q.nodes && opr != Tracks
    modifies q, p, q.nodes`prevDisk, q.nodes`nextDisk
    ensures q.Valid()
    ensures queued <==> Accepts(unit, track, first, sectors, buffer != null, tracks)
    ensures !queued ==> unchanged(q) && unchanged(p) && q.Abs() == old(q.Abs())
    ensures queued ==>
              && p.opr == opr && p.diskTrack == track && p.diskFirstSec == first && p.diskSectors == sectors
              && p.buffer == buffer && p.offset == 0
              && (Servable(p) <==> SECTOR_SIZE * Todo(sectors) <= buffer.Length)
              && q.Abs() == CScan.Add(old(q.Abs()), CScan.Request(p.slot, track))
              && p in q.nodes && (forall n :: n in q.nodes ==> n == p || n in old(q.nodes))
  {
    hide CScan.Wf, CScan.InsertPos, RequestQueue.Ring;
    if unit < 0 || unit > 1 || track < 0 || track > tracks || first < 0 || first > TRACK_SIZE || buffer == null ||
       Wrap(CDiv(Wrap(first + sectors), TRACK_SIZE) + track) > tracks
    {
      return false;
    }
    ghost var before := q.Abs();
    p.opr, p.buffer, p.offset := opr, buffer, 0;
    p.diskTrack, p.diskFirstSec, p.diskSectors := track, first, sectors;
    assert q.Abs() == before;
    q.Add(p);
    queued := true;
  }

  /** A queued request as the driver finds it. */
  datatype Job = Job(opr: Operation, track: int, first: int, sectors: int, offset: nat)

  ghost function JobOf(p: Proc): Job
    reads p`opr, p`diskTrack, p`diskFirstSec, p`diskSectors, p`offset
  {
    Job(p.opr, p.diskTrack, p.diskFirstSec, p.diskSectors, p.offset)
  }

  /** What carrying out a request does to the disk and to the buffer of the request. */
  ghost predicate Effect(job: Job, d0: DiskState, d1: DiskState, b0: seq<byte>, b1: seq<byte>) {
    if job.opr == Tracks then d1 == d0 && b1 == b0 else
      var n := Todo(job.sectors);
      && 0 <= job.first && |b0| == |b1| && job.offset + SECTOR_SIZE * n <= |b0|
      && d1.trace == d0.trace + Transfers(job.track, job.first, n, job.offset)
      && d1.seeks == d0.seeks + Seeks(job.track, job.first, n)
      && Moved(job.opr, job.track, job.first, n, job.offset, d0.store, d1.store, b0, b1)
  }

  method Serve(disk: Disk, p: Proc, me: Proc)
    requires Servable(p) && Full(disk.store) && me != p
    modifies disk, me`diskTrack, p`diskFirstSec, p`diskSectors, p`offset, if p.opr == Read then {p.buffer} else {}
    ensures Full(disk.store) && Servable(p)
    ensures Effect(old(JobOf(p)), old(disk.State()), disk.State(), old(p.buffer[..]), p.buffer[..])
    ensures me.diskTrack == if p.opr == Tracks then disk.tracks else old(me.diskTrack)
  {
    hide Moved, Transfers, Seeks;
    if p.opr == Tracks {
      me.diskTrack := disk.tracks;
    } else {
      ServeTransfer(disk, p);
    }
  }

  /** The part of a round between the look at the queue and the removal. */
  method ServeFront(q: RequestQueue, disk: Disk, me: Proc) returns (served: Proc)
    requires q.Valid() && q.nodes != [] && me !in q.nodes && Full(disk.store)
    requires forall n :: n in q.nodes ==> Servable(n)
    modifies disk, me`diskTrack, q`curr, q`cursor, set n | n in q.nodes :: n.buffer
    modifies (set n | n in q.nodes)`diskFirstSec, (set n | n in q.nodes)`diskSectors, (set n | n in q.nodes)`offset
    ensures q.Valid() && Full(disk.store) && q.Abs() == CScan.Peek(old(q.Abs()))
    ensures forall n :: n in q.nodes ==> Servable(n)
    ensures forall n :: n in q.nodes && n != served ==> JobOf(n) == old(JobOf(n))
    ensures forall n :: n in q.nodes && n.buffer != served.buffer ==> n.buffer[..] == old(n.buffer[..])
    ensures CScan.Front(old(q.Abs())) < |q.nodes| && served == q.nodes[CScan.Front(old(q.Abs()))]
    ensures Effect(old(JobOf(served)), old(disk.State()), disk.State(), old(served.buffer[..]), served.buffer[..])
    ensures me.diskTrack == if served.opr == Tracks then disk.tracks else old(me.diskTrack)
  {
    hide Effect, Servable, Full, RequestQueue.Valid, RequestQueue.Ring;
    q.SizeOf();
    served := q.Peek();
    label Peeked:
    Serve(disk, served, me);
    q.Framed@Peeked();
    assert forall n :: n in q.nodes ==> Servable(n);
  }

  /** Requests that come in one after the other, as events of the queue. */
  ghost function Arriving(rs: seq<CScan.Request>): (es: seq<CScan.Event>)
    ensures |es| == |rs|
    ensures forall e :: e in es ==> e.Arrive?
  {
    seq(|rs|, i requires 0 <= i < |rs| => CScan.Arrive(rs[i]))
  }

  lemma WfOf(q: RequestQueue)
    requires q.Valid()
    ensures CScan.Wf(q.Abs())
  {
  }

  lemma NoneArriving(q: CScan.Queue, rs: seq<CScan.Request>)
    requires CScan.Wf(q)
    ensures CScan.Run(q, Arriving(rs)[..0]) == q
  {
  }

  lemma OneMoreArriving(q: CScan.Queue, rs: seq<CScan.Request>, i: nat)
    requires CScan.Wf(q) && i < |rs|
    ensures CScan.Run(q, Arriving(rs)[..i + 1]) == CScan.Add(CScan.Run(q, Arriving(rs)[..i]), rs[i])
  {
    assert Arriving(rs)[..i + 1] == Arriving(rs)[..i] + [Arriving(rs)[i]];
    CScan.RunThen(q, Arriving(rs)[..i], Arriving(rs)[i]);
  }

  method ArriveAll(q: RequestQueue, procs: seq<Proc>)
    requires q.Valid()
    requires forall i :: 0 <= i < |procs| ==> procs[i] !in q.nodes
    requires forall i, j :: 0 <= i < j < |procs| ==> procs[i] != procs[j]
    modifies q
    modifies (set n | n in procs || n in q.nodes)`prevDisk, (set n | n in procs || n in q.nodes)`nextDisk
    ensures q.Valid() && q.curr == old(q.curr)
    ensures CScan.Wf(old(q.Abs()))
    ensures q.Abs() == CScan.Run(old(q.Abs()), Arriving(old(RequestQueue.Requests(procs))))
    ensures forall n :: n in q.nodes <==> n in old(q.nodes) || n in procs
  {
    hide CScan.Wf, CScan.Add, CScan.InsertPos, CScan.Run, RequestQueue.Ring, Arriving;
    ghost var q0, rs := q.Abs(), RequestQueue.Requests(procs);
    WfOf(q);
    NoneArriving(q0, rs);
    for i := 0 to |procs|
      invariant q.Valid() && q.curr == old(q.curr)
      invariant RequestQueue.Requests(procs) == rs
      invariant CScan.Wf(q0) && q.Abs() == CScan.Run(q0, Arriving(rs)[..i])
      invariant forall n :: n in q.nodes <==> n in old(q.nodes) || n in procs[..i]
    {
      OneMoreArriving(q0, rs, i);
      var p := procs[i];
      assert procs[..i + 1] == procs[..i] + [p];
      assert forall n :: n in procs[..i] ==> n in procs;
      q.Add(p);
    }
    assert Arriving(rs)[..|procs|] == Arriving(rs) && procs[..|procs|] == procs;
  }

  lemma PeekWf(q: RequestQueue)
    requires q.Valid()
    ensures CScan.Wf(CScan.Peek(q.Abs()))
  {
    CScan.RemoveWf(q.Abs());
  }

  /** Where a sweep is under way, the pointer and the index of the cursor agree. */
  lemma AtCursor(q: RequestQueue)
    requires q.Valid()
    ensures q.curr != null ==>
              q.cursor.Some? && CScan.Front(q.Abs()) < |q.nodes| && q.curr == q.nodes[CScan.Front(q.Abs())]
    ensures q.cursor.Some? ==> q.curr != null
  {
  }

  /** The rest of the round: requests come in, and the one under the cursor goes. */
  method Finish(q: RequestQueue, arrivals: seq<Proc>) returns (gone: Proc?)
    requires q.Valid() && q.curr != null
    requires forall i :: 0 <= i < |arrivals| ==> arrivals[i] !in q.nodes
    requires forall i, j :: 0 <= i < j < |arrivals| ==> arrivals[i] != arrivals[j]
    modifies q
    modifies (set n | n in arrivals || n in q.nodes)`prevDisk, (set n | n in arrivals || n in q.nodes)`nextDisk
    ensures q.Valid() && gone == old(q.curr)
    ensures CScan.Wf(old(q.Abs()))
    ensures q.Abs() == CScan.Remove(CScan.Run(old(q.Abs()), Arriving(old(RequestQueue.Requests(arrivals)))))
    ensures forall n :: n in q.nodes <==> (n in old(q.nodes) || n in arrivals) && n != gone
  {
    hide CScan.Run, CScan.Wf, RequestQueue.Valid, RequestQueue.Ring;
    AtCursor(q);
    ArriveAll(q, arrivals);
    AtCursor(q);
    gone := q.Remove();
  }

  /**
   One round of the driver, while the processes `arrivals` queue their requests: the request under the
   cursor is carried out in full, it is that request that leaves the queue, and the others are as they were.
   */
  method ServeNext(q: RequestQueue, disk: Disk, me: Proc, arrivals: seq<Proc>) returns (served: Proc?)
    requires q.Valid() && me !in q.nodes && me !in arrivals && Full(disk.store)
    requires forall n :: n in q.nodes || n in arrivals ==> Servable(n)
    requires forall i :: 0 <= i < |arrivals| ==> arrivals[i] !in q.nodes
    requires forall i, j :: 0 <= i < j < |arrivals| ==> arrivals[i] != arrivals[j]
    modifies disk, me`diskTrack, q, set n | n in q.nodes :: n.buffer
    modifies (set n | n in q.nodes)`diskFirstSec, (set n | n in q.nodes)`diskSectors, (set n | n in q.nodes)`offset
    modifies (set n | n in arrivals || n in q.nodes)`prevDisk, (set n | n in arrivals || n in q.nodes)`nextDisk
    ensures q.Valid() && Full(disk.store) && CScan.Wf(CScan.Peek(old(q.Abs())))
    ensures old(q.nodes) == [] ==> served == null && unchanged(disk) && unchanged(me) && unchanged(q)
    ensures old(q.nodes) != [] ==>
              && served == old(q.nodes)[CScan.Front(old(q.Abs()))]
              && q.Abs() == CScan.Remove(CScan.Run(CScan.Peek(old(q.Abs())),
                                                   Arriving(old(RequestQueue.Requests(arrivals)))))
              && (forall n :: n in q.nodes <==> (n in old(q.nodes) && n != served) || n in arrivals)
              && Effect(old(JobOf(served)), old(disk.State()), disk.State(), old(served.buffer[..]), served.buffer[..])
              && me.diskTrack == if served.opr == Tracks then disk.tracks else old(me.diskTrack)
    ensures forall n :: n in q.nodes ==> Servable(n) && JobOf(n) == old(JobOf(n))
    ensures served != null ==>
              forall n :: n in q.nodes && n.buffer != served.buffer ==> n.buffer[..] == old(n.buffer[..])
  {
    hide Effect, Servable, JobOf, Full, CScan.Run, CScan.Wf, RequestQueue.Valid, RequestQueue.Ring;
    q.SizeOf();
    ghost var rs := RequestQueue.Requests(arrivals);
    PeekWf(q);
    served := null;
    if q.size > 0 {
      served := ServeFront(q, disk, me);
      assert RequestQueue.Requests(arrivals) == rs;
      AtCursor(q);
      var gone := Finish(q, arrivals);
      assert gone == served;
    }
  }

  // ---------------------------------------------------------------------------------------------
  // Rounds until the queue is empty

  /** Requests carried out one after the other, with the states of the disk and the buffers around each. */
  ghost predicate InTurn(jobs: seq<Job>, ds: seq<DiskState>, before: seq<seq<byte>>, after: seq<seq<byte>>) {
    && |ds| == |jobs| + 1 && |before| == |after| == |jobs|
    && forall i {:trigger jobs[i]} :: 0 <= i < |jobs| ==> Effect(jobs[i], ds[i], ds[i + 1], before[i], after[i])
  }

  /**
   The requests of `served` were carried out in turn, each as it was asked for, and from the bytes that
   were held for it if there were any.
   */
  ghost predicate Recorded(asked: map<Proc, Job>, held: map<Proc, seq<byte>>, served: seq<Proc>, jobs: seq<Job>,
                           ds: seq<DiskState>, before: seq<seq<byte>>, after: seq<seq<byte>>) {
    && InTurn(jobs, ds, before, after) && |served| == |jobs|
    && forall i {:trigger served[i]} :: 0 <= i < |served| ==>
         && served[i] in asked && jobs[i] == asked[served[i]]
         && (served[i] in held ==> before[i] == held[served[i]])
  }

  lemma RecordedThen(asked: map<Proc, Job>, held: map<Proc, seq<byte>>, served: seq<Proc>, jobs: seq<Job>,
                     ds: seq<DiskState>, before: seq<seq<byte>>, after: seq<seq<byte>>,
                     p: Proc, d: DiskState, b0: seq<byte>, b1: seq<byte>)
    requires Recorded(asked, held, served, jobs, ds, before, after)
    requires p in asked && Effect(asked[p], ds[|jobs|], d, b0, b1) && (p in held ==> b0 == held[p])
    ensures Recorded(asked, held, served + [p], jobs + [asked[p]], ds + [d], before + [b0], after + [b1])
  {
    hide Effect;
  }

  /** The requests of processes, by slot and track. */
  ghost function Keys(served: seq<Proc>, jobs: seq<Job>): seq<CScan.Request>
    requires |served| == |jobs|
  {
    seq(|served|, i requires 0 <= i < |served| => CScan.Request(served[i].slot, jobs[i].track))
  }

  lemma KeysThen(served: seq<Proc>, jobs: seq<Job>, p: Proc, job: Job, rest: seq<CScan.Request>)
    requires |served| == |jobs|
    ensures Keys(served, jobs) + ([CScan.Request(p.slot, job.track)] + rest) == Keys(served + [p], jobs + [job]) + rest
  {
  }

  lemma NoneRecorded(asked: map<Proc, Job>, held: map<Proc, seq<byte>>, d: DiskState)
    ensures Recorded(asked, held, [], [], [d], [], [])
    ensures Keys([], []) == []
  {
  }

  lemma NextInOrder(q: RequestQueue)
    requires q.Valid() && q.nodes != []
    ensures var c, a := CScan.Front(q.Abs()), q.Abs();
            && CScan.Wf(a) && c < |q.nodes| && CScan.Wf(CScan.Peek(a)) && CScan.Wf(CScan.Remove(a))
            && CScan.Remove(CScan.Run(CScan.Peek(a), Arriving([]))) == CScan.Remove(a)
            && CScan.Order(a) == [CScan.Request(q.nodes[c].slot, q.nodes[c].diskTrack)] + CScan.Order(CScan.Remove(a))
  {
    CScan.RemoveTakesHead(q.Abs());
    CScan.RemoveWf(q.Abs());
    NoneArriving(CScan.Peek(q.Abs()), []);
    assert Arriving([]) == Arriving([])[..0];
  }

  /** Nobody else on the queue has the buffer of `p`. */
  ghost predicate OwnBuffer(p: Proc, nodes: seq<Proc>)
    reads p`buffer, set n | n in nodes
  {
    forall n :: n in nodes && n != p ==> n.buffer != p.buffer
  }

  lemma NothingLeft(q: RequestQueue)
    requires q.Valid() && q.size == 0
    ensures q.nodes == [] && CScan.Wf(q.Abs()) && CScan.Order(q.Abs()) == []
  {
  }

  /** The waiting requests are as asked for, and the buffers of their own as held for them. */
  ghost predicate Pending(nodes: seq<Proc>, asked: map<Proc, Job>, held: map<Proc, seq<byte>>)
    reads nodes, set n | n in nodes :: n.buffer
  {
    forall n :: n in nodes ==>
      && Servable(n) && n in asked && JobOf(n) == asked[n]
      && (n in held ==> OwnBuffer(n, nodes) && n.buffer[..] == held[n])
  }

  lemma AllPending(nodes: seq<Proc>)
    requires forall n :: n in nodes ==> Servable(n)
    ensures Pending(nodes, map n | n in nodes :: JobOf(n), map n | n in nodes && OwnBuffer(n, nodes) :: n.buffer[..])
  {
  }

  lemma TrackOf(p: Proc)
    ensures JobOf(p).track == p.diskTrack
  {
  }

  /** A round in which nobody queues anything, on a queue that is not empty. */
  method ServeAlone(q: RequestQueue, disk: Disk, me: Proc) returns (served: Proc)
    requires q.Valid() && q.nodes != [] && me !in q.nodes && Full(disk.store)
    requires forall n :: n in q.nodes ==> Servable(n)
    modifies disk, me`diskTrack, q, set n | n in q.nodes :: n.buffer
    modifies (set n | n in q.nodes)`diskFirstSec, (set n | n in q.nodes)`diskSectors, (set n | n in q.nodes)`offset
    modifies (set n | n in q.nodes)`prevDisk, (set n | n in q.nodes)`nextDisk
    ensures q.Valid() && Full(disk.store) && |q.nodes| == |old(q.nodes)| - 1 && served in old(q.nodes)
    ensures CScan.Wf(old(q.Abs())) && CScan.Wf(q.Abs())
    ensures forall n :: n in q.nodes <==> n in old(q.nodes) && n != served
    ensures CScan.Order(old(q.Abs())) == [CScan.Request(served.slot, old(JobOf(served)).track)] + CScan.Order(q.Abs())
    ensures forall n :: n in q.nodes ==> Servable(n) && JobOf(n) == old(JobOf(n))
    ensures forall n :: n in q.nodes && n.buffer != served.buffer ==> n.buffer[..] == old(n.buffer[..])
    ensures Effect(old(JobOf(served)), old(disk.State()), disk.State(), old(served.buffer[..]), served.buffer[..])
  {
    hide Effect, Servable, JobOf, Full, CScan.Order, CScan.Run, CScan.Wf, RequestQueue.Valid, RequestQueue.Ring;
    NextInOrder(q);
    TrackOf(q.nodes[CScan.Front(q.Abs())]);
    var none: seq<Proc> := [];
    assert RequestQueue.Requests(none) == [];
    served := ServeNext(q, disk, me, none);
    WfOf(q);
    assert |CScan.Remove(old(q.Abs())).reqs| == |old(q.nodes)| - 1;
  }

  method Round(q: RequestQueue, disk: Disk, me: Proc, ghost asked: map<Proc, Job>, ghost held: map<Proc, seq<byte>>)
    returns (served: Proc)
    requires q.Valid() && q.nodes != [] && me !in q.nodes && Full(disk.store) && Pending(q.nodes, asked, held)
    modifies disk, me`diskTrack, q, set n | n in q.nodes :: n.buffer
    modifies (set n | n in q.nodes)`diskFirstSec, (set n | n in q.nodes)`diskSectors, (set n | n in q.nodes)`offset
    modifies (set n | n in q.nodes)`prevDisk, (set n | n in q.nodes)`nextDisk
    ensures q.Valid() && Full(disk.store) && |q.nodes| == |old(q.nodes)| - 1 && served in old(q.nodes)
    ensures CScan.Wf(old(q.Abs())) && CScan.Wf(q.Abs())
    ensures forall n :: n in q.nodes <==> n in old(q.nodes) && n != served
    ensures Pending(q.nodes, asked, held) && served in asked
    ensures CScan.Order(old(q.Abs())) == [CScan.Request(served.slot, asked[served].track)] + CScan.Order(q.Abs())
    ensures Effect(asked[served], old(disk.State()), disk.State(), old(served.buffer[..]), served.buffer[..])
    ensures served in held ==> old(served.buffer[..]) == held[served]
  {
    hide Effect, Servable, JobOf, Full, CScan.Order, CScan.Wf, RequestQueue.Valid, RequestQueue.Abs;
    served := ServeAlone(q, disk, me);
  }

  /**
   While nobody queues anything, the rounds of the driver carry out the requests, each as it was queued, in
   the order of the discipline, one after the other, and once.  A buffer of its own is as it was when
   the turn of its request comes.
   */
  method ServeAll(q: RequestQueue, disk: Disk, me: Proc)
    returns (ghost served: seq<Proc>, ghost jobs: seq<Job>, ghost ds: seq<DiskState>,
             ghost before: seq<seq<byte>>, ghost after: seq<seq<byte>>)
    requires q.Valid() && me !in q.nodes && Full(disk.store)
    requires forall n :: n in q.nodes ==> Servable(n)
    modifies disk, me`diskTrack, q, set n | n in q.nodes :: n.buffer
    modifies (set n | n in q.nodes)`diskFirstSec, (set n | n in q.nodes)`diskSectors, (set n | n in q.nodes)`offset
    modifies (set n | n in q.nodes)`prevDisk, (set n | n in q.nodes)`nextDisk
    ensures q.Valid() && q.nodes == [] && CScan.Wf(old(q.Abs()))
    ensures |served| == |jobs| && forall n :: n in old(q.nodes) ==> n in served
    ensures CScan.Order(old(q.Abs())) == Keys(served, jobs)
    ensures Recorded(old(map n | n in q.nodes :: JobOf(n)),
                     old(map n | n in q.nodes && OwnBuffer(n, q.nodes) :: n.buffer[..]),
                     served, jobs, ds, before, after)
    ensures ds[0] == old(disk.State()) && ds[|jobs|] == disk.State()
  {
    hide Effect, Pending, Full, Recorded, Keys, CScan.Order, CScan.Run, CScan.Remove, CScan.Sorted,
         RequestQueue.Valid, RequestQueue.Ring, RequestQueue.Abs;
    ghost var q0, nodes0 := q.Abs(), q.nodes;
    ghost var asked := map n | n in q.nodes :: JobOf(n);
    ghost var held := map n | n in q.nodes && OwnBuffer(n, q.nodes) :: n.buffer[..];
    served, jobs, ds, before, after := [], [], [disk.State()], [], [];
    NoneRecorded(asked, held, disk.State());
    AllPending(q.nodes);
    WfOf(q);
    q.SizeOf();
    while q.size > 0
      invariant q.Valid() && q.size == |q.nodes| && Full(disk.store) && CScan.Wf(q.Abs())
      invariant Pending(q.nodes, asked, held) && forall n :: n in q.nodes ==> n in nodes0
      invariant forall n :: n in nodes0 ==> n in served || n in q.nodes
      invariant |served| == |jobs| && |ds| == |jobs| + 1
      invariant CScan.Order(q0) == Keys(served, jobs) + CScan.Order(q.Abs())
      invariant Recorded(asked, held, served, jobs, ds, before, after)
      invariant ds[0] == old(disk.State()) && ds[|jobs|] == disk.State()
      decreases q.size
    {
      label Before:
      var p := Round(q, disk, me, asked, held);
      ghost var b0, b1 := old@Before(p.buffer[..]), p.buffer[..];
      RecordedThen(asked, held, served, jobs, ds, before, after, p, disk.State(), b0, b1);
      KeysThen(served, jobs, p, asked[p], CScan.Order(q.Abs()));
      before, after := before + [b0], after + [b1];
      served, jobs, ds := served + [p], jobs + [asked[p]], ds + [disk.State()];
      q.SizeOf();
    }
    NothingLeft(q);
  }

  // ---------------------------------------------------------------------------------------------
  // What one request writes another one reads

  lemma ChunksFixBytes(a: seq<byte>, i: nat, b: seq<byte>, j: nat, n: nat)
    requires i + SECTOR_SIZE * n <= |a| && j + SECTOR_SIZE * n <= |b|
    requires Chunks(a, i, n) == Chunks(b, j, n)
    ensures a[i..i + SECTOR_SIZE * n] == b[j..j + SECTOR_SIZE * n]
  {
    var s, t := a[i..i + SECTOR_SIZE * n], b[j..j + SECTOR_SIZE * n];
    forall x | 0 <= x < |s| ensures s[x] == t[x] {
      var k, y := x / SECTOR_SIZE, x % SECTOR_SIZE;
      assert Chunks(a, i, n)[k][y] == s[x];
      assert Chunks(b, j, n)[k][y] == t[x];
    }
  }

  /** A request that writes none of the sectors of `w`. */
  predicate Spares(j: Job, w: Job) {
    j.opr == Write ==>
      || j.track * TRACK_SIZE + j.first + Todo(j.sectors) <= w.track * TRACK_SIZE + w.first
      || w.track * TRACK_SIZE + w.first + Todo(w.sectors) <= j.track * TRACK_SIZE + j.first
  }

  lemma SparedOnce(j: Job, w: Job, d0: DiskState, d1: DiskState, b0: seq<byte>, b1: seq<byte>)
    requires 0 <= w.first && Spares(j, w) && Effect(j, d0, d1, b0, b1)
    ensures ReadSpan(d1.store, w.track, w.first, Todo(w.sectors))
            == ReadSpan(d0.store, w.track, w.first, Todo(w.sectors))
  {
    if j.opr == Write {
      var data := Chunks(b0, j.offset, Todo(j.sectors));
      DisjointSpan(d0.store, j.track, j.first, data, w.track, w.first, Todo(w.sectors));
    }
  }

  lemma {:induction false} Spared(w: Job, jobs: seq<Job>, ds: seq<DiskState>,
                                  before: seq<seq<byte>>, after: seq<seq<byte>>)
    requires 0 <= w.first && InTurn(jobs, ds, before, after)
    requires forall j :: j in jobs ==> Spares(j, w)
    ensures ReadSpan(ds[|jobs|].store, w.track, w.first, Todo(w.sectors))
            == ReadSpan(ds[0].store, w.track, w.first, Todo(w.sectors))
    decreases |jobs|
  {
    hide Effect, Spares;
    if jobs != [] {
      var k := |jobs| - 1;
      assert jobs[k] in jobs;
      Spared(w, jobs[..k], ds[..|jobs|], before[..k], after[..k]);
      SparedOnce(jobs[k], w, ds[k], ds[k + 1], before[k], after[k]);
    }
  }

  /**
   What one request wrote a later one reads: the bytes that a write request found in its buffer are the
   bytes that a read request of the same sectors leaves in its own, across any number of tracks and
   whatever requests are carried out in between, as long as they do not write those sectors.
   */
  lemma WriteThenRead(w: Job, r: Job, d: DiskState, wb0: seq<byte>, wb1: seq<byte>,
                      jobs: seq<Job>, ds: seq<DiskState>, before: seq<seq<byte>>, after: seq<seq<byte>>,
                      d': DiskState, rb0: seq<byte>, rb1: seq<byte>)
    requires w.opr == Write && r.opr == Read
    requires (w.track, w.first, w.sectors) == (r.track, r.first, r.sectors)
    requires InTurn(jobs, ds, before, after) && forall j :: j in jobs ==> Spares(j, w)
    requires Effect(w, d, ds[0], wb0, wb1) && Effect(r, ds[|jobs|], d', rb0, rb1)
    ensures var bytes := SECTOR_SIZE * Todo(w.sectors);
            && w.offset + bytes <= |wb0| && r.offset + bytes <= |rb1|
            && rb1[r.offset..r.offset + bytes] == wb0[w.offset..w.offset + bytes]
  {
    var n := Todo(w.sectors);
    RoundTrip(d.store, w.track, w.first, Chunks(wb0, w.offset, n));
    Spared(w, jobs, ds, before, after);
    ChunksFixBytes(rb1, r.offset, wb0, w.offset, n);
  }

  /**
   So it is between the requests of a queue: of two among those served, the later one, a read, leaves in its
   buffer what was held for the earlier one, a write of the same sectors.
   */
  lemma QueuedWriteThenRead(asked: map<Proc, Job>, held: map<Proc, seq<byte>>, served: seq<Proc>, jobs: seq<Job>,
                            ds: seq<DiskState>, before: seq<seq<byte>>, after: seq<seq<byte>>, i: nat, j: nat)
    requires Recorded(asked, held, served, jobs, ds, before, after)
    requires i < j < |jobs| && served[i] in held
    requires jobs[i].opr == Write && jobs[j].opr == Read
    requires (jobs[i].track, jobs[i].first, jobs[i].sectors) == (jobs[j].track, jobs[j].first, jobs[j].sectors)
    requires forall k :: i < k < j ==> Spares(jobs[k], jobs[i])
    ensures var w, r, bytes := asked[served[i]], asked[served[j]], SECTOR_SIZE * Todo(jobs[i].sectors);
            && w.offset + bytes <= |held[served[i]]| && r.offset + bytes <= |after[j]|
            && after[j][r.offset..r.offset + bytes] == held[served[i]][w.offset..w.offset + bytes]
  {
    hide Effect, Spares;
    var mid := jobs[i + 1..j];
    assert forall x :: x in mid ==> Spares(x, jobs[i]);
    assert InTurn(mid, ds[i + 1..j + 1], before[i + 1..j], after[i + 1..j]);
    WriteThenRead(jobs[i], jobs[j], ds[i], before[i], after[i],
                  mid, ds[i + 1..j + 1], before[i + 1..j], after[i + 1..j],
                  ds[j + 1], before[j], after[j]);
  }
}
