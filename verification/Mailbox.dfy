/**
 The mailboxes of phase2/phase2.c: one table of boxes, one table of slots shared by all of them, and
 calls that scan the tables for free entries.  Each call is proved against MailSpec; the queues are
 sequences of slot numbers here, their links are the business of IntrusiveQueue.dfy.
 */
module Mailbox {
  import opened CTypes
  import opened Wrappers
  import opened MailSpec
  import opened MailRuns

  datatype Slot = Slot(inUse: bool, slotId: int, message: Message)

  datatype MailBox = MailBox(active: bool, totalSlots: int, slotSize: int,
                             queue: seq<int>, senders: seq<Sender>, receivers: seq<Receiver>)

  predicate IsActive(b: MailBox) {
    b.active
  }

  predicate IsInUse(s: Slot) {
    s.inUse
  }

  // ---------------------------------------------------------------------------------------------
  // Counting table entries

  ghost function Count<T>(s: seq<T>, f: T -> bool): nat {
    if s == [] then 0 else Count(s[1..], f) + if f(s[0]) then 1 else 0
  }

  lemma {:induction false} CountUpdate<T>(s: seq<T>, f: T -> bool, i: nat, x: T)
    requires i < |s|
    ensures Count(s[i := x], f) == Count(s, f) - (if f(s[i]) then 1 else 0) + (if f(x) then 1 else 0)
    decreases |s|
  {
    if i == 0 {
      assert s[0 := x][1..] == s[1..];
    } else {
      CountUpdate(s[1..], f, i - 1, x);
      assert s[i := x][1..] == s[1..][i - 1 := x];
    }
  }

  lemma {:induction false} CountFull<T>(s: seq<T>, f: T -> bool)
    ensures Count(s, f) <= |s|
    ensures Count(s, f) == |s| <==> forall i :: 0 <= i < |s| ==> f(s[i])
    decreases |s|
  {
    if s != [] {
      CountFull(s[1..], f);
      assert forall i :: 0 < i < |s| ==> s[i] == s[1..][i - 1];
    }
  }

  lemma {:induction false} CountNone<T>(s: seq<T>, f: T -> bool)
    requires forall i :: 0 <= i < |s| ==> !f(s[i])
    ensures Count(s, f) == 0
    decreases |s|
  {
    if s != [] {
      CountNone(s[1..], f);
    }
  }

  // ---------------------------------------------------------------------------------------------
  // One box over a slot table

  /** Box `b` owns the slots of its queue: each is in use and known by its own number. */
  ghost predicate BoxOk(box: MailBox, b: int, slots: seq<Slot>, owner: seq<int>)
    requires |slots| == |owner|
  {
    if box.active then
      && 0 <= box.totalSlots && 0 <= box.slotSize <= MAX_MESSAGE
      && (forall k {:trigger box.queue[k]} :: 0 <= k < |box.queue| ==>
            var id := box.queue[k];
            0 <= id < |slots| && slots[id].inUse && slots[id].slotId == id && owner[id] == b)
      && (forall i, j :: 0 <= i < j < |box.queue| ==> box.queue[i] != box.queue[j])
    else
      box.queue == []
  }

  ghost predicate InRange(queue: seq<int>, n: int) {
    forall k {:trigger queue[k]} :: 0 <= k < |queue| ==> 0 <= queue[k] < n
  }

  ghost function Queued(queue: seq<int>, slots: seq<Slot>): (q: seq<Message>)
    requires InRange(queue, |slots|)
    ensures |q| == |queue|
  {
    seq(|queue|, k requires 0 <= k < |queue| => slots[queue[k]].message)
  }

  /** The box as its users see it. */
  ghost function Seen(box: MailBox, slots: seq<Slot>): Option<Box>
    requires InRange(box.queue, |slots|)
  {
    if box.active then
      Some(Box(box.totalSlots, box.slotSize, Queued(box.queue, slots), box.senders, box.receivers))
    else None
  }

  /** A box does not depend on slots it does not own. */
  lemma OtherSlot(box: MailBox, b: int, slots: seq<Slot>, owner: seq<int>, id: nat, x: Slot, o: int)
    requires |slots| == |owner| && id < |slots| && BoxOk(box, b, slots, owner)
    requires owner[id] != b && o != b
    ensures BoxOk(box, b, slots[id := x], owner[id := o])
    ensures InRange(box.queue, |slots|) && Seen(box, slots[id := x]) == Seen(box, slots)
  {
    assert forall k {:trigger box.queue[k]} :: 0 <= k < |box.queue| ==> box.queue[k] != id;
    assert Queued(box.queue, slots[id := x]) == Queued(box.queue, slots);
  }

  lemma OkInRange(box: MailBox, b: int, slots: seq<Slot>, owner: seq<int>)
    requires |slots| == |owner| && BoxOk(box, b, slots, owner)
    ensures InRange(box.queue, |slots|)
  {
  }

  // ---------------------------------------------------------------------------------------------
  // The whole table of boxes

  /** Every box is in order, and a slot not in use belongs to no box. */
  ghost predicate AllOk(boxes: seq<MailBox>, slots: seq<Slot>, owner: seq<int>) {
    && |slots| == |owner|
    && (forall b {:trigger boxes[b]} :: 0 <= b < |boxes| ==> BoxOk(boxes[b], b, slots, owner))
    && (forall id {:trigger slots[id]} :: 0 <= id < |slots| && !slots[id].inUse ==> owner[id] == -1)
  }

  ghost function SeenAt(boxes: seq<MailBox>, slots: seq<Slot>, owner: seq<int>, b: int): Option<Box>
    requires AllOk(boxes, slots, owner) && 0 <= b < |boxes|
  {
    OkInRange(boxes[b], b, slots, owner);
    Seen(boxes[b], slots)
  }

  ghost function View(boxes: seq<MailBox>, slots: seq<Slot>, owner: seq<int>): (v: seq<Option<Box>>)
    requires AllOk(boxes, slots, owner)
    ensures |v| == |boxes|
  {
    seq(|boxes|, b requires 0 <= b < |boxes| => SeenAt(boxes, slots, owner, b))
  }

  /** A call that touches one box and one slot, the slot free or owned by that box. */
  lemma Touch(boxes: seq<MailBox>, slots: seq<Slot>, owner: seq<int>, b: int, box: MailBox, id: nat, x: Slot, o: int)
    requires AllOk(boxes, slots, owner) && 0 <= b < |boxes| && id < |slots|
    requires owner[id] in {b, -1} && o in {b, -1} && (!x.inUse ==> o == -1)
    requires BoxOk(box, b, slots[id := x], owner[id := o])
    ensures AllOk(boxes[b := box], slots[id := x], owner[id := o])
    ensures InRange(box.queue, |slots|)
    ensures View(boxes[b := box], slots[id := x], owner[id := o])
            == View(boxes, slots, owner)[b := Seen(box, slots[id := x])]
  {
    var boxes', slots', owner' := boxes[b := box], slots[id := x], owner[id := o];
    OkInRange(box, b, slots', owner');
    forall c {:trigger boxes'[c]} | 0 <= c < |boxes'| ensures BoxOk(boxes'[c], c, slots', owner') {
      if c != b { OtherSlot(boxes[c], c, slots, owner, id, x, o); }
    }
    assert AllOk(boxes', slots', owner');
    forall c | 0 <= c < |boxes| && c != b
      ensures SeenAt(boxes', slots', owner', c) == SeenAt(boxes, slots, owner, c)
    {
      OtherSlot(boxes[c], c, slots, owner, id, x, o);
    }
    assert View(boxes', slots', owner')[b] == Seen(box, slots');
  }

  /** A call that touches one box and no slot. */
  lemma TouchBox(boxes: seq<MailBox>, slots: seq<Slot>, owner: seq<int>, b: int, box: MailBox)
    requires AllOk(boxes, slots, owner) && 0 <= b < |boxes| && BoxOk(box, b, slots, owner)
    ensures AllOk(boxes[b := box], slots, owner) && InRange(box.queue, |slots|)
    ensures View(boxes[b := box], slots, owner) == View(boxes, slots, owner)[b := Seen(box, slots)]
  {
    OkInRange(box, b, slots, owner);
  }

  lemma Appended(box: MailBox, b: int, slots: seq<Slot>, owner: seq<int>, id: nat, m: Message)
    requires |slots| == |owner| && id < |slots| && BoxOk(box, b, slots, owner) && box.active
    requires !slots[id].inUse && InRange(box.queue, |slots|)
    ensures var box', slots', owner' := box.(queue := box.queue + [id]), slots[id := Slot(true, id, m)], owner[id := b];
            && BoxOk(box', b, slots', owner') && InRange(box'.queue, |slots'|)
            && Queued(box'.queue, slots') == Queued(box.queue, slots) + [m]
  {
    assert forall k {:trigger box.queue[k]} :: 0 <= k < |box.queue| ==> box.queue[k] != id;
  }

  /** The first slot leaves the queue, whether or not it is given back. */
  lemma Popped(box: MailBox, b: int, slots: seq<Slot>, owner: seq<int>, x: Slot)
    requires |slots| == |owner| && BoxOk(box, b, slots, owner) && box.active && box.queue != []
    requires InRange(box.queue, |slots|)
    ensures var id, box' := box.queue[0], box.(queue := box.queue[1..]);
            && BoxOk(box', b, slots[id := x], owner[id := -1]) && InRange(box'.queue, |slots|)
            && Queued(box'.queue, slots[id := x]) == Queued(box.queue, slots)[1..]
  {
    var id, rest := box.queue[0], box.queue[1..];
    assert forall k {:trigger rest[k]} :: 0 <= k < |rest| ==> rest[k] == box.queue[k + 1] && rest[k] != id;
    assert forall i, j :: 0 <= i < j < |rest| ==> rest[i] != rest[j];
  }

  // ---------------------------------------------------------------------------------------------

  class MailSystem {
    const boxes: array<MailBox>
    const slots: array<Slot>
    var numBoxes: int
    var numSlots: int
    var nextBox: int
    var nextSlot: int
    ghost var owner: seq<int>   // the box whose queue a slot is on, or -1

    ghost predicate Counters()
      reads this, boxes, slots
    {
      && boxes.Length == MAXMBOX && slots.Length == MAXSLOTS
      && numBoxes == Count(boxes[..], IsActive)
      && numSlots == Count(slots[..], IsInUse)
      && nextBox >= 0 && nextSlot >= 0
    }

    ghost predicate Valid()
      reads this, boxes, slots
    {
      Counters() && AllOk(boxes[..], slots[..], owner)
    }

    /** What every box looks like to its users; None for one that is not active. */
    ghost function Abs(): (v: seq<Option<Box>>)
      requires Valid()
      reads this, boxes, slots
      ensures |v| == MAXMBOX
    {
      View(boxes[..], slots[..], owner)
    }

    ghost function State(): System
      requires Valid()
      reads this, boxes, slots
    {
      System(Abs(), numSlots)
    }

    constructor ()
      ensures Valid() && fresh(boxes) && fresh(slots)
      ensures State() == Start()
    {
      boxes := new MailBox[MAXMBOX](_ => MailBox(false, -1, -1, [], [], []));
      slots := new Slot[MAXSLOTS](_ => Slot(false, -1, []));
      numBoxes, numSlots, nextBox, nextSlot := 0, 0, 0, 0;
      owner := seq(MAXSLOTS, _ => -1);
      new;
      CountNone(boxes[..], IsActive);
      CountNone(slots[..], IsInUse);
    }

    /** Finds a slot that is not in use and fills it.  There is one as long as the count says so. */
    method CreateSlot(m: Message) returns (id: nat)
      requires Counters() && numSlots < MAXSLOTS
      modifies this`numSlots, this`nextSlot, slots
      ensures Counters() && id < MAXSLOTS && !old(slots[id].inUse)
      ensures slots[..] == old(slots[..])[id := Slot(true, id, m)]
      ensures numSlots == old(numSlots) + 1
    {
      CountFull(slots[..], IsInUse);
      if nextSlot >= MAXSLOTS || slots[nextSlot].inUse {
        var i := 0;
        while i < MAXSLOTS
          invariant 0 <= i <= MAXSLOTS && nextSlot == old(nextSlot)
          invariant forall j :: 0 <= j < i ==> slots[j].inUse
        {
          if !slots[i].inUse {
            nextSlot := i;
            break;
          }
          i := i + 1;
        }
      }
      id := nextSlot;
      CountUpdate(slots[..], IsInUse, id, Slot(true, id, m));
      slots[id] := Slot(true, nextSlot, m);
      nextSlot := nextSlot + 1;
      numSlots := numSlots + 1;
    }

    /** Gives a slot back. */
    method InitSlot(id: nat)
      requires Counters() && id < MAXSLOTS && slots[id].inUse
      modifies this`numSlots, slots
      ensures Counters() && numSlots == old(numSlots) - 1
      ensures slots[..] == old(slots[..])[id := Slot(false, -1, old(slots[id].message))]
    {
      CountUpdate(slots[..], IsInUse, id, Slot(false, -1, slots[id].message));
      slots[id] := Slot(false, -1, slots[id].message);
      numSlots := numSlots - 1;
    }

    /** No slot is on two queues, or twice on one, and every slot on a queue is in use. */
    lemma NoSlotTwice(b: int, i: int, c: int, j: int)
      requires Valid() && 0 <= b < MAXMBOX && 0 <= c < MAXMBOX
      requires 0 <= i < |boxes[b].queue| && 0 <= j < |boxes[c].queue|
      ensures 0 <= boxes[b].queue[i] < MAXSLOTS && slots[boxes[b].queue[i]].inUse
      ensures boxes[b].queue[i] == boxes[c].queue[j] ==> b == c && i == j
    {
      assert BoxOk(boxes[..][b], b, slots[..], owner) && BoxOk(boxes[..][c], c, slots[..], owner);
      if b == c && i != j {
        assert boxes[b].queue[if i < j then i else j] != boxes[b].queue[if i < j then j else i];
      }
    }

    /** Replaces an entry of the box table. */
    method SetBox(b: int, box: MailBox)
      requires Counters() && 0 <= b < MAXMBOX && boxes[b].active == box.active
      modifies boxes
      ensures Counters() && boxes[..] == old(boxes[..])[b := box]
    {
      CountUpdate(boxes[..], IsActive, b, box);
      boxes[b] := box;
    }

    lemma BoxAt(b: int)
      requires Valid() && 0 <= b < MAXMBOX
      ensures |owner| == |slots[..]| && BoxOk(boxes[b], b, slots[..], owner) && InRange(boxes[b].queue, |slots[..]|)
      ensures Abs()[b] == Seen(boxes[b], slots[..])
    {
      OkInRange(boxes[b], b, slots[..], owner);
    }

    static lemma FreeSlot(bs: seq<MailBox>, ss: seq<Slot>, os: seq<int>, id: nat)
      requires AllOk(bs, ss, os) && id < |ss| && !ss[id].inUse
      ensures os[id] == -1
    {
    }

    /** createSlot and enqueue: a message joins the queue of box `b`. */
    method Enqueue(b: int, m: Message)
      requires Valid() && 0 <= b < MAXMBOX && boxes[b].active && numSlots < MAXSLOTS
      modifies this`numSlots, this`nextSlot, this`owner, boxes, slots
      ensures Valid() && numSlots == old(numSlots) + 1 && numBoxes == old(numBoxes)
      ensures old(Abs()[b]).Some?
      ensures Abs() == old(Abs())[b := Some(old(Abs()[b]).value.(queued := old(Abs()[b]).value.queued + [m]))]
    {
      hide AllOk, BoxOk, Count;
      ghost var bs, ss, os := boxes[..], slots[..], owner;
      BoxAt(b);
      var id := CreateSlot(m);
      FreeSlot(bs, ss, os, id);
      ghost var box := bs[b].(queue := bs[b].queue + [id]);
      Appended(bs[b], b, ss, os, id, m);
      Touch(bs, ss, os, b, box, id, Slot(true, id, m), b);
      SetBox(b, boxes[b].(queue := boxes[b].queue + [id]));
      owner := owner[id := b];
    }

    /** dequeue: the first slot leaves the queue of box `b`; it is not given back yet. */
    method Dequeue(b: int) returns (id: nat)
      requires Valid() && 0 <= b < MAXMBOX && boxes[b].active && boxes[b].queue != []
      modifies this`owner, boxes
      ensures Valid() && id < MAXSLOTS && slots[id].inUse && owner[id] == -1
      ensures old(Abs()[b]).Some? && old(Abs()[b]).value.queued != []
      ensures slots[id].message == old(Abs()[b]).value.queued[0]
      ensures Abs() == old(Abs())[b := Some(old(Abs()[b]).value.(queued := old(Abs()[b]).value.queued[1..]))]
    {
      hide AllOk, Count;
      ghost var bs, ss, os := boxes[..], slots[..], owner;
      BoxAt(b);
      id := boxes[b].queue[0];
      ghost var box := bs[b].(queue := bs[b].queue[1..]);
      Popped(bs[b], b, ss, os, ss[id]);
      Touch(bs, ss, os, b, box, id, ss[id], -1);
      assert ss[id := ss[id]] == ss;
      SetBox(b, boxes[b].(queue := boxes[b].queue[1..]));
      owner := owner[id := -1];
    }

    /** initSlot on a slot that is on no queue. */
    method Free(id: nat)
      requires Valid() && id < MAXSLOTS && slots[id].inUse && owner[id] == -1
      modifies this`numSlots, slots
      ensures Valid() && numSlots == old(numSlots) - 1
      ensures Abs() == old(Abs())
    {
      hide BoxOk, Count;
      ghost var bs, ss, os := boxes[..], slots[..], owner;
      ghost var x := Slot(false, -1, ss[id].message);
      OtherSlot(bs[0], 0, ss, os, id, x, -1);
      assert os[id := -1] == os && bs[0 := bs[0]] == bs;
      Touch(bs, ss, os, 0, bs[0], id, x, -1);
      InitSlot(id);
    }

    /** Replaces the queues of blocked processes of box `b`. */
    method SetBlocked(b: int, senders: seq<Sender>, receivers: seq<Receiver>)
      requires Valid() && 0 <= b < MAXMBOX && boxes[b].active
      modifies boxes
      ensures Valid()
      ensures old(Abs()[b]).Some?
      ensures Abs() == old(Abs())[b := Some(old(Abs()[b]).value.(senders := senders, receivers := receivers))]
    {
      hide AllOk, Count;
      ghost var bs, ss, os := boxes[..], slots[..], owner;
      BoxAt(b);
      ghost var box := bs[b].(senders := senders, receivers := receivers);
      TouchBox(bs, ss, os, b, box);
      SetBox(b, boxes[b].(senders := senders, receivers := receivers));
    }

    /** What the table entry of an active box says of it. */
    lemma Entry(b: int)
      requires Valid() && 0 <= b < MAXMBOX
      ensures Abs()[b].Some? <==> boxes[b].active
      ensures boxes[b].active ==>
                var box := Abs()[b].value;
                && box.slots == boxes[b].totalSlots && box.slotSize == boxes[b].slotSize
                && |box.queued| == |boxes[b].queue|
                && box.senders == boxes[b].senders && box.receivers == boxes[b].receivers
    {
      BoxAt(b);
    }

    /** Would this call be refused? */
    predicate Refused(b: int, size: int)
      requires boxes.Length == MAXMBOX
      reads boxes
    {
      b < 0 || b >= MAXMBOX || !boxes[b].active || boxes[b].slotSize < size || size < 0
    }

    /**
     MboxSend by process `pid`.  The call does to box `b` what MailSpec.Send says, and nothing to any
     other box.
     */
    method Send(b: int, pid: int, msg: seq<byte>, size: int) returns (out: Outcome, woken: seq<int>)
      requires Valid() && size <= |msg|
      modifies this, boxes, slots
      ensures Valid()
      ensures old(Refused(b, size)) ==> out == Return(-1) && woken == [] && State() == old(State())
      ensures size >= 0 ==> State() == Apply(old(State()), Sends(b, pid, msg[..size]))
      ensures !old(Refused(b, size)) ==>
                && Active(old(State()), b)
                && var r := MailSpec.Send(old(Abs()[b]).value, old(numSlots), pid, msg[..size]);
                out == r.outcome && woken == r.woken
    {
      hide AllOk, BoxOk, Count;
      woken := [];
      if b < 0 || b >= MAXMBOX {
        return Return(-1), [];
      }
      if !boxes[b].active || boxes[b].slotSize < size || size < 0 {
        return Return(-1), [];
      }
      Entry(b);
      ghost var was := Abs();
      if |boxes[b].receivers| > 0 && (|boxes[b].queue| < boxes[b].totalSlots || boxes[b].totalSlots == 0) {
        var receiver := boxes[b].receivers[0];
        SetBlocked(b, boxes[b].senders, boxes[b].receivers[1..]);
        var fits := receiver.hasBuffer && size <= receiver.size;
        return Return(if fits then 0 else -1), [receiver.pid];
      }
      if |boxes[b].queue| == boxes[b].totalSlots {
        SetBlocked(b, boxes[b].senders + [Sender(pid, msg[..size])], boxes[b].receivers);
        return Block, [];
      }
      if numSlots == MAXSLOTS {
        assert was[b := was[b]] == was;
        return Halt, [];
      }
      CountFull(slots[..], IsInUse);
      Enqueue(b, msg[..size]);
      return Return(0), [];
    }

    /** MboxCondSend: what MboxSend would do, unless that blocks or halts. */
    method CondSend(b: int, pid: int, msg: seq<byte>, size: int) returns (out: Outcome, woken: seq<int>)
      requires Valid() && size <= |msg|
      modifies this, boxes, slots
      ensures Valid()
      ensures old(Refused(b, size)) ==> out == Return(-1) && woken == [] && State() == old(State())
      ensures size >= 0 ==> State() == Apply(old(State()), CondSends(b, pid, msg[..size]))
      ensures !old(Refused(b, size)) ==>
                && Active(old(State()), b)
                && var r := MailSpec.Send(old(Abs()[b]).value, old(numSlots), pid, msg[..size]);
                if r.outcome.Return? then out == r.outcome && woken == r.woken
                else out == Return(-2) && woken == []
    {
      hide AllOk, BoxOk, Count;
      if b < 0 || b >= MAXMBOX {
        return Return(-1), [];
      }
      if !boxes[b].active || boxes[b].slotSize < size || size < 0 {
        return Return(-1), [];
      }
      Entry(b);
      if |boxes[b].receivers| > 0 && (|boxes[b].queue| < boxes[b].totalSlots || boxes[b].totalSlots == 0) {
        var receiver := boxes[b].receivers[0];
        SetBlocked(b, boxes[b].senders, boxes[b].receivers[1..]);
        var fits := receiver.hasBuffer && size <= receiver.size;
        return Return(if fits then 0 else -1), [receiver.pid];
      }
      if |boxes[b].queue| == boxes[b].totalSlots {
        return Return(-2), [];
      }
      if numSlots == MAXSLOTS {
        return Return(-2), [];
      }
      CountFull(slots[..], IsInUse);
      Enqueue(b, msg[..size]);
      return Return(0), [];
    }

    /** On a box without slots messages go from process to process, out of the one queue of the blocked. */
    method ReceiveDirect(b: int, who: Receiver) returns (out: Outcome, woken: seq<int>, data: Option<Message>)
      requires Valid() && 0 <= b < MAXMBOX && boxes[b].active && boxes[b].totalSlots == 0
      modifies boxes
      ensures Valid()
      ensures Active(old(State()), b)
      ensures var box := old(Abs()[b]).value;
              var r := MailSpec.Receive(box, numSlots, who);
              && State() == Updated(old(State()), b, r)
              && out == r.outcome && woken == r.woken && data == Received(box, who)
    {
      hide AllOk, BoxOk, Count;
      Entry(b);
      if |boxes[b].senders| > 0 {
        var other := boxes[b].senders[0];
        SetBlocked(b, boxes[b].senders[1..], boxes[b].receivers);
        var fits := who.hasBuffer && |other.message| <= who.size;
        out := Return(if fits then |other.message| else -1);
        data := if fits then Some(other.message) else None;
        woken := [other.pid];
      } else {
        SetBlocked(b, [Sender(who.pid, who.holds)], boxes[b].receivers);
        out, woken, data := Block, [], None;
      }
    }

    method ReceiveSlot(b: int, who: Receiver) returns (out: Outcome, woken: seq<int>, data: Option<Message>)
      requires Valid() && 0 <= b < MAXMBOX && boxes[b].active && boxes[b].totalSlots != 0
      modifies this`numSlots, this`nextSlot, this`owner, boxes, slots
      ensures Valid()
      ensures Active(old(State()), b)
      ensures var box := old(Abs()[b]).value;
              var r := MailSpec.Receive(box, old(numSlots), who);
              && State() == Updated(old(State()), b, r)
              && out == r.outcome && woken == r.woken && data == Received(box, who)
    {
      hide AllOk, BoxOk, Count;
      woken, data := [], None;
      Entry(b);
      ghost var was := Abs();
      if boxes[b].slotSize == 0 {
        SetBlocked(b, boxes[b].senders, boxes[b].receivers + [who]);
        return Block, [], None;
      }
      if boxes[b].queue == [] {
        assert was[b := was[b]] == was;
        return Return(-1), [], None;
      }
      CountFull(slots[..], IsInUse);
      var id := Dequeue(b);
      if who.size < |slots[id].message| {
        return Return(-1), [], None;
      }
      data := Some(slots[id].message);
      out := Return(|slots[id].message|);
      Free(id);
      Entry(b);
      if |boxes[b].senders| > 0 {
        var sender := boxes[b].senders[0];
        SetBlocked(b, boxes[b].senders[1..], boxes[b].receivers);
        Entry(b);
        Enqueue(b, sender.message);
        woken := [sender.pid];
      }
    }

    /**
     MboxReceive by `who`.  The refill from a blocked sender does not look at the number of slots in use:
     the slot just given back makes room.
     */
    method Receive(b: int, who: Receiver) returns (out: Outcome, woken: seq<int>, data: Option<Message>)
      requires Valid()
      modifies this, boxes, slots
      ensures Valid() && State() == Apply(old(State()), Receives(b, who))
      ensures !Active(old(State()), b) ==> out == Return(-1) && woken == [] && data == None
      ensures Active(old(State()), b) ==>
                && var r := MailSpec.Receive(old(Abs()[b]).value, old(numSlots), who);
                && out == r.outcome && woken == r.woken && data == Received(old(Abs()[b]).value, who)
    {
      hide AllOk, BoxOk, Count;
      woken, data := [], None;
      if b < 0 || b >= MAXMBOX {
        return Return(-1), [], None;
      }
      Entry(b);
      if !boxes[b].active {
        return Return(-1), [], None;
      }
      if boxes[b].totalSlots == 0 {
        out, woken, data := ReceiveDirect(b, who);
      } else {
        out, woken, data := ReceiveSlot(b, who);
      }
    }

    lemma FullTable()
      requires Valid()
      ensures numBoxes <= MAXMBOX
      ensures numBoxes == MAXMBOX <==> forall c :: 0 <= c < MAXMBOX ==> Abs()[c].Some?
    {
      hide AllOk, BoxOk, Count;
      CountFull(boxes[..], IsActive);
      forall c | 0 <= c < MAXMBOX ensures Abs()[c].Some? <==> boxes[..][c].active {
        Entry(c);
      }
    }

    /** The scan for a box that is not active. */
    method PickBox() returns (b: nat)
      requires Counters() && numBoxes < MAXMBOX
      modifies this`nextBox
      ensures Counters() && b == nextBox < MAXMBOX && !boxes[b].active
    {
      CountFull(boxes[..], IsActive);
      if nextBox >= MAXMBOX || boxes[nextBox].active {
        var i := 0;
        while i < MAXMBOX
          invariant 0 <= i <= MAXMBOX && nextBox == old(nextBox)
          invariant forall j :: 0 <= j < i ==> boxes[j].active
        {
          if !boxes[i].active {
            nextBox := i;
            break;
          }
          i := i + 1;
        }
      }
      b := nextBox;
    }

    /**
     MboxCreate: with legal arguments it fails only when every box is active; otherwise it activates
     one that was not.
     */
    method Create(slotCount: int, slotSize: int) returns (b: int)
      requires Valid()
      modifies this`numBoxes, this`nextBox, boxes
      ensures Valid()
      ensures b == -1 <==> slotCount < 0 || slotSize < 0 || slotSize > MAX_MESSAGE
                           || forall c :: 0 <= c < MAXMBOX ==> old(Abs()[c]).Some?
      ensures b == -1 ==> State() == old(State())
      ensures b != -1 ==>
                && 0 <= b < MAXMBOX && old(Abs()[b]) == None && numBoxes == old(numBoxes) + 1
                && State() == Apply(old(State()), Creates(b, slotCount, slotSize))
    {
      hide AllOk, Count;
      FullTable();
      if numBoxes == MAXMBOX || slotCount < 0 || slotSize < 0 || slotSize > MAX_MESSAGE {
        return -1;
      }
      b := PickBox();
      ghost var box := MailBox(true, slotCount, slotSize, [], [], []);
      BoxAt(b);
      TouchBox(boxes[..], slots[..], owner, b, box);
      CountUpdate(boxes[..], IsActive, b, box);
      boxes[b] := MailBox(true, slotCount, slotSize, [], [], []);
      nextBox := nextBox + 1;
      numBoxes := numBoxes + 1;
    }

    /** The first loop of MboxRelease: every slot on the queue is given back. */
    method EmptyQueue(b: int)
      requires Valid() && 0 <= b < MAXMBOX && boxes[b].active
      modifies this`numSlots, this`owner, boxes, slots
      ensures Valid() && boxes[b].active && boxes[b].queue == []
      ensures boxes[b].senders == old(boxes[b].senders) && boxes[b].receivers == old(boxes[b].receivers)
      ensures old(Abs()[b]).Some? && numSlots == old(numSlots) - |old(Abs()[b]).value.queued|
      ensures Abs() == old(Abs())[b := Some(old(Abs()[b]).value.(queued := []))]
    {
      hide AllOk, Count;
      Entry(b);
      ghost var was := Abs();
      ghost var k := 0;
      assert was == was[b := Some(was[b].value.(queued := was[b].value.queued[0..]))];
      while |boxes[b].queue| > 0
        invariant Valid() && boxes[b].active
        invariant boxes[b].senders == old(boxes[b].senders) && boxes[b].receivers == old(boxes[b].receivers)
        invariant 0 <= k <= |was[b].value.queued| && |boxes[b].queue| == |was[b].value.queued| - k
        invariant numSlots == old(numSlots) - k
        invariant Abs() == was[b := Some(was[b].value.(queued := was[b].value.queued[k..]))]
        decreases |boxes[b].queue|
      {
        var id := Dequeue(b);
        Free(id);
        k := k + 1;
        Entry(b);
      }
    }

    /** initBox, on a box whose queue is empty. */
    method InitBox(b: int)
      requires Valid() && 0 <= b < MAXMBOX && boxes[b].active && boxes[b].queue == []
      modifies this`numBoxes, boxes
      ensures Valid() && numBoxes == old(numBoxes) - 1
      ensures boxes[b] == old(boxes[b]).(active := false, totalSlots := -1, slotSize := -1)
      ensures Abs() == old(Abs())[b := None]
    {
      hide AllOk, Count;
      ghost var box := boxes[b].(active := false, totalSlots := -1, slotSize := -1);
      BoxAt(b);
      TouchBox(boxes[..], slots[..], owner, b, box);
      CountUpdate(boxes[..], IsActive, b, box);
      boxes[b] := boxes[b].(active := false, totalSlots := -1, slotSize := -1);
      numBoxes := numBoxes - 1;
    }

    /** Replaces the queues of blocked processes of a box that is not active any more. */
    method SetLeftover(b: int, senders: seq<Sender>, receivers: seq<Receiver>)
      requires Valid() && 0 <= b < MAXMBOX && !boxes[b].active
      modifies boxes
      ensures Valid() && Abs() == old(Abs())
      ensures boxes[b] == old(boxes[b]).(senders := senders, receivers := receivers)
    {
      hide AllOk, Count;
      BoxAt(b);
      TouchBox(boxes[..], slots[..], owner, b, boxes[b].(senders := senders, receivers := receivers));
      ghost var was := Abs();
      assert was[b := None] == was;
      SetBox(b, boxes[b].(senders := senders, receivers := receivers));
    }

    method WakeSenders(b: int) returns (woken: seq<int>)
      requires Valid() && 0 <= b < MAXMBOX && !boxes[b].active
      modifies boxes
      ensures Valid() && Abs() == old(Abs()) && !boxes[b].active
      ensures boxes[b].senders == [] && boxes[b].receivers == old(boxes[b].receivers)
      ensures woken == SenderPids(old(boxes[b].senders))
    {
      hide AllOk, BoxOk, Count;
      woken := [];
      while |boxes[b].senders| > 0
        invariant Valid() && Abs() == old(Abs()) && !boxes[b].active
        invariant boxes[b].receivers == old(boxes[b].receivers)
        invariant woken + SenderPids(boxes[b].senders) == SenderPids(old(boxes[b].senders))
        decreases |boxes[b].senders|
      {
        ghost var left := boxes[b].senders;
        assert SenderPids(left) == [left[0].pid] + SenderPids(left[1..]);
        woken := woken + [boxes[b].senders[0].pid];
        SetLeftover(b, boxes[b].senders[1..], boxes[b].receivers);
      }
    }

    method WakeReceivers(b: int) returns (woken: seq<int>)
      requires Valid() && 0 <= b < MAXMBOX && !boxes[b].active
      modifies boxes
      ensures Valid() && Abs() == old(Abs())
      ensures boxes[b].senders == old(boxes[b].senders) && boxes[b].receivers == []
      ensures woken == ReceiverPids(old(boxes[b].receivers))
    {
      hide AllOk, BoxOk, Count;
      woken := [];
      while |boxes[b].receivers| > 0
        invariant Valid() && Abs() == old(Abs()) && !boxes[b].active
        invariant boxes[b].senders == old(boxes[b].senders)
        invariant woken + ReceiverPids(boxes[b].receivers) == ReceiverPids(old(boxes[b].receivers))
        decreases |boxes[b].receivers|
      {
        ghost var left := boxes[b].receivers;
        assert ReceiverPids(left) == [left[0].pid] + ReceiverPids(left[1..]);
        woken := woken + [boxes[b].receivers[0].pid];
        SetLeftover(b, boxes[b].senders, boxes[b].receivers[1..]);
      }
    }

    /** The last two loops of MboxRelease. */
    method WakeAll(b: int) returns (woken: seq<int>)
      requires Valid() && 0 <= b < MAXMBOX && !boxes[b].active
      modifies boxes
      ensures Valid() && Abs() == old(Abs())
      ensures boxes[b].senders == [] && boxes[b].receivers == []
      ensures woken == SenderPids(old(boxes[b].senders)) + ReceiverPids(old(boxes[b].receivers))
    {
      woken := WakeSenders(b);
      var more := WakeReceivers(b);
      woken := woken + more;
    }

    /**
     MboxRelease: the box is gone, exactly the slots of its queue are free again, and everyone blocked
     on it is woken once, senders first, in the order in which they blocked.
     */
    method Release(b: int) returns (code: int, woken: seq<int>)
      requires Valid()
      modifies this`numBoxes, this`numSlots, this`owner, boxes, slots
      ensures Valid()
      ensures State() == Apply(old(State()), Releases(b))
      ensures code == -1 <==> !Active(old(State()), b)
      ensures code == -1 ==> woken == []
      ensures code != -1 ==>
                && code == 0 && numBoxes == old(numBoxes) - 1
                && var box := old(Abs()[b]).value;
                && woken == SenderPids(box.senders) + ReceiverPids(box.receivers)
                && boxes[b].senders == [] && boxes[b].receivers == []
    {
      hide AllOk, BoxOk, Count;
      if b < 0 || b >= MAXMBOX {
        return -1, [];
      }
      Entry(b);
      if !boxes[b].active {
        return -1, [];
      }
      EmptyQueue(b);
      InitBox(b);
      woken := WakeAll(b);
      code := 0;
    }
  }
}
