/**
 Who is blocked on a mailbox and who is woken, over runs of calls on it, and what the calls return.
 */
module MailLines {
  import opened Sequences
  import opened Wrappers
  import opened MailSpec

  // ---------------------------------------------------------------------------------------------
  // The two lines

  /** A blocked call puts its process into the line of the senders; so does a receive without slots. */
  function BlockedSending(b: Box, c: Call): seq<int> {
    if Step(b, c).outcome != Block then []
    else if c.Put? then [c.pid]
    else if b.slots == 0 then [c.r.pid]
    else []
  }

  function BlockedReceiving(b: Box, c: Call): seq<int> {
    if Step(b, c).outcome == Block && c.Get? && b.slots != 0 then [c.r.pid] else []
  }

  /** Receives wake from the line of the senders, sends from that of the receivers. */
  function WokenSending(b: Box, c: Call): seq<int> {
    if c.Get? then Step(b, c).woken else []
  }

  function WokenReceiving(b: Box, c: Call): seq<int> {
    if c.Put? then Step(b, c).woken else []
  }

  /** What a run adds up to, call by call. */
  function Along(b: Box, cs: seq<Call>, f: (Box, Call) -> seq<int>): seq<int>
    decreases |cs|
  {
    if cs == [] then [] else f(b, cs[0]) + Along(Step(b, cs[0]).box, cs[1..], f)
  }

  lemma PidsAdd(senders: seq<Sender>, s: Sender)
    ensures SenderPids(senders + [s]) == SenderPids(senders) + [s.pid]
  {
  }

  lemma PidsTail(senders: seq<Sender>)
    requires senders != []
    ensures SenderPids(senders) == [senders[0].pid] + SenderPids(senders[1..])
  {
  }

  lemma SendersStep(b: Box, c: Call)
    ensures SenderPids(b.senders) + BlockedSending(b, c)
            == WokenSending(b, c) + SenderPids(Step(b, c).box.senders)
  {
    hide SenderPids;
    if c.Put? {
      PidsAdd(b.senders, Sender(c.pid, c.m));
    } else {
      PidsAdd([], Sender(c.r.pid, c.r.holds));
      assert [] + [Sender(c.r.pid, c.r.holds)] == [Sender(c.r.pid, c.r.holds)];
    }
    if b.senders != [] {
      PidsTail(b.senders);
    }
  }

  lemma ReceiversStep(b: Box, c: Call)
    ensures ReceiverPids(b.receivers) + BlockedReceiving(b, c)
            == WokenReceiving(b, c) + ReceiverPids(Step(b, c).box.receivers)
  {
    if c.Get? {
      assert ReceiverPids(b.receivers + [c.r]) == ReceiverPids(b.receivers) + [c.r.pid];
    } else if b.receivers != [] {
      assert ReceiverPids(b.receivers) == [b.receivers[0].pid] + ReceiverPids(b.receivers[1..]);
    }
  }

  /**
   Over every run the senders blocked at first, followed by those that blocked, are the senders woken
   followed by those still blocked.
   */
  lemma {:induction false} SendersInOrder(b: Box, cs: seq<Call>)
    ensures SenderPids(b.senders) + Along(b, cs, BlockedSending)
            == Along(b, cs, WokenSending) + SenderPids(Run(b, cs).senders)
    decreases |cs|
  {
    if cs != [] {
      hide Step, SenderPids, BlockedSending, WokenSending;
      var b' := Step(b, cs[0]).box;
      SendersStep(b, cs[0]);
      SendersInOrder(b', cs[1..]);
      Chain(SenderPids(b.senders), BlockedSending(b, cs[0]), WokenSending(b, cs[0]), SenderPids(b'.senders),
            Along(b', cs[1..], BlockedSending), Along(b', cs[1..], WokenSending), SenderPids(Run(b, cs).senders));
    }
  }

  /** And so it is with the receivers. */
  lemma {:induction false} ReceiversInOrder(b: Box, cs: seq<Call>)
    ensures ReceiverPids(b.receivers) + Along(b, cs, BlockedReceiving)
            == Along(b, cs, WokenReceiving) + ReceiverPids(Run(b, cs).receivers)
    decreases |cs|
  {
    if cs != [] {
      hide Step, ReceiverPids, BlockedReceiving, WokenReceiving;
      var b' := Step(b, cs[0]).box;
      ReceiversStep(b, cs[0]);
      ReceiversInOrder(b', cs[1..]);
      Chain(ReceiverPids(b.receivers), BlockedReceiving(b, cs[0]), WokenReceiving(b, cs[0]),
            ReceiverPids(b'.receivers), Along(b', cs[1..], BlockedReceiving),
            Along(b', cs[1..], WokenReceiving), ReceiverPids(Run(b, cs).receivers));
    }
  }

  /**
   A receive wakes somebody exactly if it takes a message out of a slot or out of a sender's hands while a
   sender is blocked.  It is the first one, whose message goes into the slot or to the receiver, if this has room.
   */
  lemma WakesItsSender(b: Box, used: int, r: Receiver)
    ensures var x := Receive(b, used, r);
            && (x.woken != [] <==> b.senders != [] && (b.slots == 0 || Received(b, r).Some?))
            && (x.woken != [] ==>
                  var first := b.senders[0];
                  && x.woken == [first.pid] && b.senders == [first] + x.box.senders
                  && if b.slots != 0 then x.box.queued == b.queued[1..] + [first.message]
                     else Received(b, r) == if Fits(r, first.message) then Some(first.message) else None)
  {
  }

  // ---------------------------------------------------------------------------------------------
  // What the calls return

  /** A receive returns the size of the message it delivers, which fits the buffer, and otherwise -1 or not at all. */
  lemma ReturnsSize(b: Box, used: int, r: Receiver)
    ensures match Received(b, r)
            case Some(m) => Receive(b, used, r).outcome == Return(|m|) && |m| <= r.size
            case None => Receive(b, used, r).outcome in {Return(-1), Block}
    ensures b.slots == 0 && b.senders != [] ==>
              (Received(b, r).Some? <==> r.hasBuffer && |b.senders[0].message| <= r.size)
  {
  }

  /** A send to a waiting receiver returns 0 exactly if this has a buffer with room, and wakes it in any case. */
  lemma HandsOver(b: Box, used: int, pid: int, m: Message)
    requires Hands(b, m)
    ensures var x, r := Send(b, used, pid, m), b.receivers[0];
            x.outcome == (if r.hasBuffer && |m| <= r.size then Return(0) else Return(-1)) && x.woken == [r.pid]
    ensures Contents(Send(b, used, pid, m).box) == Contents(b)
  {
  }

  lemma {:induction false} RunThen(b: Box, cs: seq<Call>, c: Call)
    ensures Run(b, cs + [c]) == Step(Run(b, cs), c).box
    decreases |cs|
  {
    var all := cs + [c];
    if cs == [] {
      assert all == [c] && all[1..] == [];
    } else {
      assert all[0] == cs[0] && all[1..] == cs[1..] + [c];
      RunThen(Step(b, cs[0]).box, cs[1..], c);
    }
  }

  /** Legal sends, each while a slot is free somewhere. */
  predicate Sending(cs: seq<Call>, slotSize: int) {
    forall i :: 0 <= i < |cs| ==> cs[i].Put? && |cs[i].m| <= slotSize && cs[i].used != MAXSLOTS
  }

  function New(slots: nat, slotSize: nat): Box {
    Box(slots, slotSize, [], [], [])
  }

  lemma {:induction false} FillsUp(slots: nat, slotSize: nat, cs: seq<Call>)
    requires Sending(cs, slotSize)
    ensures var b, n := Run(New(slots, slotSize), cs), |cs|;
            && b.slots == slots && b.slotSize == slotSize && b.receivers == []
            && |b.queued| == (if n < slots then n else slots) && |b.senders| == n - |b.queued|
    decreases |cs|
  {
    if cs != [] {
      var k := |cs| - 1;
      assert cs == cs[..k] + [cs[k]];
      FillsUp(slots, slotSize, cs[..k]);
      RunThen(New(slots, slotSize), cs[..k], cs[k]);
    }
  }

  /**
   A box takes as many messages as it has slots, each up to the size of a slot, and then blocks the sender;
   it refuses larger ones.  Other boxes show only in the numbers of slots in use.
   */
  lemma HoldsItsSlots(slots: nat, slotSize: nat, cs: seq<Call>, used: int, pid: int, m: Message)
    requires Sending(cs, slotSize) && used != MAXSLOTS
    ensures Send(Run(New(slots, slotSize), cs), used, pid, m).outcome ==
            if |m| > slotSize then Return(-1) else if |cs| < slots then Return(0) else Block
  {
    FillsUp(slots, slotSize, cs);
  }
}
