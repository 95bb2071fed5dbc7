/**
 What a mailbox is for its users: a queue of messages, the first `slots` of which sit in slots while
 the others are still in the hands of blocked senders.  Mailbox.dfy proves that the tables of
 phase2/phase2.c behave like this; here are the laws, over all runs.
 */
module MailSpec {
  import opened CTypes
  import opened Sequences
  import opened Wrappers

  const MAXMBOX := 2000
  const MAXSLOTS := 2500
  const MAX_MESSAGE := 150

  type Message = seq<byte>

  datatype Sender = Sender(pid: int, message: Message)

  /** A receiving process, with the size of its buffer, if it has one, and the bytes this holds so far. */
  datatype Receiver = Receiver(pid: int, hasBuffer: bool, size: int, holds: Message)

  datatype Box = Box(slots: int, slotSize: int, queued: seq<Message>, senders: seq<Sender>, receivers: seq<Receiver>)

  /** A call returns a code, or blocks the caller, or halts the machine. */
  datatype Outcome = Return(code: int) | Block | Halt

  /** The result of a call: the box, the slots in use anywhere, and who was woken. */
  datatype Result = Result(box: Box, used: int, outcome: Outcome, woken: seq<int>)

  function Messages(s: seq<Sender>): seq<Message> {
    seq(|s|, i requires 0 <= i < |s| => s[i].message)
  }

  function SenderPids(s: seq<Sender>): seq<int> {
    seq(|s|, i requires 0 <= i < |s| => s[i].pid)
  }

  function ReceiverPids(s: seq<Receiver>): seq<int> {
    seq(|s|, i requires 0 <= i < |s| => s[i].pid)
  }

  /** All messages accepted and not yet received, in the order in which they are to be received. */
  function Contents(b: Box): seq<Message> {
    b.queued + Messages(b.senders)
  }

  /** Senders are blocked only behind a full box. */
  predicate Ordered(b: Box) {
    b.senders != [] ==> |b.queued| == b.slots
  }

  predicate Blank(s: seq<Message>) {
    forall i :: 0 <= i < |s| ==> s[i] == []
  }

  /** What is true of every box ever (MailRuns.ProperOverRuns). */
  predicate Proper(b: Box) {
    && |b.queued| <= b.slots && 0 <= b.slotSize
    && (b.receivers != [] ==> b.slots > 0 && b.slotSize == 0)
    && (b.slots > 0 && b.slotSize == 0 ==> Blank(Contents(b)))
  }

  // ---------------------------------------------------------------------------------------------
  // The calls, on a box that exists

  predicate Fits(r: Receiver, m: Message) {
    r.hasBuffer && |m| <= r.size
  }

  /** A legal message goes straight to a blocked receiver. */
  predicate Hands(b: Box, m: Message) {
    |m| <= b.slotSize && b.receivers != [] && (|b.queued| < b.slots || b.slots == 0)
  }

  function Send(b: Box, used: int, pid: int, m: Message): Result {
    if b.slotSize < |m| then
      Result(b, used, Return(-1), [])
    else if Hands(b, m) then
      var r := b.receivers[0];
      Result(b.(receivers := b.receivers[1..]), used,
             Return(if Fits(r, m) then 0 else -1), [r.pid])
    else if |b.queued| == b.slots then
      Result(b.(senders := b.senders + [Sender(pid, m)]), used, Block, [])
    else if used == MAXSLOTS then
      Result(b, used, Halt, [])
    else
      Result(b.(queued := b.queued + [m]), used + 1, Return(0), [])
  }

  /**
   The message is the head of the queue, or, on a box without slots, what the first blocked process
   brought; see `Received`.  On such a box a receiver that finds nobody joins the blocked senders.
   */
  function Receive(b: Box, used: int, r: Receiver): Result {
    if b.slots == 0 && b.senders != [] then
      var m := b.senders[0].message;
      Result(b.(senders := b.senders[1..]), used, Return(if Fits(r, m) then |m| else -1), [b.senders[0].pid])
    else if b.slots == 0 then
      Result(b.(senders := [Sender(r.pid, r.holds)]), used, Block, [])
    else if b.slotSize == 0 then
      Result(b.(receivers := b.receivers + [r]), used, Block, [])
    else if b.queued == [] then
      Result(b, used, Return(-1), [])
    else if r.size < |b.queued[0]| then
      Result(b.(queued := b.queued[1..]), used, Return(-1), [])
    else if b.senders == [] then
      Result(b.(queued := b.queued[1..]), used - 1, Return(|b.queued[0]|), [])
    else
      Result(b.(queued := b.queued[1..] + [b.senders[0].message], senders := b.senders[1..]),
             used, Return(|b.queued[0]|), [b.senders[0].pid])
  }

  /** The message a receive copies to its caller, if any. */
  function Received(b: Box, r: Receiver): Option<Message> {
    if b.slots == 0 then
      if b.senders != [] && Fits(r, b.senders[0].message) then Some(b.senders[0].message) else None
    else if b.slotSize != 0 && b.queued != [] && |b.queued[0]| <= r.size then Some(b.queued[0]) else None
  }

  /** The buffer is too small for the message at the head of the queue. */
  predicate Short(b: Box, r: Receiver) {
    b.slots != 0 && b.slotSize != 0 && b.queued != [] && r.size < |b.queued[0]|
  }

  /** There are no slots, and the message of the first blocked process does not fit. */
  predicate Missed(b: Box, r: Receiver) {
    b.slots == 0 && b.senders != [] && !Fits(r, b.senders[0].message)
  }

  /** There are no slots, and nobody is blocked. */
  predicate Joins(b: Box, r: Receiver) {
    b.slots == 0 && b.senders == []
  }

  // ---------------------------------------------------------------------------------------------
  // One call

  lemma MessagesAdd(senders: seq<Sender>, pid: int, m: Message)
    ensures Messages(senders + [Sender(pid, m)]) == Messages(senders) + [m]
  {
  }

  /** A receive takes the head of the contents; if this does not fit, it is lost.  One that joins adds to them. */
  lemma ReceiveTakesHead(b: Box, used: int, r: Receiver)
    requires Proper(b)
    ensures var b' := Receive(b, used, r).box;
            match Received(b, r)
            case Some(m) => Contents(b) == [m] + Contents(b')
            case None =>
              if Short(b, r) || Missed(b, r) then Contents(b) == [Contents(b)[0]] + Contents(b')
              else Contents(b') == Contents(b) + if Joins(b, r) then [r.holds] else []
  {
    if b.senders != [] {
      assert Messages(b.senders) == [b.senders[0].message] + Messages(b.senders[1..]);
    }
    if b.queued != [] {
      assert b.queued == [b.queued[0]] + b.queued[1..];
    }
  }

  lemma BlankConcat(s: seq<Message>, t: seq<Message>)
    ensures Blank(s + t) <==> Blank(s) && Blank(t)
  {
    assert forall i :: 0 <= i < |s| ==> (s + t)[i] == s[i];
    assert forall i :: 0 <= i < |t| ==> (s + t)[|s| + i] == t[i];
  }

  lemma BlankSwap(s: seq<Message>, m: Message, t: seq<Message>)
    requires Blank(s + t) && m == []
    ensures s + [m] + t == s + t + [m] && [m] + s == s + [m]
  {
    BlankConcat(s, t);
  }

  /** A send appends to the contents, unless a receiver is waiting, if senders are blocked only behind a full box. */
  lemma SendAppends(b: Box, used: int, pid: int, m: Message)
    requires Proper(b) && (b.senders == [] || |b.queued| == b.slots)
    ensures var r := Send(b, used, pid, m);
            Contents(r.box) ==
              if r.outcome in {Return(0), Block} && !Hands(b, m) then Contents(b) + [m] else Contents(b)
  {
    MessagesAdd(b.senders, pid, m);
  }

  /** Otherwise some message goes ahead of the blocked senders. */
  lemma SendOvertakes(b: Box, used: int, pid: int)
    requires Proper(b) && used != MAXSLOTS && b.slotSize > 0 && b.senders != [] && |b.queued| != b.slots
    ensures exists m :: |m| <= b.slotSize && Contents(Send(b, used, pid, m).box) != Contents(b) + [m]
  {
    var m: Message := if b.senders[0].message == [] then [0] else [];
    var ahead := Contents(Send(b, used, pid, m).box);
    assert ahead == b.queued + [m] + Messages(b.senders);
    assert ahead[|b.queued|] == m;
    assert (Contents(b) + [m])[|b.queued|] == b.senders[0].message;
  }

  /** Where messages have no bytes, only a waiting receiver makes a difference. */
  lemma BlankAppends(b: Box, used: int, pid: int)
    requires Proper(b) && used != MAXSLOTS && b.slotSize == 0 && |b.queued| != b.slots
    ensures Contents(Send(b, used, pid, []).box) == Contents(b) + [[]] <==> b.receivers == []
  {
    if b.receivers == [] {
      BlankSwap(b.queued, [], Messages(b.senders));
    }
  }

  /**
   Every send appends exactly while senders, or receivers if there are no bytes, are blocked only behind
   a full box.
   */
  lemma AppendsExactlyWhen(b: Box, used: int, pid: int)
    requires Proper(b) && used != MAXSLOTS
    ensures (forall m :: |m| <= b.slotSize ==> Contents(Send(b, used, pid, m).box) == Contents(b) + [m])
            <==> (|b.queued| == b.slots || if b.slotSize == 0 then b.receivers == [] else b.senders == [])
  {
    if |b.queued| != b.slots && b.slotSize == 0 {
      BlankAppends(b, used, pid);
      var none: Message := [];
      forall m | |m| <= b.slotSize && b.receivers == []
        ensures Contents(Send(b, used, pid, m).box) == Contents(b) + [m]
      {
        assert m == none;
      }
      if b.receivers != [] {
        assert |none| <= b.slotSize && Contents(Send(b, used, pid, none).box) != Contents(b) + [none];
      }
    } else if b.senders == [] || |b.queued| == b.slots {
      forall m | |m| <= b.slotSize ensures Contents(Send(b, used, pid, m).box) == Contents(b) + [m] {
        SendAppends(b, used, pid, m);
      }
    } else {
      SendOvertakes(b, used, pid);
    }
  }

  lemma ProperKept(b: Box, used: int, pid: int, m: Message, r: Receiver)
    requires Proper(b)
    ensures Proper(Send(b, used, pid, m).box) && Proper(Receive(b, used, r).box)
  {
    var senders := Messages(b.senders);
    BlankConcat(b.queued, senders);
    BlankConcat(b.queued + [m], senders);
    BlankConcat(b.queued, [m]);
    BlankConcat(b.queued, senders + [m]);
    BlankConcat(senders, [m]);
    MessagesAdd(b.senders, pid, m);
  }

  /** Only a receive with too small a buffer, while senders are blocked, upsets the order. */
  lemma OrderedKept(b: Box, used: int, pid: int, m: Message, r: Receiver)
    requires Proper(b) && Ordered(b)
    ensures Ordered(Send(b, used, pid, m).box)
    ensures Ordered(Receive(b, used, r).box) <==> !(Short(b, r) && b.senders != [])
  {
  }

  // ---------------------------------------------------------------------------------------------
  // Runs of calls on one box; what other boxes do shows only in the number of slots in use

  datatype Call = Put(used: int, pid: int, m: Message) | Get(used: int, r: Receiver)

  function Step(b: Box, c: Call): Result {
    match c
    case Put(used, pid, m) => Send(b, used, pid, m)
    case Get(used, r) => Receive(b, used, r)
  }

  function Run(b: Box, cs: seq<Call>): Box
    decreases |cs|
  {
    if cs == [] then b else Run(Step(b, cs[0]).box, cs[1..])
  }

  function AcceptedBy(b: Box, c: Call): seq<Message> {
    if c.Put? && Step(b, c).outcome in {Return(0), Block} then [c.m]
    else if c.Get? && Joins(b, c.r) then [c.r.holds]
    else []
  }

  function DeliveredBy(b: Box, c: Call): seq<Message> {
    if c.Get? && Received(b, c.r).Some? then [Received(b, c.r).value]
    else if c.Put? && Hands(b, c.m) && Fits(b.receivers[0], c.m) then [c.m]
    else []
  }

  function LostBy(b: Box, c: Call): seq<Message> {
    if c.Get? && Short(b, c.r) then [b.queued[0]]
    else if c.Get? && Missed(b, c.r) then [b.senders[0].message]
    else []
  }

  /** The messages accepted along a run, blocked processes' included, in the order of the calls. */
  function Accepted(b: Box, cs: seq<Call>): seq<Message>
    decreases |cs|
  {
    if cs == [] then [] else AcceptedBy(b, cs[0]) + Accepted(Step(b, cs[0]).box, cs[1..])
  }

  function Delivered(b: Box, cs: seq<Call>): seq<Message>
    decreases |cs|
  {
    if cs == [] then [] else DeliveredBy(b, cs[0]) + Delivered(Step(b, cs[0]).box, cs[1..])
  }

  function Lost(b: Box, cs: seq<Call>): seq<Message>
    decreases |cs|
  {
    if cs == [] then [] else LostBy(b, cs[0]) + Lost(Step(b, cs[0]).box, cs[1..])
  }

  lemma StepProper(b: Box, c: Call)
    requires Proper(b)
    ensures Proper(Step(b, c).box)
  {
    match c
    case Put(used, pid, m) => ProperKept(b, used, pid, m, Receiver(0, true, 0, []));
    case Get(used, r) => ProperKept(b, used, 0, [], r);
  }

  lemma StepBalance(b: Box, c: Call)
    requires Proper(b) && Ordered(b) && LostBy(b, c) == []
    ensures Ordered(Step(b, c).box)
    ensures Contents(b) + AcceptedBy(b, c) == DeliveredBy(b, c) + Contents(Step(b, c).box)
  {
    match c
    case Put(used, pid, m) =>
      SendAppends(b, used, pid, m);
      OrderedKept(b, used, pid, m, Receiver(0, true, 0, []));
      if Hands(b, m) {
        BlankSwap(Contents(b), m, []);
      }
    case Get(used, r) =>
      ReceiveTakesHead(b, used, r);
      OrderedKept(b, used, 0, [], r);
  }

  /**
   First in, first out: in a run that loses no message, what was in the box followed by what was
   accepted is what was delivered followed by what is in the box.
   */
  lemma {:induction false} Fifo(b: Box, cs: seq<Call>)
    requires Proper(b) && Ordered(b) && Lost(b, cs) == []
    ensures Ordered(Run(b, cs))
    ensures Contents(b) + Accepted(b, cs) == Delivered(b, cs) + Contents(Run(b, cs))
    decreases |cs|
  {
    if cs != [] {
      var c, rest := cs[0], cs[1..];
      var b' := Step(b, c).box;
      assert LostBy(b, c) == [] && Lost(b', rest) == [];
      StepProper(b, c);
      StepBalance(b, c);
      Fifo(b', rest);
      Chain(Contents(b), AcceptedBy(b, c), DeliveredBy(b, c), Contents(b'),
            Accepted(b', rest), Delivered(b', rest), Contents(Run(b', rest)));
    }
  }

  lemma InsertBalance(s: seq<Message>, m: Message, t: seq<Message>)
    ensures multiset(s + [m] + t) == multiset(s + t) + multiset([m]) == multiset(s + (t + [m]))
  {
    assert s + (t + [m]) == (s + t) + [m];
  }

  lemma PutInserts(b: Box, used: int, pid: int, m: Message)
    ensures var c, b', s, t := Put(used, pid, m), Send(b, used, pid, m).box, b.queued, Messages(b.senders);
            || (AcceptedBy(b, c) == DeliveredBy(b, c) && Contents(b') == s + t)
            || (AcceptedBy(b, c) == [m] && DeliveredBy(b, c) == [] && Contents(b') in {s + [m] + t, s + (t + [m])})
  {
    hide Messages;
    MessagesAdd(b.senders, pid, m);
  }

  lemma PutBalance(b: Box, used: int, pid: int, m: Message)
    ensures var c, b' := Put(used, pid, m), Send(b, used, pid, m).box;
            multiset(Contents(b)) + multiset(AcceptedBy(b, c)) == multiset(DeliveredBy(b, c)) + multiset(Contents(b'))
  {
    hide Send, AcceptedBy, DeliveredBy, Messages;
    PutInserts(b, used, pid, m);
    InsertBalance(b.queued, m, Messages(b.senders));
  }

  lemma GetBalance(b: Box, used: int, r: Receiver)
    requires Proper(b)
    ensures var c, b' := Get(used, r), Receive(b, used, r).box;
            Contents(b) + AcceptedBy(b, c) == DeliveredBy(b, c) + LostBy(b, c) + Contents(b')
  {
    ReceiveTakesHead(b, used, r);
  }

  lemma Nothing(b: Box)
    ensures Run(b, []) == b && Accepted(b, []) == [] && Delivered(b, []) == [] && Lost(b, []) == []
  {
  }

  lemma Unroll(b: Box, cs: seq<Call>)
    requires cs != []
    ensures var b' := Step(b, cs[0]).box;
            && Run(b, cs) == Run(b', cs[1..])
            && Accepted(b, cs) == AcceptedBy(b, cs[0]) + Accepted(b', cs[1..])
            && Delivered(b, cs) == DeliveredBy(b, cs[0]) + Delivered(b', cs[1..])
            && Lost(b, cs) == LostBy(b, cs[0]) + Lost(b', cs[1..])
  {
  }

  lemma CallBalance(b: Box, c: Call)
    requires Proper(b)
    ensures multiset(Contents(b)) + multiset(AcceptedBy(b, c))
            == multiset(DeliveredBy(b, c)) + multiset(LostBy(b, c)) + multiset(Contents(Step(b, c).box))
  {
    match c
    case Put(used, pid, m) => PutBalance(b, used, pid, m);
    case Get(used, r) =>
      GetBalance(b, used, r);
      hide *;
      MultisetConcat(Contents(b), AcceptedBy(b, c));
      MultisetConcat(DeliveredBy(b, c) + LostBy(b, c), Contents(Step(b, c).box));
      MultisetConcat(DeliveredBy(b, c), LostBy(b, c));
  }

  /** Over any run at all, every message accepted is delivered, or lost to a small buffer, or still there. */
  lemma {:induction false} Conservation(b: Box, cs: seq<Call>)
    requires Proper(b)
    ensures multiset(Contents(b)) + multiset(Accepted(b, cs))
            == multiset(Delivered(b, cs)) + multiset(Lost(b, cs)) + multiset(Contents(Run(b, cs)))
    decreases |cs|
  {
    if cs == [] {
      Nothing(b);
    } else {
      hide *;
      var c, rest, b' := cs[0], cs[1..], Step(b, cs[0]).box;
      CallBalance(b, c);
      StepProper(b, c);
      Conservation(b', rest);
      Unroll(b, cs);
      MultisetConcat(AcceptedBy(b, c), Accepted(b', rest));
      MultisetConcat(DeliveredBy(b, c), Delivered(b', rest));
      MultisetConcat(LostBy(b, c), Lost(b', rest));
      MultisetChain(multiset(Contents(b)), multiset(AcceptedBy(b, c)), multiset(DeliveredBy(b, c)),
                    multiset(LostBy(b, c)), multiset(Contents(b')), multiset(Accepted(b', rest)),
                    multiset(Delivered(b', rest)), multiset(Lost(b', rest)), multiset(Contents(Run(b', rest))));
    }
  }

  /** Balanced contents are the exact sign of a run without loss. */
  lemma FifoExactly(b: Box, cs: seq<Call>)
    requires Proper(b) && Ordered(b)
    ensures Contents(b) + Accepted(b, cs) == Delivered(b, cs) + Contents(Run(b, cs)) <==> Lost(b, cs) == []
  {
    hide *;
    if Lost(b, cs) == [] {
      Fifo(b, cs);
    }
    if Contents(b) + Accepted(b, cs) == Delivered(b, cs) + Contents(Run(b, cs)) {
      Conservation(b, cs);
      MultisetConcat(Contents(b), Accepted(b, cs));
      MultisetConcat(Delivered(b, cs), Contents(Run(b, cs)));
      MultisetCancel(multiset(Delivered(b, cs)), Lost(b, cs), multiset(Contents(Run(b, cs))));
    }
  }

  /** The messages among those accepted that were sent. */
  function Sent(b: Box, cs: seq<Call>): seq<Message>
    decreases |cs|
  {
    if cs == [] then [] else
    (if cs[0].Put? then AcceptedBy(b, cs[0]) else []) + Sent(Step(b, cs[0]).box, cs[1..])
  }

  /** Some receive of the run joins the blocked senders of a box without slots. */
  predicate Joined(b: Box, cs: seq<Call>)
    decreases |cs|
  {
    cs != [] && ((cs[0].Get? && Joins(b, cs[0].r)) || Joined(Step(b, cs[0]).box, cs[1..]))
  }

  lemma {:induction false} SentOrJoined(b: Box, cs: seq<Call>)
    ensures |Sent(b, cs)| <= |Accepted(b, cs)|
    ensures if Joined(b, cs) then |Sent(b, cs)| < |Accepted(b, cs)| else Sent(b, cs) == Accepted(b, cs)
    decreases |cs|
  {
    hide Step, Joins;
    if cs != [] {
      SentOrJoined(Step(b, cs[0]).box, cs[1..]);
    }
  }

  /** In a run without loss, what is delivered is what was sent exactly if no receive joins the senders. */
  lemma SentIsDelivered(b: Box, cs: seq<Call>)
    requires Proper(b) && Ordered(b) && Lost(b, cs) == []
    ensures Contents(b) + Sent(b, cs) == Delivered(b, cs) + Contents(Run(b, cs)) <==> !Joined(b, cs)
  {
    hide *;
    Fifo(b, cs);
    SentOrJoined(b, cs);
    assert |Contents(b) + Sent(b, cs)| == |Contents(b) + Accepted(b, cs)| <==> |Sent(b, cs)| == |Accepted(b, cs)|;
  }

  /**
   A call changes the number of slots in use by the change in the length of the box's queue, plus one
   if it loses a message in a slot.
   */
  lemma SlotBalance(b: Box, c: Call)
    ensures Step(b, c).used - c.used
            == |Step(b, c).box.queued| - |b.queued| + if c.Get? && Short(b, c.r) then 1 else 0
    ensures c.used <= MAXSLOTS ==> Step(b, c).used <= MAXSLOTS
  {
  }

  /** The boxes and the calls of a run that loses a message. */
  const B0 := Box(1, 1, [], [], [])
  const B1 := Box(1, 1, [[1]], [], [])
  const B2 := Box(1, 1, [[1]], [Sender(2, [2])], [])
  const B3 := Box(1, 1, [], [Sender(2, [2])], [])
  const B4 := Box(1, 1, [[3]], [Sender(2, [2])], [])
  const B5 := Box(1, 1, [[2]], [], [])
  const LOSSY: seq<Call> := [Put(0, 1, [1]), Put(1, 2, [2]), Get(1, Receiver(3, true, 0, [])), Put(1, 4, [3]),
                             Get(2, Receiver(5, true, 1, []))]

  /** Everything one call does. */
  ghost predicate Does(b: Box, c: Call, b': Box, accepted: seq<Message>, delivered: seq<Message>, lost: seq<Message>) {
    && Step(b, c).box == b'
    && AcceptedBy(b, c) == accepted && DeliveredBy(b, c) == delivered && LostBy(b, c) == lost
  }

  lemma LossySteps()
    ensures Does(B0, LOSSY[0], B1, [[1]], [], []) && Does(B1, LOSSY[1], B2, [[2]], [], [])
    ensures Does(B2, LOSSY[2], B3, [], [], [[1]]) && Does(B3, LOSSY[3], B4, [[3]], [], [])
    ensures Does(B4, LOSSY[4], B5, [], [[3]], []) && Contents(B5) == [[2]]
  {
  }

  /** After a loss, delivery can be out of order. */
  lemma LossReorders()
    ensures Accepted(B0, LOSSY) == [[1], [2], [3]] && Lost(B0, LOSSY) == [[1]]
    ensures Delivered(B0, LOSSY) == [[3]] && Contents(Run(B0, LOSSY)) == [[2]]
  {
    hide Run, Accepted, Delivered, Lost, Step, Contents, AcceptedBy, DeliveredBy, LostBy;
    LossySteps();
    var t1, t2, t3, t4 := LOSSY[1..], LOSSY[2..], LOSSY[3..], LOSSY[4..];
    assert t1[1..] == t2 && t2[1..] == t3 && t3[1..] == t4 && t4[1..] == [];
    Nothing(B5);
    Unroll(B4, t4);
    Unroll(B3, t3);
    Unroll(B2, t2);
    Unroll(B1, t1);
    Unroll(B0, LOSSY);
  }

  /**
   On a box without slots a receive that comes first is not served by the next send: it stands in line
   itself, and what its buffer held goes to the next receiver.
   */
  lemma ReceiverFirst(b: Box, first: Receiver, pid: int, m: Message, second: Receiver)
    requires Proper(b) && b.slots == 0 && b.senders == [] && |m| <= b.slotSize && Fits(second, first.holds)
    ensures var cs := [Get(0, first), Put(0, pid, m), Get(0, second)];
            Delivered(b, cs) == [first.holds] && Contents(Run(b, cs)) == [m]
  {
    var cs := [Get(0, first), Put(0, pid, m), Get(0, second)];
    var t1, t2 := cs[1..], cs[2..];
    assert t1[1..] == t2 && t2[1..] == [];
    var b1 := b.(senders := [Sender(first.pid, first.holds)]);
    var b2 := b.(senders := [Sender(first.pid, first.holds), Sender(pid, m)]);
    var b3 := b.(senders := [Sender(pid, m)]);
    assert Step(b, cs[0]).box == b1 && Step(b1, t1[0]).box == b2 && Step(b2, t2[0]).box == b3;
    Unroll(b, cs);
    Unroll(b1, t1);
    Unroll(b2, t2);
    Nothing(b3);
  }

  // ---------------------------------------------------------------------------------------------
  // What a receive does, and what it should do

  /**
   Some message is there.  Every receive that it fits gets it, exactly if there are no slots, or it is in a
   slot and the slots are not of size 0.
   */
  lemma ReceivesExactlyWhen(b: Box)
    requires Proper(b) && Contents(b) != []
    ensures (forall r :: Fits(r, Contents(b)[0]) ==> Received(b, r) == Some(Contents(b)[0])) <==>
            b.slots == 0 || (b.slotSize != 0 && b.queued != [])
  {
    var r := Receiver(0, true, |Contents(b)[0]|, []);
    assert Fits(r, Contents(b)[0]);
    if b.queued == [] {
      assert Contents(b)[0] == b.senders[0].message;
    }
  }

  /** No message is there: a receive blocks exactly when there are no slots, or slots of size 0. */
  lemma BlocksExactlyWhen(b: Box, used: int, r: Receiver)
    requires Contents(b) == []
    ensures Receive(b, used, r).outcome == Block <==> b.slots == 0 || b.slotSize == 0
    ensures Receive(b, used, r).outcome == Return(-1) <==> b.slots != 0 && b.slotSize != 0
  {
    assert |Contents(b)| == |b.queued| + |b.senders|;
  }

  /** Slots of size 0: what is in them stays there. */
  predicate Deaf(b: Box) {
    b.slots > 0 && b.slotSize == 0 && |b.queued| <= b.slots
  }

  lemma DeafStep(b: Box, c: Call)
    requires Deaf(b)
    ensures Deaf(Step(b, c).box) && Step(b, c).box.slots == b.slots && b.queued <= Step(b, c).box.queued
    ensures c.Get? ==> Step(b, c).outcome == Block && DeliveredBy(b, c) == []
  {
  }

  /** Over every run the queue of such a box only grows, and a receive blocks and gets nothing. */
  lemma {:induction false} DeafForever(b: Box, cs: seq<Call>, c: Call)
    requires Deaf(b)
    ensures Deaf(Run(b, cs)) && Run(b, cs).slots == b.slots && b.queued <= Run(b, cs).queued
    ensures c.Get? ==> Step(Run(b, cs), c).outcome == Block && DeliveredBy(Run(b, cs), c) == []
    decreases |cs|
  {
    hide Deaf, Step, DeliveredBy;
    if cs != [] {
      DeafStep(b, cs[0]);
      DeafForever(Step(b, cs[0]).box, cs[1..], c);
    } else {
      DeafStep(b, c);
    }
  }

  lemma FullStep(b: Box, c: Call)
    requires Deaf(b) && |b.queued| == b.slots
    ensures Step(b, c).outcome == (if c.Put? && c.m != [] then Return(-1) else Block) && Step(b, c).woken == []
    ensures DeliveredBy(b, c) == []
  {
  }

  /** Once its slots are full, every receive and every legal send blocks, and nobody is woken any more. */
  lemma {:induction false} JammedForever(b: Box, cs: seq<Call>, c: Call)
    requires Deaf(b) && |b.queued| == b.slots
    ensures Delivered(b, cs) == []
    ensures var r := Step(Run(b, cs), c);
            r.outcome == (if c.Put? && c.m != [] then Return(-1) else Block) && r.woken == []
    decreases |cs|
  {
    hide Deaf, Step, DeliveredBy;
    if cs != [] {
      DeafStep(b, cs[0]);
      FullStep(b, cs[0]);
      JammedForever(Step(b, cs[0]).box, cs[1..], c);
    } else {
      FullStep(b, c);
    }
  }

  /** A mutex made of a box with one slot of size 0: after the first send every call blocks for ever. */
  lemma MutexJams(used: int, pid: int, cs: seq<Call>, c: Call)
    requires used != MAXSLOTS
    requires c.Put? ==> c.m == []
    ensures var r := Send(Box(1, 0, [], [], []), used, pid, []);
            r.outcome == Return(0) && Step(Run(r.box, cs), c).outcome == Block && Step(Run(r.box, cs), c).woken == []
  {
    hide Run, Step;
    JammedForever(Send(Box(1, 0, [], [], []), used, pid, []).box, cs, c);
  }
}
