/**
 All mailboxes together, over whole runs: how the slots in use drift away from the messages in slots, and
 what comes of it.  Mailbox.dfy proves that every call is an event of this kind.
 */
module MailRuns {
  import opened Wrappers
  import opened MailSpec
  import MailLines

  /** The boxes (None for one that is not active) and the number of slots in use. */
  datatype System = System(boxes: seq<Option<Box>>, used: int)

  datatype Event =
    | Sends(b: int, pid: int, m: Message)
    | CondSends(b: int, pid: int, m: Message)
    | Receives(b: int, r: Receiver)
    | Creates(b: int, slots: int, slotSize: int)  // with the box picked
    | Releases(b: int)

  function NoBoxes(n: nat): seq<Option<Box>> {
    seq(n, _ => None)
  }

  function Start(): System {
    System(NoBoxes(MAXMBOX), 0)
  }

  predicate Active(s: System, b: int) {
    0 <= b < |s.boxes| && s.boxes[b].Some?
  }

  function Updated(s: System, b: int, r: Result): System
    requires Active(s, b)
  {
    System(s.boxes[b := Some(r.box)], r.used)
  }

  function Apply(s: System, e: Event): System {
    match e
    case Sends(b, pid, m) =>
      if Active(s, b) && |m| <= s.boxes[b].value.slotSize
      then Updated(s, b, Send(s.boxes[b].value, s.used, pid, m))
      else s
    case CondSends(b, pid, m) =>
      if Active(s, b) && |m| <= s.boxes[b].value.slotSize && Send(s.boxes[b].value, s.used, pid, m).outcome.Return?
      then Updated(s, b, Send(s.boxes[b].value, s.used, pid, m))
      else s
    case Receives(b, r) =>
      if Active(s, b) then Updated(s, b, Receive(s.boxes[b].value, s.used, r)) else s
    case Creates(b, slots, slotSize) =>
      if 0 <= b < |s.boxes| && s.boxes[b] == None && 0 <= slots && 0 <= slotSize <= MAX_MESSAGE
      then s.(boxes := s.boxes[b := Some(Box(slots, slotSize, [], [], []))])
      else s
    case Releases(b) =>
      if Active(s, b) then System(s.boxes[b := None], s.used - |s.boxes[b].value.queued|) else s
  }

  function Run(s: System, es: seq<Event>): System
    decreases |es|
  {
    if es == [] then s else Run(Apply(s, es[0]), es[1..])
  }

  // ---------------------------------------------------------------------------------------------
  // One box among others

  function CallOf(s: System, e: Event, b: int): seq<Call> {
    if e.b != b || !Active(s, b) then [] else
    match e
    case Sends(_, pid, m) => [Put(s.used, pid, m)]
    case CondSends(_, pid, m) =>
      if Step(s.boxes[b].value, Put(s.used, pid, m)).outcome.Return? then [Put(s.used, pid, m)] else []
    case Receives(_, r) => [Get(s.used, r)]
    case _ => []
  }

  /** The calls on box `b` in a run: all sends and receives, and the conditional sends that neither block nor halt. */
  function Calls(s: System, es: seq<Event>, b: int): seq<Call>
    decreases |es|
  {
    if es == [] then [] else CallOf(s, es[0], b) + Calls(Apply(s, es[0]), es[1..], b)
  }

  lemma OneBoxStep(s: System, e: Event, b: int)
    requires Active(s, b) && !(e.Releases? && e.b == b)
    ensures Active(Apply(s, e), b)
    ensures Apply(s, e).boxes[b].value == MailSpec.Run(s.boxes[b].value, CallOf(s, e, b))
  {
    hide Receive;
    var box := s.boxes[b].value;
    forall c: Call ensures MailSpec.Run(box, [c]) == Step(box, c).box && MailSpec.Run(box, []) == box {
      assert [c][1..] == [];
    }
  }

  lemma {:induction false} RunConcat(b: Box, cs: seq<Call>, ds: seq<Call>)
    ensures MailSpec.Run(b, cs + ds) == MailSpec.Run(MailSpec.Run(b, cs), ds)
    decreases |cs|
  {
    if cs == [] {
      assert cs + ds == ds;
    } else {
      assert (cs + ds)[1..] == cs[1..] + ds;
      RunConcat(Step(b, cs[0]).box, cs[1..], ds);
    }
  }

  /** In a run on all the boxes each box that is not released goes through a run of the calls on itself. */
  lemma {:induction false} OneBox(s: System, es: seq<Event>, b: int)
    requires Active(s, b)
    requires forall e :: e in es ==> !(e.Releases? && e.b == b)
    ensures Active(Run(s, es), b)
    ensures Run(s, es).boxes[b].value == MailSpec.Run(s.boxes[b].value, Calls(s, es, b))
    decreases |es|
  {
    if es != [] {
      hide Apply, CallOf, MailSpec.Run;
      OneBoxStep(s, es[0], b);
      OneBox(Apply(s, es[0]), es[1..], b);
      RunConcat(s.boxes[b].value, CallOf(s, es[0], b), Calls(Apply(s, es[0]), es[1..], b));
    }
  }

  /**
   A box that was created takes as many messages as slots were asked for, each up to the size asked for, before a
   send blocks, whatever goes on in other boxes meanwhile.
   */
  lemma HoldsWhatWasAsked(s: System, b: int, slots: int, slotSize: int, es: seq<Event>, pid: int, m: Message)
    requires 0 <= b < |s.boxes| && s.boxes[b] == None && 0 <= slots && 0 <= slotSize <= MAX_MESSAGE
    requires forall e :: e in es ==> !(e.Releases? && e.b == b)
    requires MailLines.Sending(Calls(Apply(s, Creates(b, slots, slotSize)), es, b), slotSize)
    ensures var s' := Run(Apply(s, Creates(b, slots, slotSize)), es);
            var n := |Calls(Apply(s, Creates(b, slots, slotSize)), es, b)|;
            && Active(s', b)
            && (s'.used != MAXSLOTS ==>
                  Send(s'.boxes[b].value, s'.used, pid, m).outcome ==
                  if |m| > slotSize then Return(-1) else if n < slots then Return(0) else Block)
  {
    hide Run, Calls, Send, MailLines.Sending;
    var made := Apply(s, Creates(b, slots, slotSize));
    OneBox(made, es, b);
    if Run(made, es).used != MAXSLOTS {
      MailLines.HoldsItsSlots(slots, slotSize, Calls(made, es, b), Run(made, es).used, pid, m);
    }
  }

  lemma {:induction false} StaysGone(s: System, es: seq<Event>, b: int)
    requires !Active(s, b)
    requires forall e :: e in es ==> !(e.Creates? && e.b == b)
    ensures !Active(Run(s, es), b)
    decreases |es|
  {
    if es != [] {
      hide Send, Receive;
      StaysGone(Apply(s, es[0]), es[1..], b);
    }
  }

  /** A box that was released is not active again before it is created again. */
  lemma GoneOnceReleased(s: System, es: seq<Event>, b: int)
    requires forall e :: e in es ==> !(e.Creates? && e.b == b)
    ensures !Active(Run(Apply(s, Releases(b)), es), b)
  {
    StaysGone(Apply(s, Releases(b)), es, b);
  }

  // ---------------------------------------------------------------------------------------------
  // Slots in use without a message

  function Held(box: Option<Box>): nat {
    if box.Some? then |box.value.queued| else 0
  }

  function Total(boxes: seq<Option<Box>>): nat {
    if boxes == [] then 0 else Held(boxes[0]) + Total(boxes[1..])
  }

  /** The slots in use that are on no queue. */
  function Leaked(s: System): int {
    s.used - Total(s.boxes)
  }

  /** The event receives a message from a slot into a buffer too small for it. */
  predicate Loses(s: System, e: Event) {
    e.Receives? && Active(s, e.b) && Short(s.boxes[e.b].value, e.r)
  }

  function Losses(s: System, es: seq<Event>): nat
    decreases |es|
  {
    if es == [] then 0 else (if Loses(s, es[0]) then 1 else 0) + Losses(Apply(s, es[0]), es[1..])
  }

  lemma {:induction false} TotalUpdate(boxes: seq<Option<Box>>, b: nat, box: Option<Box>)
    requires b < |boxes|
    ensures Total(boxes[b := box]) == Total(boxes) - Held(boxes[b]) + Held(box)
    decreases |boxes|
  {
    hide Held;
    if b == 0 {
      assert boxes[0 := box][1..] == boxes[1..];
    } else {
      TotalUpdate(boxes[1..], b - 1, box);
      assert boxes[b := box][1..] == boxes[1..][b - 1 := box];
    }
  }

  /** No call takes back a leaked slot, and only a loss leaks one. */
  lemma LeakStep(s: System, e: Event)
    ensures Leaked(Apply(s, e)) == Leaked(s) + if Loses(s, e) then 1 else 0
    ensures s.used <= MAXSLOTS ==> Apply(s, e).used <= MAXSLOTS
    ensures |Apply(s, e).boxes| == |s.boxes|
  {
    hide Total, Send, Receive, Short;
    var s' := Apply(s, e);
    if s'.boxes != s.boxes {
      TotalUpdate(s.boxes, e.b, s'.boxes[e.b]);
    }
    if Active(s, e.b) {
      var box := s.boxes[e.b].value;
      match e
      case Sends(_, pid, m) => SlotBalance(box, Put(s.used, pid, m));
      case CondSends(_, pid, m) => SlotBalance(box, Put(s.used, pid, m));
      case Receives(_, r) => SlotBalance(box, Get(s.used, r));
      case _ =>
    }
  }

  /** Over every run of calls on all the boxes, the slots leaked are the messages lost. */
  lemma {:induction false} LeaksAreLosses(s: System, es: seq<Event>)
    ensures Leaked(Run(s, es)) == Leaked(s) + Losses(s, es)
    ensures s.used <= MAXSLOTS ==> Run(s, es).used <= MAXSLOTS
    decreases |es|
  {
    hide Leaked, Apply, Loses;
    if es != [] {
      LeakStep(s, es[0]);
      LeaksAreLosses(Apply(s, es[0]), es[1..]);
    }
  }

  lemma {:induction false} HeldInTotal(boxes: seq<Option<Box>>, b: nat)
    requires b < |boxes|
    ensures Held(boxes[b]) <= Total(boxes)
  {
    if b > 0 {
      HeldInTotal(boxes[1..], b - 1);
    }
  }

  lemma {:induction false} NothingHeld(n: nat)
    ensures Total(NoBoxes(n)) == 0
  {
    if n > 0 {
      assert NoBoxes(n)[1..] == NoBoxes(n - 1);
      NothingHeld(n - 1);
    }
  }

  /** A send halts exactly when it needs a slot and messages lost and messages queued have used up all. */
  lemma HaltsExactlyWhen(es: seq<Event>, b: int, pid: int, m: Message)
    ensures var s := Run(Start(), es);
            Active(s, b) ==>
              var box := s.boxes[b].value;
              Send(box, s.used, pid, m).outcome == Halt <==>
              && |m| <= box.slotSize && !Hands(box, m) && |box.queued| != box.slots
              && Losses(Start(), es) + Total(s.boxes) == MAXSLOTS
  {
    hide Run, Losses, Total;
    LeaksAreLosses(Start(), es);
    NothingHeld(MAXMBOX);
  }

  /**
   The slots bear no more losses than there are slots.  From then on no slot holds a message, and every
   legal send to a box with slots where no receiver is blocked halts the machine.
   */
  lemma HaltsAfterLosses(es: seq<Event>, b: int, pid: int, m: Message)
    ensures Losses(Start(), es) <= MAXSLOTS
    ensures var s := Run(Start(), es);
            Losses(Start(), es) == MAXSLOTS && Active(s, b) ==>
              var box := s.boxes[b].value;
              && box.queued == []
              && (|m| <= box.slotSize && box.slots > 0 && box.receivers == [] ==>
                    Send(box, s.used, pid, m).outcome == Halt)
  {
    hide Run, Losses, Total;
    var s := Run(Start(), es);
    LeaksAreLosses(Start(), es);
    NothingHeld(MAXMBOX);
    if Active(s, b) {
      HeldInTotal(s.boxes, b);
    }
  }

  // ---------------------------------------------------------------------------------------------
  // What is true of every box

  ghost predicate AllProper(s: System) {
    forall b :: Active(s, b) ==> Proper(s.boxes[b].value)
  }

  lemma ProperBox(s: System, e: Event)
    requires Active(s, e.b) ==> Proper(s.boxes[e.b].value)
    ensures Active(Apply(s, e), e.b) ==> Proper(Apply(s, e).boxes[e.b].value)
  {
    hide Send, Receive;
    if Active(s, e.b) {
      var box, nobody := s.boxes[e.b].value, Receiver(0, true, 0, []);
      match e
      case Sends(b, pid, m) => ProperKept(box, s.used, pid, m, nobody);
      case CondSends(b, pid, m) => ProperKept(box, s.used, pid, m, nobody);
      case Receives(b, r) => ProperKept(box, s.used, 0, [], r);
      case _ =>
    }
  }

  lemma ProperStep(s: System, e: Event)
    requires AllProper(s)
    ensures AllProper(Apply(s, e))
  {
    var s' := Apply(s, e);
    hide Proper;
    forall b | Active(s', b) ensures Proper(s'.boxes[b].value) {
      if b != e.b {
        assert s'.boxes[b] == s.boxes[b] && Active(s, b);
      } else {
        ProperBox(s, e);
      }
    }
  }

  lemma {:induction false} ProperKeptOver(s: System, es: seq<Event>)
    requires AllProper(s)
    ensures AllProper(Run(s, es))
    decreases |es|
  {
    hide AllProper, Apply;
    if es != [] {
      ProperStep(s, es[0]);
      ProperKeptOver(Apply(s, es[0]), es[1..]);
    }
  }

  /** So the laws of MailSpec hold of every box, whatever was called on all of them before. */
  lemma ProperOverRuns(es: seq<Event>, b: int)
    ensures Active(Run(Start(), es), b) ==> Proper(Run(Start(), es).boxes[b].value)
  {
    hide Run;
    assert AllProper(Start());
    ProperKeptOver(Start(), es);
  }

  /** In every run, a legal send to a box without slots blocks, even if somebody waits for a message there. */
  lemma NeverMeet(es: seq<Event>, b: int, pid: int, m: Message)
    ensures var s := Run(Start(), es);
            Active(s, b) && s.boxes[b].value.slots == 0 && |m| <= s.boxes[b].value.slotSize ==>
              Send(s.boxes[b].value, s.used, pid, m).outcome == Block
  {
    hide Run;
    ProperOverRuns(es, b);
  }

  // ---------------------------------------------------------------------------------------------
  // It takes one box

  /** One slot, one byte. */
  const SMALL := Box(1, 1, [], [], [])

  /** The box 0 alone, with `n` slots leaked. */
  function Drained(n: nat): System {
    System(Start().boxes[0 := Some(SMALL)], n)
  }

  /** A message of one byte goes in, a receive without a byte of room takes it out. */
  const ROUND: seq<Event> := [Sends(0, 1, [0]), Receives(0, Receiver(2, true, 0, []))]

  function Rounds(n: nat): seq<Event> {
    if n == 0 then [] else ROUND + Rounds(n - 1)
  }

  lemma OneRound(n: nat, rest: seq<Event>)
    requires n < MAXSLOTS
    ensures Run(Drained(n), ROUND + rest) == Run(Drained(n + 1), rest)
    ensures Losses(Drained(n), ROUND + rest) == 1 + Losses(Drained(n + 1), rest)
  {
    var full := Updated(Drained(n), 0, Result(SMALL.(queued := [[0]]), n + 1, Return(0), []));
    var tail := [ROUND[1]] + rest;
    assert SMALL.queued + [[0]] == [[0]] && [[0]][1..] == [];
    assert (ROUND + rest)[0] == ROUND[0] && (ROUND + rest)[1..] == tail && tail[1..] == rest;
    assert Apply(Drained(n), ROUND[0]) == full;
    assert full.boxes[0 := Some(SMALL)] == Drained(n).boxes;
    assert Apply(full, ROUND[1]) == Drained(n + 1);
  }

  lemma NoEvents(s: System)
    ensures Run(s, []) == s && Losses(s, []) == 0
  {
  }

  lemma {:induction false} DrainedAfter(k: nat, n: nat)
    requires k + n <= MAXSLOTS
    ensures Run(Drained(k), Rounds(n)) == Drained(k + n) && Losses(Drained(k), Rounds(n)) == n
    decreases n
  {
    hide Run, Losses, Drained;
    if n > 0 {
      OneRound(k, Rounds(n - 1));
      DrainedAfter(k + 1, n - 1);
    } else {
      NoEvents(Drained(k));
    }
  }

  /** A single box suffices to use up the slots of all of them. */
  lemma SlotsCanRunOut()
    ensures var es := [Creates(0, 1, 1)] + Rounds(MAXSLOTS);
            Losses(Start(), es) == MAXSLOTS && Run(Start(), es) == Drained(MAXSLOTS)
  {
    hide Rounds;
    var es := [Creates(0, 1, 1)] + Rounds(MAXSLOTS);
    assert es[1..] == Rounds(MAXSLOTS);
    assert Apply(Start(), es[0]) == Drained(0);
    DrainedAfter(0, MAXSLOTS);
  }
}
