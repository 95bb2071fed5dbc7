/**
 The semaphores of phase3/phase31.c as a step machine.  P and V are programs over two mailboxes: a
 one-slot mutex, where sending locks and receiving unlocks, and a private box with as many slots as
 the starting value, which carries tokens.  Between any two mailbox calls any other process may run.
 The mailbox contract is taken as given: a send blocks while the box is full, a receive blocks while
 there is neither a message nor a blocked sender.
 */
module Semaphore {
  import opened Sequences
  import opened Wrappers
  import opened WaiterQueue

  /** Where a process stands; each name but `Idle` and `VBlocked` is the step it takes next. */
  datatype PC =
    | Idle
    | PLock     // send on the mutex
    | PTest     // test the value: join the waiters or take one unit
    | PRelease  // (waiter) receive on the mutex
    | PWait     // (waiter) receive a token
    | PRelock   // (waiter) send on the mutex again
    | PToken    // (not a waiter, still holding the mutex) receive a token
    | PUnlock   // receive on the mutex; P is then complete
    | VLock     // send on the mutex
    | VTest     // test for waiters: dequeue one or add one unit
    | VRelease  // (handing off) receive on the mutex
    | VSend     // (handing off) send a token
    | VBlocked  // (handing off) blocked on that send
    | VRelock   // (handing off) send on the mutex again
    | VUnlock   // receive on the mutex; V is then complete

  /** What has happened so far; no step looks at it. */
  datatype History = History(
    holder: Option<Pid>,  // who sent the message that fills the mutex
    begunV: nat,          // V operations begun
    doneP: nat,           // P and V operations completed
    doneV: nat,
    added: nat,           // V operations that found size 0 and added a unit
    handed: nat,          // V operations that found another size and hand a token over
    idle: nat,            // of these, the ones that dequeued nobody
    sent: nat,            // tokens sent by them
    fast: nat,            // P operations that took a unit
    slow: nat,            // P operations that became waiters
    fastGot: nat,         // tokens received by the ones and by the others
    slowGot: nat,
    line: seq<Pid>)       // the processes on the waiter queue

  datatype State = State(
    start: nat,           // starting value, and slots of the private box
    value: int,
    queue: Queue,         // of waiters
    mutex: nat,           // messages in the mutex
    tokens: nat,          // messages in the slots of the private box
    senders: seq<Pid>,    // processes blocked sending to it
    pc: map<Pid, PC>,
    h: History)

  /** A new semaphore: the box holds as many tokens as the value says. */
  function Init(start: nat): State {
    State(start, start, EMPTY, 0, start, [], map[], History(None, 0, 0, 0, 0, 0, 0, 0, 0, 0, 0, 0, []))
  }

  /** semCreateReal: the mutex is locked while the tokens go into the box, one by one.  None of this blocks. */
  method Create(value: nat) returns (s: State)
    ensures s == Init(value)
  {
    s := State(value, value, EMPTY, 0, 0, [], map[], History(None, 0, 0, 0, 0, 0, 0, 0, 0, 0, 0, 0, []));
    assert s.mutex == 0;
    s := s.(mutex := 1);
    for j := 0 to value
      invariant s == Init(value).(mutex := 1, tokens := j)
    {
      assert s.tokens < s.start;
      s := s.(tokens := s.tokens + 1);
    }
    assert s.mutex > 0;
    s := s.(mutex := 0);
  }

  function Pc(pc: map<Pid, PC>, p: Pid): PC {
    if p in pc then pc[p] else Idle
  }

  function Goto(s: State, p: Pid, k: PC): State {
    s.(pc := s.pc[p := k])
  }

  // ---------------------------------------------------------------------------------------------
  // The mailboxes

  function Lock(s: State, p: Pid, k: PC): Option<State> {
    if s.mutex == 0 then Some(Goto(s, p, k).(mutex := 1, h := s.h.(holder := Some(p)))) else None
  }

  function Unlock(s: State, p: Pid, k: PC): Option<State> {
    if s.mutex > 0 then Some(Goto(s, p, k).(mutex := s.mutex - 1, h := s.h.(holder := None))) else None
  }

  function Put(s: State, p: Pid): State {
    var s' := s.(h := s.h.(sent := s.h.sent + 1));
    if s.tokens < s.start then Goto(s', p, VRelock).(tokens := s.tokens + 1)
    else Goto(s', p, VBlocked).(senders := s.senders + [p])
  }

  /** A blocked sender's token takes the slot freed, or is handed over if the box has no slots. */
  function Take(s: State, p: Pid, k: PC): Option<State> {
    if s.senders != [] then Some(Goto(Goto(s, p, k), s.senders[0], VRelock).(senders := s.senders[1..]))
    else if s.tokens > 0 then Some(Goto(s, p, k).(tokens := s.tokens - 1))
    else None
  }

  // ---------------------------------------------------------------------------------------------
  // The programs

  function HandOver(s: State): History {
    s.h.(handed := s.h.handed + 1, idle := s.h.idle + (if s.queue.head == None then 1 else 0),
         line := Leave(s.h.line))
  }

  /** The next step of `p`; None if it is blocked or has nothing to do. */
  function Move(s: State, p: Pid): Option<State> {
    match Pc(s.pc, p)
    case Idle => None
    case PLock => Lock(s, p, PTest)
    case PTest =>
      if s.value == 0
      then Some(Goto(s, p, PRelease).(queue := Enqueue(s.queue, p),
                                      h := s.h.(slow := s.h.slow + 1, line := Join(s.h.line, p))))
      else Some(Goto(s, p, PToken).(value := s.value - 1, h := s.h.(fast := s.h.fast + 1)))
    case PRelease => Unlock(s, p, PWait)
    case PWait => Take(s.(h := s.h.(slowGot := s.h.slowGot + 1)), p, PRelock)
    case PRelock => Lock(s, p, PUnlock)
    case PToken => Take(s.(h := s.h.(fastGot := s.h.fastGot + 1)), p, PUnlock)
    case PUnlock => Unlock(s.(h := s.h.(doneP := s.h.doneP + 1)), p, Idle)
    case VLock => Lock(s, p, VTest)
    case VTest =>
      if s.queue.size > 0
      then Some(Goto(s, p, VRelease).(queue := Dequeue(s.queue), h := HandOver(s)))
      else Some(Goto(s, p, VUnlock).(value := s.value + 1, h := s.h.(added := s.h.added + 1)))
    case VRelease => Unlock(s, p, VSend)
    case VSend => Some(Put(s, p))
    case VBlocked => None
    case VRelock => Lock(s, p, VUnlock)
    case VUnlock => Unlock(s.(h := s.h.(doneV := s.h.doneV + 1)), p, Idle)
  }

  datatype Event = StartP(p: Pid) | StartV(p: Pid) | Go(p: Pid)

  function Step(s: State, e: Event): Option<State> {
    match e
    case StartP(p) => if Pc(s.pc, p) == Idle then Some(Goto(s, p, PLock)) else None
    case StartV(p) =>
      if Pc(s.pc, p) == Idle then Some(Goto(s, p, VLock).(h := s.h.(begunV := s.h.begunV + 1))) else None
    case Go(p) => Move(s, p)
  }

  function Run(s: State, es: seq<Event>): Option<State>
    decreases |es|
  {
    if es == [] then Some(s) else
    match Step(s, es[0])
    case None => None
    case Some(s') => Run(s', es[1..])
  }

  // ---------------------------------------------------------------------------------------------
  // The invariant

  function At(pc: map<Pid, PC>, ks: set<PC>): set<Pid> {
    set p | p in pc && pc[p] in ks
  }

  const HOLDING := {PTest, PRelease, PToken, PUnlock, VTest, VRelease, VUnlock}

  /** Exactly the holder is inside, and the mutex is full exactly while there is one. */
  ghost predicate Exclusive(s: State) {
    && s.mutex == (if s.h.holder.Some? then 1 else 0)
    && (forall p: Pid {:trigger Pc(s.pc, p)} :: Pc(s.pc, p) in HOLDING <==> s.h.holder == Some(p))
  }

  ghost predicate Blocked(s: State) {
    && (forall p: Pid {:trigger p in s.senders} {:trigger Pc(s.pc, p)} :: p in s.senders <==> Pc(s.pc, p) == VBlocked)
    && (forall i, j :: 0 <= i < j < |s.senders| ==> s.senders[i] != s.senders[j])
  }

  /** The size counts at least the processes on the queue, and more if a hand-over dequeued nobody. */
  ghost predicate Lined(s: State) {
    && Threads(s.queue, s.h.line)
    && |s.h.line| <= s.queue.size
    && (s.h.idle > 0 ==> |s.h.line| < s.queue.size)
  }

  ghost predicate Balanced(s: State) {
    && s.value >= 0
    && (s.value > 0 ==> s.queue.size == 0)
    && s.value == s.start + s.h.added - s.h.fast
    && s.tokens + |s.senders| == s.start + s.h.sent - s.h.fastGot - s.h.slowGot
    && s.tokens <= s.start && (s.senders != [] ==> s.tokens == s.start)
  }

  /** The numbers of processes that `Counted` speaks of. */
  datatype Tally = Tally(entering: nat, owing: nat, fast: nat, slow: nat, leaving: nat)

  function TallyOf(pc: map<Pid, PC>): Tally {
    Tally(|At(pc, {VLock, VTest})|, |At(pc, {VRelease, VSend})|, |At(pc, {PToken})|,
          |At(pc, {PRelease, PWait})|, |At(pc, {PRelock, PUnlock})|)
  }

  /** Where the operations begun are. */
  ghost predicate Counted(s: State) {
    var t := TallyOf(s.pc);
    && s.h.begunV == s.h.added + s.h.handed + t.entering
    && s.h.handed == s.h.sent + t.owing
    && s.h.fast == s.h.fastGot + t.fast
    && s.h.slow == s.h.slowGot + t.slow
    && s.h.slow + s.h.idle == s.h.handed + s.queue.size
    && s.h.fastGot + s.h.slowGot == s.h.doneP + t.leaving
  }

  /** While no V has added a unit, once there was a waiter nothing is left to take without waiting. */
  ghost predicate Exhausted(s: State) {
    s.h.added == 0 && s.h.slow > 0 ==> s.value == 0 && s.h.fast == s.h.fastGot && s.h.slowGot <= s.h.sent
  }

  ghost predicate Inv(s: State) {
    Exclusive(s) && Blocked(s) && Lined(s) && Balanced(s) && Counted(s) && Exhausted(s)
  }

  // ---------------------------------------------------------------------------------------------
  // Every step keeps it

  function In(k: PC, ks: set<PC>): nat {
    if k in ks then 1 else 0
  }

  lemma PcUpdate(pc: map<Pid, PC>, p: Pid, k: PC)
    ensures forall q: Pid {:trigger Pc(pc[p := k], q)} :: Pc(pc[p := k], q) == if q == p then k else Pc(pc, q)
  {
  }

  lemma AtUpdate(pc: map<Pid, PC>, p: Pid, k: PC, ks: set<PC>)
    ensures At(pc[p := k], ks) == if k in ks then At(pc, ks) + {p} else At(pc, ks) - {p}
  {
  }

  lemma AtCount(pc: map<Pid, PC>, p: Pid, k: PC, ks: set<PC>)
    requires Idle !in ks
    ensures |At(pc[p := k], ks)| == |At(pc, ks)| + In(k, ks) - In(Pc(pc, p), ks)
  {
    AtUpdate(pc, p, k, ks);
    var before := At(pc, ks);
    assert p in before <==> Pc(pc, p) in ks;
    hide At;
    if p in before {
      assert before + {p} == before;
    }
  }

  lemma TallyUpdate(pc: map<Pid, PC>, p: Pid, k: PC)
    ensures var was, t, t' := Pc(pc, p), TallyOf(pc), TallyOf(pc[p := k]);
            && t'.entering == t.entering + In(k, {VLock, VTest}) - In(was, {VLock, VTest})
            && t'.owing == t.owing + In(k, {VRelease, VSend}) - In(was, {VRelease, VSend})
            && t'.fast == t.fast + In(k, {PToken}) - In(was, {PToken})
            && t'.slow == t.slow + In(k, {PRelease, PWait}) - In(was, {PRelease, PWait})
            && t'.leaving == t.leaving + In(k, {PRelock, PUnlock}) - In(was, {PRelock, PUnlock})
  {
    hide At, In, Pc;
    AtCount(pc, p, k, {VLock, VTest});
    AtCount(pc, p, k, {VRelease, VSend});
    AtCount(pc, p, k, {PToken});
    AtCount(pc, p, k, {PRelease, PWait});
    AtCount(pc, p, k, {PRelock, PUnlock});
  }

  lemma LockKeeps(s: State, p: Pid, k: PC)
    requires Inv(s) && Lock(s, p, k).Some?
    requires (Pc(s.pc, p), k) in {(PLock, PTest), (PRelock, PUnlock), (VLock, VTest), (VRelock, VUnlock)}
    ensures Inv(Lock(s, p, k).value)
  {
    hide At, Threads, Enqueue, Dequeue, Join, Leave;
    PcUpdate(s.pc, p, k);
    TallyUpdate(s.pc, p, k);
  }

  /** Unlocking within an operation, and at its end. */
  lemma UnlockInside(s: State, p: Pid)
    requires Inv(s) && Pc(s.pc, p) in {PRelease, VRelease} && Move(s, p).Some?
    ensures Inv(Move(s, p).value)
  {
    hide At, Threads, Enqueue, Dequeue, Join, Leave;
    var k := if Pc(s.pc, p) == PRelease then PWait else VSend;
    PcUpdate(s.pc, p, k);
    TallyUpdate(s.pc, p, k);
    assert Move(s, p).value.pc == s.pc[p := k];
  }

  lemma UnlockAtEnd(s: State, p: Pid)
    requires Inv(s) && Pc(s.pc, p) in {PUnlock, VUnlock} && Move(s, p).Some?
    ensures Inv(Move(s, p).value)
  {
    hide At, Threads, Enqueue, Dequeue, Join, Leave;
    PcUpdate(s.pc, p, Idle);
    TallyUpdate(s.pc, p, Idle);
    assert Move(s, p).value.pc == s.pc[p := Idle];
  }

  /** A process about to test the value is the only one inside. */
  lemma OnlyOneInside(s: State, p: Pid)
    requires Exclusive(s) && Pc(s.pc, p) in {PTest, VTest}
    ensures TallyOf(s.pc).fast == 0
  {
    forall q: Pid ensures q !in At(s.pc, {PToken}) {
      assert Pc(s.pc, q) in HOLDING <==> s.h.holder == Some(q);
    }
  }

  lemma TestPKeeps(s: State, p: Pid)
    requires Inv(s) && Pc(s.pc, p) == PTest
    ensures Move(s, p).Some? && Inv(Move(s, p).value)
  {
    hide At, Threads, Place, Join, Leave;
    var k := if s.value == 0 then PRelease else PToken;
    PcUpdate(s.pc, p, k);
    TallyUpdate(s.pc, p, k);
    OnlyOneInside(s, p);
    EnqueueThreads(s.queue, s.h.line, p);
  }

  lemma TestVKeeps(s: State, p: Pid)
    requires Inv(s) && Pc(s.pc, p) == VTest
    ensures Move(s, p).Some? && Inv(Move(s, p).value)
  {
    hide At, Link, Distinct;
    var k := if s.queue.size > 0 then VRelease else VUnlock;
    PcUpdate(s.pc, p, k);
    TallyUpdate(s.pc, p, k);
    OnlyOneInside(s, p);
    DequeueThreads(s.queue, s.h.line);
  }

  lemma PutKeeps(s: State, p: Pid)
    requires Inv(s) && Pc(s.pc, p) == VSend
    ensures Inv(Put(s, p))
  {
    hide At, Threads, Enqueue, Dequeue, Join, Leave;
    var k := if s.tokens < s.start then VRelock else VBlocked;
    PcUpdate(s.pc, p, k);
    TallyUpdate(s.pc, p, k);
  }

  /** Receiving a token lets no one in or out. */
  lemma StillExclusive(s: State, s': State, p: Pid, k: PC)
    requires Exclusive(s) && Blocked(s) && s'.mutex == s.mutex && s'.h.holder == s.h.holder
    requires Pc(s.pc, p) in HOLDING <==> k in HOLDING
    requires forall q: Pid {:trigger Pc(s'.pc, q)} :: Pc(s'.pc, q) ==
               if q == p then k else if s.senders != [] && q == s.senders[0] then VRelock else Pc(s.pc, q)
    ensures Exclusive(s')
  {
    forall q: Pid ensures Pc(s'.pc, q) in HOLDING <==> s'.h.holder == Some(q) {
      assert Pc(s.pc, q) in HOLDING <==> s.h.holder == Some(q);
      assert q in s.senders <==> Pc(s.pc, q) == VBlocked;
    }
  }

  /** Receiving moves the receiver on and wakes at most the first blocked sender. */
  lemma TakeUpdates(s: State, p: Pid, k: PC)
    requires Blocked(s) && Pc(s.pc, p) in {PWait, PToken} && k in {PRelock, PUnlock}
    requires Take(s, p, k).Some?
    ensures var s' := Take(s, p, k).value;
            && s'.(pc := s.pc, tokens := s.tokens, senders := s.senders) == s
            && (if s.senders != [] then s'.tokens == s.tokens && s'.senders == s.senders[1..]
                else s'.tokens == s.tokens - 1 >= 0 && s'.senders == [])
    ensures var pc := Take(s, p, k).value.pc;
            var was, t, t' := Pc(s.pc, p), TallyOf(s.pc), TallyOf(pc);
            && t'.entering == t.entering && t'.owing == t.owing && t'.leaving == t.leaving + 1
            && t'.fast == t.fast - In(was, {PToken})
            && t'.slow == t.slow - In(was, {PRelease, PWait})
            && (forall q: Pid {:trigger Pc(pc, q)} :: Pc(pc, q) ==
                  if q == p then k else if s.senders != [] && q == s.senders[0] then VRelock else Pc(s.pc, q))
  {
    hide At;
    PcUpdate(s.pc, p, k);
    TallyUpdate(s.pc, p, k);
    if s.senders != [] {
      var q := s.senders[0];
      assert q in s.senders;
      PcUpdate(s.pc[p := k], q, VRelock);
      TallyUpdate(s.pc[p := k], q, VRelock);
    }
  }

  lemma WaiterTakes(s: State, p: Pid)
    requires Inv(s) && Pc(s.pc, p) == PWait && Move(s, p).Some?
    ensures Inv(Move(s, p).value)
  {
    hide At, Take, TallyOf;
    var s' := s.(h := s.h.(slowGot := s.h.slowGot + 1));
    TakeUpdates(s', p, PRelock);
    var after := Take(s', p, PRelock).value;
    assert Move(s, p) == Some(after);
    StillExclusive(s, after, p, PRelock);
    assert Blocked(after);
    assert Balanced(after) && Counted(after);
    assert s.tokens + |s.senders| > 0;
    assert Exhausted(after);
  }

  lemma FastTakes(s: State, p: Pid)
    requires Inv(s) && Pc(s.pc, p) == PToken && Move(s, p).Some?
    ensures Inv(Move(s, p).value)
  {
    hide At, Take;
    var s' := s.(h := s.h.(fastGot := s.h.fastGot + 1));
    TakeUpdates(s', p, PUnlock);
    var after := Take(s', p, PUnlock).value;
    assert Move(s, p) == Some(after);
    StillExclusive(s, after, p, PUnlock);
  }

  lemma StartPKeeps(s: State, p: Pid)
    requires Inv(s) && Pc(s.pc, p) == Idle
    ensures Inv(Step(s, StartP(p)).value)
  {
    hide At, Threads;
    PcUpdate(s.pc, p, PLock);
    TallyUpdate(s.pc, p, PLock);
  }

  lemma StartVKeeps(s: State, p: Pid)
    requires Inv(s) && Pc(s.pc, p) == Idle
    ensures Inv(Step(s, StartV(p)).value)
  {
    hide At, Threads;
    PcUpdate(s.pc, p, VLock);
    TallyUpdate(s.pc, p, VLock);
  }

  /** Every step of every process keeps the invariant. */
  lemma StepKeeps(s: State, e: Event)
    requires Inv(s) && Step(s, e).Some?
    ensures Inv(Step(s, e).value)
  {
    hide Inv, Lock, Unlock, Take, Put;
    match e
    case StartP(p) => StartPKeeps(s, p);
    case StartV(p) => StartVKeeps(s, p);
    case Go(p) =>
      match Pc(s.pc, p)
      case Idle =>
      case PLock => LockKeeps(s, p, PTest);
      case PTest => TestPKeeps(s, p);
      case PRelease => UnlockInside(s, p);
      case PWait => WaiterTakes(s, p);
      case PRelock => LockKeeps(s, p, PUnlock);
      case PToken => FastTakes(s, p);
      case PUnlock => UnlockAtEnd(s, p);
      case VLock => LockKeeps(s, p, VTest);
      case VTest => TestVKeeps(s, p);
      case VRelease => UnlockInside(s, p);
      case VSend => PutKeeps(s, p);
      case VBlocked =>
      case VRelock => LockKeeps(s, p, VUnlock);
      case VUnlock => UnlockAtEnd(s, p);
  }

  lemma InitInv(start: nat)
    ensures Inv(Init(start))
  {
    var pc: map<Pid, PC> := map[];
    assert forall ks :: At(pc, ks) == {};
  }

  lemma StepStart(s: State, e: Event)
    requires Step(s, e).Some?
    ensures Step(s, e).value.start == s.start
  {
  }

  lemma {:induction false} RunKeeps(s: State, es: seq<Event>)
    requires Inv(s) && Run(s, es).Some?
    ensures Inv(Run(s, es).value) && Run(s, es).value.start == s.start
    decreases |es|
  {
    hide Inv, Step;
    if es != [] {
      StepKeeps(s, es[0]);
      StepStart(s, es[0]);
      RunKeeps(Step(s, es[0]).value, es[1..]);
    }
  }

  // ---------------------------------------------------------------------------------------------
  // Safety, over every interleaving

  /** A state some interleaving leads to. */
  ghost predicate Reachable(start: nat, s: State) {
    exists es :: Run(Init(start), es) == Some(s)
  }

  lemma ReachableInv(start: nat, s: State)
    requires Reachable(start, s)
    ensures Inv(s) && s.start == start
  {
    hide Inv;
    var es :| Run(Init(start), es) == Some(s);
    InitInv(start);
    RunKeeps(Init(start), es);
  }

  /**
   In every reachable state at most one process is between locking and unlocking; the value is not
   negative, and while it is positive nobody waits.
   */
  lemma MutualExclusion(start: nat, s: State, p: Pid, q: Pid)
    requires Reachable(start, s)
    ensures Pc(s.pc, p) in HOLDING && Pc(s.pc, q) in HOLDING ==> p == q
    ensures s.value >= 0
    ensures s.value > 0 ==> s.queue.size == 0 && s.queue.head == None
  {
    ReachableInv(start, s);
  }

  /**
   In every reachable state the P operations completed do not outnumber the starting value plus the V
   operations that handed a unit to a waiter, let alone those begun.
   */
  lemma NoMoreThanGiven(start: nat, s: State)
    requires Reachable(start, s)
    ensures s.h.doneP <= start + s.h.handed <= start + s.h.begunV
  {
    ReachableInv(start, s);
  }

  // ---------------------------------------------------------------------------------------------
  // The V operations that block

  /** The process that the step blocks on its send, if it blocks one. */
  function Blocking(s: State, e: Event): seq<Pid>
    requires Step(s, e).Some?
  {
    if Pc(s.pc, e.p) != VBlocked && Pc(Step(s, e).value.pc, e.p) == VBlocked then [e.p] else []
  }

  /** Those of a line that are not blocked any more. */
  function Released(line: seq<Pid>, pc: map<Pid, PC>): seq<Pid> {
    if line == [] then [] else (if Pc(pc, line[0]) != VBlocked then [line[0]] else []) + Released(line[1..], pc)
  }

  function AllBlocking(s: State, es: seq<Event>): seq<Pid>
    requires Run(s, es).Some?
    decreases |es|
  {
    if es == [] then [] else Blocking(s, es[0]) + AllBlocking(Step(s, es[0]).value, es[1..])
  }

  function AllReleased(s: State, es: seq<Event>): seq<Pid>
    requires Run(s, es).Some?
    decreases |es|
  {
    if es == [] then [] else
    var s' := Step(s, es[0]).value;
    Released(s.senders, s'.pc) + AllReleased(s', es[1..])
  }

  lemma {:induction false} NoneReleased(line: seq<Pid>, pc: map<Pid, PC>)
    requires forall i :: 0 <= i < |line| ==> Pc(pc, line[i]) == VBlocked
    ensures Released(line, pc) == []
  {
    if line != [] {
      NoneReleased(line[1..], pc);
    }
  }

  /** The line grows at its end by `more`, or loses its first, and only who leaves it is released. */
  ghost predicate LineMoves(s: State, s': State, more: seq<Pid>) {
    || (s'.senders == s.senders + more && forall q: Pid :: q in s.senders ==> Pc(s'.pc, q) == VBlocked)
    || (s.senders != [] && more == [] && s'.senders == s.senders[1..] && Pc(s'.pc, s.senders[0]) != VBlocked
        && forall q: Pid :: q in s.senders[1..] ==> Pc(s'.pc, q) == VBlocked)
  }

  lemma TakeLine(s: State, p: Pid, k: PC)
    requires Blocked(s) && Pc(s.pc, p) in {PWait, PToken} && k in {PRelock, PUnlock}
    requires Take(s, p, k).Some?
    ensures LineMoves(s, Take(s, p, k).value, []) && Pc(Take(s, p, k).value.pc, p) == k
  {
    hide Take, TallyOf;
    TakeUpdates(s, p, k);
    assert p in s.senders <==> Pc(s.pc, p) == VBlocked;
    assert s.senders + [] == s.senders;
    if s.senders != [] {
      assert s.senders[0] in s.senders;
    }
  }

  lemma MoveLine(s: State, p: Pid)
    requires Blocked(s) && Move(s, p).Some?
    ensures LineMoves(s, Move(s, p).value, Blocking(s, Go(p)))
  {
    hide Enqueue, Dequeue, Join, Leave, Take;
    assert p in s.senders <==> Pc(s.pc, p) == VBlocked;
    match Pc(s.pc, p)
    case PWait => TakeLine(s.(h := s.h.(slowGot := s.h.slowGot + 1)), p, PRelock);
    case PToken => TakeLine(s.(h := s.h.(fastGot := s.h.fastGot + 1)), p, PUnlock);
    case _ =>
  }

  lemma StepLine(s: State, e: Event)
    requires Blocked(s) && Step(s, e).Some?
    ensures LineMoves(s, Step(s, e).value, Blocking(s, e))
  {
    hide Move;
    if e.Go? {
      MoveLine(s, e.p);
    } else {
      assert e.p in s.senders <==> Pc(s.pc, e.p) == VBlocked;
      PcUpdate(s.pc, e.p, if e.StartP? then PLock else VLock);
    }
  }

  lemma LineStep(s: State, e: Event)
    requires Blocked(s) && Step(s, e).Some?
    ensures var s' := Step(s, e).value;
            s.senders + Blocking(s, e) == Released(s.senders, s'.pc) + s'.senders
  {
    hide Step, Blocked, Blocking;
    StepLine(s, e);
    var pc := Step(s, e).value.pc;
    if s.senders != [] && Pc(pc, s.senders[0]) != VBlocked {
      NoneReleased(s.senders[1..], pc);
      assert s.senders[0] in s.senders && s.senders == [s.senders[0]] + s.senders[1..];
    } else {
      assert s.senders != [] ==> s.senders[0] in s.senders;
      NoneReleased(s.senders, pc);
    }
  }

  /**
   Over every run the V operations blocked on their send at first, followed by those that block, are those
   released followed by those still blocked.
   */
  lemma {:induction false} ReleasedInOrder(s: State, es: seq<Event>)
    requires Inv(s) && Run(s, es).Some?
    ensures s.senders + AllBlocking(s, es) == AllReleased(s, es) + Run(s, es).value.senders
    decreases |es|
  {
    if es != [] {
      hide Step, Exclusive, Blocked, Lined, Balanced, Counted, Exhausted, Blocking, Released;
      var s' := Step(s, es[0]).value;
      StepKeeps(s, es[0]);
      LineStep(s, es[0]);
      ReleasedInOrder(s', es[1..]);
      Chain(s.senders, Blocking(s, es[0]), Released(s.senders, s'.pc), s'.senders,
            AllBlocking(s', es[1..]), AllReleased(s', es[1..]), Run(s, es).value.senders);
    }
  }

  // ---------------------------------------------------------------------------------------------
  // A unit without a token
  //
  // A V that finds no waiter adds a unit to the value but sends no token.  The P that takes this unit
  // waits for a token while it holds the mutex.

  /** The holder waits for a token that no one is going to send. */
  ghost predicate Wedged(s: State) {
    && s.h.holder.Some? && Pc(s.pc, s.h.holder.value) == PToken
    && s.tokens == 0 && s.senders == []
    && forall q: Pid {:trigger Pc(s.pc, q)} :: Pc(s.pc, q) != VSend
  }

  lemma FastIs(s: State, p: Pid)
    requires Inv(s) && Pc(s.pc, p) == PToken
    ensures TallyOf(s.pc).fast == 1
  {
    forall q: Pid ensures q in At(s.pc, {PToken}) <==> q == p {
      assert Pc(s.pc, q) in HOLDING <==> s.h.holder == Some(q);
      assert Pc(s.pc, p) in HOLDING <==> s.h.holder == Some(p);
    }
    assert At(s.pc, {PToken}) == {p};
  }

  /** A P that took a unit finds a token exactly if fewer tokens were received than there ever were. */
  lemma FindsToken(start: nat, s: State, p: Pid)
    requires Reachable(start, s) && Pc(s.pc, p) == PToken
    ensures Move(s, p).Some? <==> s.h.fastGot + s.h.slowGot < start + s.h.sent
    ensures Move(s, p).Some? <==> s.h.added <= s.value + s.h.sent - s.h.slowGot
  {
    ReachableInv(start, s);
    FastIs(s, p);
  }

  /** As long as every V has found a waiter, a P that took a unit finds its token. */
  lemma SafeWithoutAdding(start: nat, s: State, p: Pid)
    requires Reachable(start, s) && s.h.added == 0 && Pc(s.pc, p) == PToken
    ensures Move(s, p).Some?
  {
    ReachableInv(start, s);
    FastIs(s, p);
  }

  lemma WedgedStep(s: State, e: Event)
    requires Inv(s) && Wedged(s) && Step(s, e).Some?
    ensures !e.Go? && Wedged(Step(s, e).value)
    ensures Step(s, e).value.h.doneP == s.h.doneP && Step(s, e).value.h.doneV == s.h.doneV
  {
    hide Balanced, Counted, Exhausted;
    assert Pc(s.pc, e.p) in HOLDING <==> s.h.holder == Some(e.p);
    assert e.p in s.senders <==> Pc(s.pc, e.p) == VBlocked;
    if !e.Go? {
      PcUpdate(s.pc, e.p, if e.StartP? then PLock else VLock);
    }
  }

  /** Once wedged, a semaphore completes no operation any more, whatever the processes do. */
  lemma {:induction false} WedgedForever(s: State, es: seq<Event>)
    requires Inv(s) && Wedged(s) && Run(s, es).Some?
    ensures var s' := Run(s, es).value;
            Wedged(s') && s'.h.doneP == s.h.doneP && s'.h.doneV == s.h.doneV
    decreases |es|
  {
    hide Inv, Wedged, Step;
    if es != [] {
      WedgedStep(s, es[0]);
      StepKeeps(s, es[0]);
      WedgedForever(Step(s, es[0]).value, es[1..]);
    }
  }

  lemma {:induction false} RunConcat(s: State, a: seq<Event>, b: seq<Event>)
    requires Run(s, a).Some?
    ensures Run(s, a + b) == Run(Run(s, a).value, b)
    decreases |a|
  {
    if a == [] {
      assert a + b == b;
    } else {
      RunConcat(Step(s, a[0]).value, a[1..], b);
      assert (a + b)[1..] == a[1..] + b;
    }
  }

  /** After `k` undisturbed P operations of process 0. */
  function Drained(start: nat, k: nat): State
    requires k <= start
  {
    State(start, start - k, EMPTY, 0, start - k, [], if k == 0 then map[] else map[0 := Idle],
          History(None, 0, k, 0, 0, 0, 0, 0, k, 0, k, 0, []))
  }

  /** A run given state by state. */
  ghost predicate Path(states: seq<State>, es: seq<Event>) {
    && |states| == |es| + 1
    && forall i {:trigger es[i]} :: 0 <= i < |es| ==> Step(states[i], es[i]) == Some(states[i + 1])
  }

  lemma {:induction false} PathRun(states: seq<State>, es: seq<Event>)
    requires Path(states, es)
    ensures Run(states[0], es) == Some(states[|es|])
    decreases |es|
  {
    hide Step;
    if es != [] {
      PathRun(states[1..], es[1..]);
    }
  }

  lemma Overwrite(p: Pid)
    ensures forall a: PC, b: PC {:trigger map[p := a][p := b]} :: map[p := a][p := b] == map[p := b]
  {
  }

  lemma OneP(start: nat, k: nat)
    requires k < start
    ensures Run(Drained(start, k), [StartP(0), Go(0), Go(0), Go(0), Go(0)]) == Some(Drained(start, k + 1))
  {
    hide Enqueue, Dequeue, Join, Leave, Put;
    Overwrite(0);
    var s := Drained(start, k);
    assert s.pc[0 := PLock] == map[0 := PLock];
    var s1 := s.(pc := map[0 := PLock]);
    var s2 := s1.(pc := map[0 := PTest], mutex := 1, h := s.h.(holder := Some(0)));
    var s3 := s2.(pc := map[0 := PToken], value := s.value - 1, h := s2.h.(fast := k + 1));
    var s4 := s3.(pc := map[0 := PUnlock], tokens := s.tokens - 1, h := s3.h.(fastGot := k + 1));
    PathRun([s, s1, s2, s3, s4, Drained(start, k + 1)], [StartP(0), Go(0), Go(0), Go(0), Go(0)]);
  }

  /** One V later: a unit, but no token. */
  function AfterV(start: nat): State {
    State(start, 1, EMPTY, 0, 0, [], map[0 := Idle], History(None, 1, start, 1, 1, 0, 0, 0, start, 0, start, 0, []))
  }

  /** The states in between. */
  function DuringV(start: nat, k: PC): State
    requires k in {VLock, VTest, VUnlock}
  {
    var s := Drained(start, start).(pc := map[0 := k]);
    if k == VLock then s.(h := s.h.(begunV := 1))
    else if k == VTest then s.(mutex := 1, h := s.h.(begunV := 1, holder := Some(0)))
    else s.(mutex := 1, value := 1, h := s.h.(begunV := 1, holder := Some(0), added := 1))
  }

  lemma VLocks(start: nat)
    ensures Step(Drained(start, start), StartV(0)) == Some(DuringV(start, VLock))
    ensures Step(DuringV(start, VLock), Go(0)) == Some(DuringV(start, VTest))
  {
    hide Enqueue, Dequeue, Join, Leave, Take, Put;
    Overwrite(0);
    assert Drained(start, start).pc[0 := VLock] == map[0 := VLock];
  }

  lemma VAdds(start: nat)
    ensures Step(DuringV(start, VTest), Go(0)) == Some(DuringV(start, VUnlock))
    ensures Step(DuringV(start, VUnlock), Go(0)) == Some(AfterV(start))
  {
    hide Enqueue, Dequeue, Join, Leave, Take, Put;
    Overwrite(0);
  }

  lemma ThenV(start: nat)
    ensures Run(Drained(start, start), [StartV(0), Go(0), Go(0), Go(0)]) == Some(AfterV(start))
  {
    hide Step, Drained, DuringV, AfterV;
    VLocks(start);
    VAdds(start);
    PathRun([Drained(start, start), DuringV(start, VLock), DuringV(start, VTest), DuringV(start, VUnlock),
             AfterV(start)],
            [StartV(0), Go(0), Go(0), Go(0)]);
  }

  /** One more P later. */
  function AfterVP(start: nat): State {
    State(start, 0, EMPTY, 1, 0, [], map[0 := PToken],
          History(Some(0), 1, start, 1, 1, 0, 0, 0, start + 1, 0, start, 0, []))
  }

  lemma ThenP(start: nat)
    ensures Run(AfterV(start), [StartP(0), Go(0), Go(0)]) == Some(AfterVP(start))
  {
    hide Enqueue, Dequeue, Join, Leave, Take, Put;
    Overwrite(0);
    var s := AfterV(start);
    var s1 := s.(pc := map[0 := PLock]);
    var s2 := s1.(pc := map[0 := PTest], mutex := 1, h := s1.h.(holder := Some(0)));
    PathRun([s, s1, s2, AfterVP(start)], [StartP(0), Go(0), Go(0)]);
  }

  lemma ReachableThen(start: nat, s: State, es: seq<Event>)
    requires Reachable(start, s) && Run(s, es).Some?
    ensures Reachable(start, Run(s, es).value)
  {
    var before :| Run(Init(start), before) == Some(s);
    RunConcat(Init(start), before, es);
    assert Run(Init(start), before + es) == Run(s, es);
  }

  lemma StartReachable(start: nat)
    ensures Reachable(start, Init(start)) && Init(start) == Drained(start, 0)
  {
    assert Run(Init(start), []) == Some(Init(start));
  }

  lemma {:induction false} DrainedReachable(start: nat, k: nat)
    requires k <= start
    ensures Reachable(start, Drained(start, k))
  {
    hide Reachable, Run, Step;
    if k == 0 {
      StartReachable(start);
    } else {
      DrainedReachable(start, k - 1);
      OneP(start, k - 1);
      ReachableThen(start, Drained(start, k - 1), [StartP(0), Go(0), Go(0), Go(0), Go(0)]);
    }
  }

  /**
   Whatever its starting value, a semaphore can be wedged: take every unit, give one back while
   nobody waits, and take again.
   */
  lemma EverySemaphoreCanWedge(start: nat)
    ensures Reachable(start, AfterVP(start)) && Wedged(AfterVP(start))
    ensures AfterVP(start).h.added == 1
  {
    hide Reachable, Run;
    DrainedReachable(start, start);
    ThenV(start);
    ReachableThen(start, Drained(start, start), [StartV(0), Go(0), Go(0), Go(0)]);
    ThenP(start);
    ReachableThen(start, AfterV(start), [StartP(0), Go(0), Go(0)]);
  }

  // ---------------------------------------------------------------------------------------------
  // A token that overtakes
  //
  // V dequeues the first waiter but its token goes to whichever waiter receives first.  A waiter served
  // out of turn is still on the queue, and may come back and join it again.

  /** By how much the size of the waiter queue exceeds the number of processes on it. */
  function Excess(s: State): int {
    s.queue.size - |s.h.line|
  }

  predicate Rejoins(s: State, e: Event) {
    e.Go? && Pc(s.pc, e.p) == PTest && s.value == 0 && e.p in s.h.line
  }

  /** Only the two tests touch the queue. */
  lemma LinesKept(s: State, e: Event)
    requires Step(s, e).Some?
    ensures !e.Go? || Pc(s.pc, e.p) !in {PTest, VTest} ==>
              Step(s, e).value.queue == s.queue && Step(s, e).value.h.line == s.h.line
              && Step(s, e).value.value == s.value
              && Step(s, e).value.h.added == s.h.added && Step(s, e).value.h.fast == s.h.fast
  {
  }

  lemma ExcessAtTests(s: State, p: Pid)
    requires Lined(s) && Pc(s.pc, p) in {PTest, VTest}
    ensures Move(s, p).Some?
    ensures Excess(Move(s, p).value) == Excess(s) + if Rejoins(s, Go(p)) then |s.h.line| - Place(s.h.line, p) else 0
  {
    hide Place, Lock, Unlock, Put, Take;
    SizeDropped(s.queue, s.h.line);
  }

  /** The size goes wrong exactly at the steps that enqueue a listed process, by the entries from there on. */
  lemma ExcessGrowsExactlyWhen(s: State, e: Event)
    requires Inv(s) && Step(s, e).Some?
    ensures Excess(Step(s, e).value) ==
            Excess(s) + if Rejoins(s, e) then |s.h.line| - Place(s.h.line, e.p) else 0
  {
    hide Lined, Exclusive, Blocked, Balanced, Counted, Exhausted, Move, Place;
    if e.Go? && Pc(s.pc, e.p) in {PTest, VTest} {
      ExcessAtTests(s, e.p);
    } else {
      LinesKept(s, e);
    }
  }

  predicate Rejoined(s: State, es: seq<Event>)
    requires Run(s, es).Some?
    decreases |es|
  {
    es != [] && (Rejoins(s, es[0]) || Rejoined(Step(s, es[0]).value, es[1..]))
  }

  lemma PlaceOfListed(s: State, e: Event)
    ensures Rejoins(s, e) ==> Place(s.h.line, e.p) < |s.h.line|
  {
  }

  lemma {:induction false} ExcessOverRuns(s: State, es: seq<Event>)
    requires Inv(s) && Run(s, es).Some?
    ensures Excess(s) <= Excess(Run(s, es).value)
    ensures Excess(s) == Excess(Run(s, es).value) <==> !Rejoined(s, es)
    decreases |es|
  {
    hide Inv, Step, Excess, Rejoins;
    if es != [] {
      StepKeeps(s, es[0]);
      ExcessGrowsExactlyWhen(s, es[0]);
      PlaceOfListed(s, es[0]);
      ExcessOverRuns(Step(s, es[0]).value, es[1..]);
    }
  }

  lemma {:induction false} RunSplit(s: State, es: seq<Event>, k: nat)
    requires k <= |es| && Run(s, es).Some?
    ensures Run(s, es[..k]).Some? && Run(Run(s, es[..k]).value, es[k..]) == Run(s, es)
    decreases k
  {
    hide Step;
    if k > 0 {
      RunSplit(Step(s, es[0]).value, es[1..], k - 1);
      assert es[1..][..k - 1] == es[..k][1..] && es[1..][k - 1..] == es[k..];
    } else {
      assert es[..k] == [] && es[k..] == es;
    }
  }

  /** The size agrees with the queue all along a run if and only if nobody joins while still listed. */
  lemma SizeIsRightExactlyWhen(start: nat, es: seq<Event>)
    requires Run(Init(start), es).Some?
    ensures (forall k {:trigger es[..k]} :: 0 <= k <= |es| ==>
               Run(Init(start), es[..k]).Some? && Excess(Run(Init(start), es[..k]).value) == 0)
            <==> !Rejoined(Init(start), es)
  {
    hide Inv, Run, Step, Rejoined;
    InitInv(start);
    ExcessOverRuns(Init(start), es);
    assert es[..|es|] == es;
    forall k | 0 <= k <= |es|
      ensures Run(Init(start), es[..k]).Some?
      ensures 0 <= Excess(Run(Init(start), es[..k]).value) <= Excess(Run(Init(start), es).value)
    {
      RunSplit(Init(start), es, k);
      RunKeeps(Init(start), es[..k]);
      ExcessOverRuns(Init(start), es[..k]);
      ExcessOverRuns(Run(Init(start), es[..k]).value, es[k..]);
    }
  }

  lemma StuckStep(s: State, e: Event)
    requires Inv(s) && Excess(s) > 0 && Step(s, e).Some?
    ensures var s' := Step(s, e).value; s'.value == s.value == 0 && s'.h.added == s.h.added && s'.h.fast == s.h.fast
  {
    hide Exclusive, Blocked, Counted, Exhausted, Lock, Unlock, Put, Take;
    LinesKept(s, e);
  }

  /**
   Once it does not, the size is never 0 again: no V adds a unit any more and no P takes one, so that
   every P waits and every V hands over, be it that the list is empty.
   */
  lemma {:induction false} NeverEmptyAgain(s: State, es: seq<Event>)
    requires Inv(s) && Excess(s) > 0 && Run(s, es).Some?
    ensures var s' := Run(s, es).value;
            && s'.queue.size > 0 && s'.value == 0
            && s'.h.added == s.h.added && s'.h.fast == s.h.fast
    decreases |es|
  {
    if es != [] {
      hide Inv, Step, Excess;
      StuckStep(s, es[0]);
      StepKeeps(s, es[0]);
      ExcessGrowsExactlyWhen(s, es[0]);
      PlaceOfListed(s, es[0]);
      NeverEmptyAgain(Step(s, es[0]).value, es[1..]);
    } else {
      hide Step;
    }
  }

  /** Freeing a semaphore dequeues until the size is 0, and ends if and only if the size is right. */
  lemma FreeEndsExactlyWhen(start: nat, s: State)
    requires Reachable(start, s)
    ensures (exists n: nat :: Drop(s.queue, n).size <= 0) <==> Excess(s) == 0
  {
    ReachableInv(start, s);
    DropEndsExactlyWhen(s.queue, s.h.line);
  }

  /** The tokens on offer, now or by the V operations under way. */
  function OnOffer(s: State): nat {
    s.tokens + |s.senders| + TallyOf(s.pc).owing
  }

  lemma NobodyInside(s: State)
    requires Exclusive(s) && s.h.holder == None
    ensures TallyOf(s.pc).fast == 0
  {
    forall q: Pid ensures q !in At(s.pc, {PToken}) {
      assert Pc(s.pc, q) in HOLDING <==> s.h.holder == Some(q);
    }
  }

  /**
   If it does, it has sent a token for every entry, and then there is one for every waiter if and only if no
   more units were added than the value says.
   */
  lemma FreeServesAllExactlyWhen(start: nat, s: State)
    requires Reachable(start, s) && s.h.holder == None && Excess(s) == 0
    ensures TallyOf(s.pc).slow <= OnOffer(s) + s.queue.size <==> s.h.added <= s.value
  {
    ReachableInv(start, s);
    NobodyInside(s);
    hide Exclusive, Blocked, TallyOf;
  }

  /** Along the run a waiter receives its token only after a V has dequeued it. */
  ghost predicate InTurn(s: State, es: seq<Event>)
    requires Run(s, es).Some?
    decreases |es|
  {
    es != [] ==>
      && (es[0].Go? && Pc(s.pc, es[0].p) == PWait ==> es[0].p !in s.h.line)
      && InTurn(Step(s, es[0]).value, es[1..])
  }

  ghost predicate Listed(s: State) {
    forall p: Pid {:trigger p in s.h.line} :: p in s.h.line ==> Pc(s.pc, p) in {PRelease, PWait}
  }

  lemma StepListed(s: State, e: Event)
    requires Blocked(s) && Listed(s) && Step(s, e).Some?
    requires e.Go? && Pc(s.pc, e.p) == PWait ==> e.p !in s.h.line
    ensures Listed(Step(s, e).value) && !Rejoins(s, e)
  {
    var s' := Step(s, e).value;
    forall q: Pid | q in s'.h.line
      ensures Pc(s'.pc, q) in {PRelease, PWait}
    {
      assert q in s.h.line || (q == e.p && Pc(s'.pc, q) == PRelease);
      assert q in s.senders ==> Pc(s.pc, q) == VBlocked;
      assert e.p in s.h.line ==> Pc(s.pc, e.p) in {PRelease, PWait};
    }
  }

  /** If no token overtakes, nobody joins while listed. */
  lemma {:induction false} InTurnIsDistinct(s: State, es: seq<Event>)
    requires Inv(s) && Listed(s) && Run(s, es).Some? && InTurn(s, es)
    ensures !Rejoined(s, es) && Excess(Run(s, es).value) == Excess(s)
    decreases |es|
  {
    if es != [] {
      hide Step, Listed, Excess, Rejoins, Exclusive, Lined, Balanced, Counted, Exhausted, Blocked;
      StepKeeps(s, es[0]);
      StepListed(s, es[0]);
      ExcessGrowsExactlyWhen(s, es[0]);
      InTurnIsDistinct(Step(s, es[0]).value, es[1..]);
    }
  }

  function Three(a: PC, b: PC, c: PC): map<Pid, PC> {
    map[0 := a, 1 := b, 2 := c]
  }

  lemma OverwriteThree()
    ensures forall a: PC, b: PC, c: PC {:trigger Three(a, b, c)} ::
      Pc(Three(a, b, c), 0) == a && Pc(Three(a, b, c), 1) == b && Pc(Three(a, b, c), 2) == c
    ensures forall a: PC, b: PC, c: PC, k: PC {:trigger Three(a, b, c)[0 := k]} ::
      Three(a, b, c)[0 := k] == Three(k, b, c)
    ensures forall a: PC, b: PC, c: PC, k: PC {:trigger Three(a, b, c)[1 := k]} ::
      Three(a, b, c)[1 := k] == Three(a, k, c)
    ensures forall a: PC, b: PC, c: PC, k: PC {:trigger Three(a, b, c)[2 := k]} ::
      Three(a, b, c)[2 := k] == Three(a, b, k)
  {
  }

  /** Three processes have begun. */
  const BEGUN := State(0, 0, EMPTY, 0, 0, [], Three(PLock, PLock, VLock),
                       History(None, 1, 0, 0, 0, 0, 0, 0, 0, 0, 0, 0, []))

  lemma Begun()
    ensures Reachable(0, BEGUN)
  {
    var s0 := Init(0);
    var s1 := s0.(pc := map[0 := PLock]);
    var s2 := s0.(pc := map[0 := PLock, 1 := PLock]);
    assert s0.pc[0 := PLock] == s1.pc && s1.pc[1 := PLock] == s2.pc && s2.pc[2 := VLock] == BEGUN.pc;
    PathRun([s0, s1, s2, BEGUN], [StartP(0), StartP(1), StartV(2)]);
    assert Run(Init(0), [StartP(0), StartP(1), StartV(2)]) == Some(BEGUN);
  }

  /** Process 0 has become a waiter. */
  const ONE_WAITER := State(0, 0, Queue(Some(0), Some(0), map[], 1), 0, 0, [], Three(PWait, PLock, VLock),
                            History(None, 1, 0, 0, 0, 0, 0, 0, 0, 1, 0, 0, [0]))

  lemma OneWaiter()
    ensures Run(BEGUN, [Go(0), Go(0), Go(0)]) == Some(ONE_WAITER)
  {
    OverwriteThree();
    var s0 := BEGUN;
    var s1 := s0.(pc := Three(PTest, PLock, VLock), mutex := 1, h := s0.h.(holder := Some(0)));
    var s2 := s1.(pc := Three(PRelease, PLock, VLock), queue := ONE_WAITER.queue,
                  h := s1.h.(slow := 1, line := [0]));
    assert Join(s1.h.line, 0) == [0];
    PathRun([s0, s1, s2, ONE_WAITER], [Go(0), Go(0), Go(0)]);
  }

  /** Process 1 has become another one; process 2 is about to V. */
  const TWO_WAITERS := State(0, 0, Queue(Some(0), Some(1), map[0 := 1], 2), 0, 0, [], Three(PWait, PWait, VLock),
                             History(None, 1, 0, 0, 0, 0, 0, 0, 0, 2, 0, 0, [0, 1]))

  lemma TwoWaiters()
    ensures Run(ONE_WAITER, [Go(1), Go(1), Go(1)]) == Some(TWO_WAITERS)
  {
    OverwriteThree();
    var s0 := ONE_WAITER;
    var s1 := s0.(pc := Three(PWait, PTest, VLock), mutex := 1, h := s0.h.(holder := Some(1)));
    var s2 := s1.(pc := Three(PWait, PRelease, VLock), queue := TWO_WAITERS.queue,
                  h := s1.h.(slow := 2, line := [0, 1]));
    assert Join(s1.h.line, 1) == [0, 1];
    PathRun([s0, s1, s2, TWO_WAITERS], [Go(1), Go(1), Go(1)]);
  }

  /** The V has dequeued process 0 and offers its token. */
  const OFFERED := State(0, 0, Queue(Some(1), Some(1), map[0 := 1], 1), 0, 0, [2], Three(PWait, PWait, VBlocked),
                         History(None, 1, 0, 0, 0, 1, 0, 1, 0, 2, 0, 0, [1]))

  lemma Offered()
    ensures Run(TWO_WAITERS, [Go(2), Go(2), Go(2), Go(2)]) == Some(OFFERED)
  {
    OverwriteThree();
    var s0 := TWO_WAITERS;
    var s1 := s0.(pc := Three(PWait, PWait, VTest), mutex := 1, h := s0.h.(holder := Some(2)));
    var s2 := s1.(pc := Three(PWait, PWait, VRelease), queue := OFFERED.queue,
                  h := s1.h.(handed := 1, line := [1]));
    var s3 := s2.(pc := Three(PWait, PWait, VSend), mutex := 0, h := s2.h.(holder := None));
    assert Leave(s1.h.line) == [1] && s3.senders + [2] == [2];
    PathRun([s0, s1, s2, s3, OFFERED], [Go(2), Go(2), Go(2), Go(2)]);
  }

  /** Process 1 has received the token, completed its P and begun its next one. */
  const OVERTAKEN := State(0, 0, OFFERED.queue, 0, 0, [], Three(PWait, PLock, VRelock),
                           History(None, 1, 1, 0, 0, 1, 0, 1, 0, 2, 0, 1, [1]))

  lemma Overtaken()
    ensures Run(OFFERED, [Go(1), Go(1), Go(1), StartP(1)]) == Some(OVERTAKEN)
  {
    OverwriteThree();
    var s4 := OFFERED;
    var s5 := s4.(pc := Three(PWait, PRelock, VRelock), senders := [], h := s4.h.(slowGot := 1));
    var s6 := s5.(pc := Three(PWait, PUnlock, VRelock), mutex := 1, h := s5.h.(holder := Some(1)));
    var s7 := s6.(pc := Three(PWait, Idle, VRelock), mutex := 0, h := s6.h.(holder := None, doneP := 1));
    assert s4.senders[1..] == [];
    PathRun([s4, s5, s6, s7, OVERTAKEN], [Go(1), Go(1), Go(1), StartP(1)]);
  }

  const LISTED_TWICE := State(0, 0, Queue(Some(1), Some(1), map[0 := 1, 1 := 1], 2), 1, 0, [],
                              Three(PWait, PRelease, VRelock),
                              History(Some(1), 1, 1, 0, 0, 1, 0, 1, 0, 3, 0, 1, [1]))

  lemma ListedTwice()
    ensures Run(OVERTAKEN, [Go(1), Go(1)]) == Some(LISTED_TWICE)
  {
    OverwriteThree();
    var s1 := OVERTAKEN.(pc := Three(PWait, PTest, VRelock), mutex := 1, h := OVERTAKEN.h.(holder := Some(1)));
    assert Join(s1.h.line, 1) == [1];
    PathRun([OVERTAKEN, s1, LISTED_TWICE], [Go(1), Go(1)]);
  }

  /** Without that proviso process 1 alone can make up a queue of size 2, linked to itself. */
  lemma TwiceOnTheQueue()
    ensures Reachable(0, LISTED_TWICE) && Threads(LISTED_TWICE.queue, [1])
    ensures LISTED_TWICE.queue.size == 2 && Excess(LISTED_TWICE) == 1
  {
    hide Run, Reachable;
    Begun();
    OneWaiter();
    ReachableThen(0, BEGUN, [Go(0), Go(0), Go(0)]);
    TwoWaiters();
    ReachableThen(0, ONE_WAITER, [Go(1), Go(1), Go(1)]);
    Offered();
    ReachableThen(0, TWO_WAITERS, [Go(2), Go(2), Go(2), Go(2)]);
    Overtaken();
    ReachableThen(0, OFFERED, [Go(1), Go(1), Go(1), StartP(1)]);
    ListedTwice();
    ReachableThen(0, OVERTAKEN, [Go(1), Go(1)]);
  }

  // ---------------------------------------------------------------------------------------------
  // A waiter that freeing forgets

  /** Process 0 begins a P, processes 1 and 2 a V. */
  const ASKED := State(0, 0, EMPTY, 0, 0, [], Three(PLock, VLock, VLock),
                       History(None, 2, 0, 0, 0, 0, 0, 0, 0, 0, 0, 0, []))

  lemma Asked()
    ensures Reachable(0, ASKED)
  {
    var s0 := Init(0);
    var s1 := s0.(pc := map[0 := PLock]);
    var s2 := s0.(pc := map[0 := PLock, 1 := VLock], h := s0.h.(begunV := 1));
    assert s0.pc[0 := PLock] == s1.pc && s1.pc[1 := VLock] == s2.pc && s2.pc[2 := VLock] == ASKED.pc;
    PathRun([s0, s1, s2, ASKED], [StartP(0), StartV(1), StartV(2)]);
    assert Run(Init(0), [StartP(0), StartV(1), StartV(2)]) == Some(ASKED);
  }

  /** Process 0 waits. */
  const WAITING := State(0, 0, Queue(Some(0), Some(0), map[], 1), 0, 0, [], Three(PWait, VLock, VLock),
                         History(None, 2, 0, 0, 0, 0, 0, 0, 0, 1, 0, 0, [0]))

  lemma Waiting()
    ensures Run(ASKED, [Go(0), Go(0), Go(0)]) == Some(WAITING)
  {
    OverwriteThree();
    var s0 := ASKED;
    var s1 := s0.(pc := Three(PTest, VLock, VLock), mutex := 1, h := s0.h.(holder := Some(0)));
    var s2 := s1.(pc := Three(PRelease, VLock, VLock), queue := WAITING.queue, h := s1.h.(slow := 1, line := [0]));
    assert Join(s1.h.line, 0) == [0];
    PathRun([s0, s1, s2, WAITING], [Go(0), Go(0), Go(0)]);
  }

  /** Process 1 has dequeued it and offers a token. */
  const HANDING := State(0, 0, Queue(None, None, map[], 0), 0, 0, [1], Three(PWait, VBlocked, VLock),
                         History(None, 2, 0, 0, 0, 1, 0, 1, 0, 1, 0, 0, []))

  lemma Handing()
    ensures Run(WAITING, [Go(1), Go(1), Go(1), Go(1)]) == Some(HANDING)
  {
    OverwriteThree();
    var s0 := WAITING;
    var s1 := s0.(pc := Three(PWait, VTest, VLock), mutex := 1, h := s0.h.(holder := Some(1)));
    var s2 := s1.(pc := Three(PWait, VRelease, VLock), queue := HANDING.queue, h := s1.h.(handed := 1, line := []));
    var s3 := s2.(pc := Three(PWait, VSend, VLock), mutex := 0, h := s2.h.(holder := None));
    assert Leave(s1.h.line) == [] && s3.senders + [1] == [1];
    PathRun([s0, s1, s2, s3, HANDING], [Go(1), Go(1), Go(1), Go(1)]);
  }

  /** Process 2 has found nobody and added a unit. */
  const ADDED := State(0, 1, Queue(None, None, map[], 0), 0, 0, [1], Three(PWait, VBlocked, Idle),
                       History(None, 2, 0, 1, 1, 1, 0, 1, 0, 1, 0, 0, []))

  lemma Added()
    ensures Run(HANDING, [Go(2), Go(2), Go(2)]) == Some(ADDED)
  {
    OverwriteThree();
    var s0 := HANDING;
    var s1 := s0.(pc := Three(PWait, VBlocked, VTest), mutex := 1, h := s0.h.(holder := Some(2)));
    var s2 := s1.(pc := Three(PWait, VBlocked, VUnlock), value := 1, h := s1.h.(added := 1));
    PathRun([s0, s1, s2, ADDED], [Go(2), Go(2), Go(2)]);
  }

  /** Its next P has taken this unit. */
  const TAKING := State(0, 0, Queue(None, None, map[], 0), 1, 0, [1], Three(PWait, VBlocked, PToken),
                        History(Some(2), 2, 0, 1, 1, 1, 0, 1, 1, 1, 0, 0, []))

  lemma Taking()
    ensures Run(ADDED, [StartP(2), Go(2), Go(2)]) == Some(TAKING)
  {
    OverwriteThree();
    var s0 := ADDED;
    var s1 := s0.(pc := Three(PWait, VBlocked, PLock));
    var s2 := s1.(pc := Three(PWait, VBlocked, PTest), mutex := 1, h := s1.h.(holder := Some(2)));
    PathRun([s0, s1, s2, TAKING], [StartP(2), Go(2), Go(2)]);
  }

  /** And the token. */
  const FORGOTTEN := State(0, 0, Queue(None, None, map[], 0), 0, 0, [], Three(PWait, VRelock, Idle),
                           History(None, 2, 1, 1, 1, 1, 0, 1, 1, 1, 1, 0, []))

  lemma Forgotten()
    ensures Run(TAKING, [Go(2), Go(2)]) == Some(FORGOTTEN)
  {
    OverwriteThree();
    var s0 := TAKING;
    var s1 := s0.(pc := Three(PWait, VRelock, PUnlock), senders := [], h := s0.h.(fastGot := 1));
    assert s0.senders[1..] == [];
    PathRun([s0, s1, FORGOTTEN], [Go(2), Go(2)]);
  }

  /** A waiter for which freeing the semaphore has no token. */
  lemma FreeForgets()
    ensures Reachable(0, FORGOTTEN) && FORGOTTEN.h.holder == None && Excess(FORGOTTEN) == 0
    ensures Pc(FORGOTTEN.pc, 0) == PWait
    ensures TallyOf(FORGOTTEN.pc).slow > OnOffer(FORGOTTEN) + FORGOTTEN.queue.size
  {
    hide Run, Reachable, TallyOf, OnOffer;
    Asked();
    Waiting();
    ReachableThen(0, ASKED, [Go(0), Go(0), Go(0)]);
    Handing();
    ReachableThen(0, WAITING, [Go(1), Go(1), Go(1), Go(1)]);
    Added();
    ReachableThen(0, HANDING, [Go(2), Go(2), Go(2)]);
    Taking();
    ReachableThen(0, ADDED, [StartP(2), Go(2), Go(2)]);
    Forgotten();
    ReachableThen(0, TAKING, [Go(2), Go(2)]);
    FreeServesAllExactlyWhen(0, FORGOTTEN);
  }
}
