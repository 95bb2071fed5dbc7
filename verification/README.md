# A teaching kernel, verified in Dafny

The kernel grows in phases. This project models the parts that hold state and have something to keep:

- **The disk request queue** (phase 4). `CScan.dfy` is the discipline on values: requests sorted by track, a cursor that
  sweeps upward and wraps, and the laws of every run of arrivals and services. `DiskQueue.dfy` is the linked ring of
  process table entries that implements it, with null or self links on a lone node and stale links on removed ones.
- **The disk driver** (phase 4). `DiskSpan.dfy` says what writing and reading a span of sectors means on a store indexed
  by track and sector; `DiskDriver.dfy` has the validation of a request, the two nested transfer loops, and one round of
  the driver on the queue.
- **Sleeping** (phase 4). `SleepHeap.dfy` is the array heap keyed by wake time, `ClockDriver.dfy` has `sleep_real`, the
  drain loop of the clock driver and the table of processes behind both.
- **The terminal reader** (phase 4), in `TermReader.dfy`.
- **Semaphores** (phase 3), in `Semaphore.dfy`: P and V as programs over two mailboxes, interleaved step by step by any
  number of processes. The mailbox contract is a primitive here: a send blocks while the box is full, a receive blocks
  while there is neither a message nor a blocked sender. `WaiterQueue.dfy` is the queue of waiters, threaded through the
  entries of the processes, with its size kept apart.
- **Mailboxes** (phase 2). `MailSpec.dfy` is a mailbox as its users see it, with the laws of every run of calls on one;
  `MailLines.dfy` says who is blocked and who is woken, `MailRuns.dfy` has the runs of calls on all boxes; `Mailbox.dfy`
  proves that the two global tables, their counters and their scan loops behave like that; `IntrusiveQueue.dfy` is the
  queue threaded through its nodes, of phases 2 and 3.
- **The shell's arithmetic** (the `OS Test` kernel). `GcdTriangle.dfy` is the table of greatest common divisors,
  `Decimal.dfy` the printing and parsing of numbers.

`CTypes.dfy` (C integers), `ProcTable.dfy`, `Sequences.dfy` and `Wrappers.dfy` are shared. Loops and classes of the
source are methods and classes here; each is proved against a function or a predicate, and the laws are lemmas about
those.

## Where the code falls short

The model follows the code. Where a natural property is false of it, the project names a case and says exactly when the
property holds.

- *Validation of disk requests.* The check rounds down, so a request may run one track past the end of the disk
  (`AcceptsOffDisk`), and its sum is a C `int` that wraps around, so one for 2147483647 sectors is accepted on every
  disk (`AcceptsFarOffDisk`). `SeeksOfAccepted` says exactly when an accepted request stays on the disk,
  `FarOffExactlyWhen` when it runs further than one track beyond.
- *Waiting for the disk.* Newcomers join the sweep under way, so no bound on overtaking exists (`CanStarve`);
  `ServedAsNumber` counts it exactly.
- *Wake times.* `seconds * 1000000` is a C `int` computation. `WakeTimeExact` says when it is the time asked for.
- *V without a waiter* adds a unit to the value but sends no token; the P that takes the unit then waits for a token
  with the mutex in its hands. `EverySemaphoreCanWedge` reaches this state for every starting value, `WedgedForever`
  shows that nothing completes from there on, `SafeWithoutAdding` that it takes such a V, and `FindsToken` when a P is
  hit.
- *The waiter queue of a semaphore.* A token can go to a waiter that no V has dequeued yet, and that process may wait
  again while it is still listed (`TwiceOnTheQueue`). The size is then larger than the list, exactly from such a step on
  (`SizeIsRightExactlyWhen`), which needs an overtaking token (`InTurnIsDistinct`). It is never 0 again, so that no V
  adds a unit any more (`NeverEmptyAgain`), and freeing the semaphore does not end (`FreeEndsExactlyWhen`).
- *Freeing a semaphore* sends a token for every entry of the queue. A waiter dequeued before, whose token another
  process took, gets none (`FreeForgets`); `FreeServesAllExactlyWhen` says when there are enough.
- *Receiving with too small a buffer* loses the message, and can let later messages overtake blocked senders
  (`LossReorders`); `AppendsExactlyWhen`, `OrderedKept` and `FifoExactly` delimit the damage. The slot stays in use for
  good: `LeaksAreLosses` counts such slots over every run. `SlotsCanRunOut` uses up all of them with one box, and after
  that a send halts the machine (`HaltsAfterLosses`); `HaltsExactlyWhen` says when one does.
- *Boxes without slots.* A receive that comes first joins the line of the blocked senders. No send ever finds it
  (`NeverMeet`); the next receiver takes what its buffer held (`ReceiverFirst`). What is delivered is what was sent
  exactly in the runs in which this does not happen (`SentIsDelivered`).
- *Slots of size 0.* A receive blocks even if messages are queued (`ReceivesExactlyWhen`), so no call takes a message
  out of such a slot (`DeafForever`) and a full box is stuck (`JammedForever`). The mutex of a semaphore is such a box;
  served by these mailboxes it would jam with the first send (`MutexJams`).
- *Receiving from an empty box* with slots of positive size returns -1, and blocks on all others (`BlocksExactlyWhen`);
  the comment above the function says that it blocks.
- *gcd_couple(a, 0)* is 1. `AnswerIsGcd` says when the shell's answer is the greatest common divisor up to sign,
  `FourAndZero` has a case where it is not, and one where it is negative.
- *Parsing a printed negative number* does not give it back, with the exception of -2115098112, for which the sum wraps
  around to the right value (`PrintThenParse`); numerals beyond the greatest `int` do not come back from printing
  (`CanonicalExactly`).

## Model

| member | source | states |
|---|---|---|
| CScan.InsertPos | phase4/phase4.c:912-920 | the search stops behind all leading requests of no larger track, in front of the first of a larger one |
| CScan.AddWf | phase4/phase4.c:900-942 | arrivals keep the queue sorted and the cursor on the first request of its track |
| CScan.RemoveWf | phase4/phase4.c:945-996 | so do looks and services |
| CScan.DrainIsRotation | phase4/phase4.c:954-996 | repeated removal serves the sorted list from the cursor to the end and then from the start to the cursor |
| CScan.OrderIsByLapThenTrack | phase4/phase4.c:954-996 | the service order is by sweep, then by track; nobody stands behind a request it would overtake |
| CScan.NextIsNearestAbove | phase4/phase4.c:970-986 | the next request is the nearest at or above the track just served; only if there is none the sweep restarts at the lowest track |
| CScan.AddInOrder | phase4/phase4.c:910-937 | a newcomer delays exactly the requests it overtakes, by one place |
| CScan.ExactWait | phase4/phase4.c:900-996 | over every run, a waiting request stands at its distance plus overtakers minus services |
| CScan.ServedAsNumber | phase4/phase4.c:954-996 | so the service that removes it is number distance + overtakers + 1 |
| CScan.WaitsUntilServed | phase4/phase4.c:954-996 | a request stops waiting if and only if it is served, and then by the service with its number |
| CScan.ArrivalsKeepTheFront | phase4/phase4.c:324-383 | whatever arrives between the look at the queue and the matching removal, the same request is removed |
| CScan.NextStaysNext | phase4/phase4.c:954-996 | what is next after a removal stays next whatever arrives, also when the sweep has just wrapped |
| CScan.LookSettlesTheFront | phase4/phase4.c:945-951 | so does what is next at a look |
| CScan.BeginsAtTheLowest | phase4/phase4.c:945-951 | before the first look the sweep is going to begin at the lowest track waiting, whatever has arrived |
| CScan.CanStarve | phase4/phase4.c:914-937 | the number of overtakers has no bound: two processes can overtake a third any number of times while it waits |
| CScan.FifoPerTrack | phase4/phase4.c:900-996 | over every run, the requests of one track are served in the order of their arrival, none lost or repeated |
| DiskQueue.RequestQueue.constructor | phase4/phase4.c:892-897 | a new queue is valid and empty |
| DiskQueue.RequestQueue.FindPlace | phase4/phase4.c:912-920 | the loop finds the neighbours of the insertion point in the ring, for null, self and ring links alike |
| DiskQueue.RequestQueue.Splice | phase4/phase4.c:924-936 | after the relinking the nodes with the newcomer in its place form a ring again, head and tail included |
| DiskQueue.RequestQueue.Add | phase4/phase4.c:900-942 | adding to the linked ring is CScan.Add on its contents; ring, sortedness, size and cursor are kept |
| DiskQueue.RequestQueue.Peek | phase4/phase4.c:945-951 | yields the request under the cursor and starts a sweep at the head if none is under way |
| DiskQueue.RequestQueue.Unlink | phase4/phase4.c:970-988 | each of the four removal cases leaves a ring without that node and the cursor on its successor |
| DiskQueue.RequestQueue.Remove | phase4/phase4.c:954-996 | removing from the linked ring is CScan.Remove on its contents and returns the node under the cursor, null if empty |
| DiskSpan.Place | phase4/phase4.c:357-376 | the k-th sector of a request lies at linear sector track * 16 + first + k, at an in-track number below 16 |
| DiskSpan.WriteSpanAt | phase4/phase4.c:357-372 | writing a span gives each of its sectors its own data and changes no other sector of the whole store |
| DiskSpan.RoundTrip | phase4/phase4.c:338-378 | reading a span back yields what was written to it, across any number of tracks |
| DiskSpan.DisjointSpan | phase4/phase4.c:338-378 | a span that shares no sector with a written one reads as before |
| DiskSpan.RefusesOthers | phase4/phase4.c:643-647 | a request for another unit, without a buffer, or for a place off the disk or the track is never accepted |
| DiskSpan.AcceptsExactlyWhen | phase4/phase4.c:643-647 | any other is accepted, unless the sums wrap, if and only if the sector behind its last one lies on track T or before |
| DiskSpan.AcceptsOnDisk | phase4/phase4.c:643-647 | every request that seeks only tracks of the disk is accepted, on both units |
| DiskSpan.SeeksOfAccepted | phase4/phase4.c:643-647 | an accepted request stays on the disk if and only if sectors <= 0 or first + sectors <= (T - track) * 16; unless the sums wrap it seeks at most track T |
| DiskSpan.FarOffExactlyWhen | phase4/phase4.c:643-647 | it seeks beyond track T if and only if its last sector lies beyond that track, which on disks of fewer than 2^27 - 1 tracks is exactly when first + sectors exceeds the greatest int |
| DiskSpan.AcceptsOffDisk | phase4/phase4.c:643-647 | on every disk some accepted request seeks a track that does not exist |
| DiskSpan.AcceptsFarOffDisk | phase4/phase4.c:643-647 | on every disk some accepted request seeks track 134217727 |
| DiskDriver.Pass | phase4/phase4.c:357-372 | the inner loop moves as many sectors as are wanted and fit on the track, in order, at consecutive buffer offsets |
| DiskDriver.ServeTransfer | phase4/phase4.c:339-377 | the transfer loops terminate, also from sector 16, transfer exactly the sectors of the request in order at offsets 512 * k, and seek exactly its tracks |
| DiskDriver.Submit | phase4/phase4.c:637-667 | an illegal request is refused and changes nothing; a legal one is queued with its fields set, and can be carried out exactly if its buffer is long enough |
| DiskDriver.ArriveAll | phase4/phase4.c:649-667 | requests queued one after the other on the linked ring are a run of arrivals on its contents |
| DiskDriver.ServeNext | phase4/phase4.c:323-385 | one round carries out the request under the cursor in full and takes this one off the queue, whatever requests come in meanwhile; all others stay as they were, on the queue and in their fields |
| DiskDriver.ServeAll | phase4/phase4.c:323-385 | while nothing comes in, the rounds carry out every queued request once, as it was queued, in service order, each from what the one before it left on the disk |
| DiskDriver.WriteThenRead | phase4/phase4.c:338-378 | a read request of the sectors of an earlier write request fills its buffer with the bytes written, whatever requests that do not write those sectors are carried out in between |
| DiskDriver.QueuedWriteThenRead | phase4/phase4.c:338-378 | of two queued requests for the same sectors a later read yields what the buffer of the earlier write held at the start |
| SleepHeap.RootIsLeast | phase4/phase4.c:1024-1026 | the root of a heap has the least wake time |
| SleepHeap.Heap.Add | phase4/phase4.c:1005-1021 | heap order is kept and exactly the new process joins the entries |
| SleepHeap.Heap.Peek | phase4/phase4.c:1024-1026 | yields an entry of least wake time |
| SleepHeap.Heap.SmallestOf | phase4/phase4.c:1044-1050 | the comparisons that admit the index one past the live entries never choose it |
| SleepHeap.Heap.SiftRoot | phase4/phase4.c:1038-1061 | the loop restores heap order and keeps the entries |
| SleepHeap.Heap.Remove | phase4/phase4.c:1029-1066 | returns the root and leaves exactly the other entries, in heap order; null if empty |
| ClockDriver.WakeTimeExact | phase4/phase4.c:564 | the wake time is a C int, differs from the time asked for by a multiple of 2^32, and is that time if and only if that is a C int |
| ClockDriver.Sleepers.RoomFor | phase4/phase4.c:569 | the heap has room for every process that is not asleep, so the store in heap_add is in bounds |
| ClockDriver.Sleepers.Sleep | phase4/phase4.c:547-578 | a process is on the heap once if and only if it is asleep, with its wake time; negative seconds change nothing |
| ClockDriver.Sleepers.WakeIfDue | phase4/phase4.c:281-286 | one test of the loop wakes a sleeper of least wake time if and only if someone is due, nobody early |
| ClockDriver.NobodyIsEarly | phase4/phase4.c:281-286 | over every run of sleeps and tests in any order, nobody is woken before the time of its last call |
| ClockDriver.NobodyIsForgotten | phase4/phase4.c:281-286 | over every such run, when a test finds nobody due, everybody asleep whose time has come has been woken |
| ClockDriver.OneWakeUpEach | phase4/phase4.c:281-286 | over every such run, each sleep ends with one wake-up or has not ended |
| ClockDriver.Sleepers.Drain | phase4/phase4.c:281-286 | for every clock that does not run backwards the loop terminates, wakes in order of wake times, nobody early, and leaves only sleepers due after the last reading |
| ClockDriver.DueAreWoken | phase4/phase4.c:281-286 | whoever is due at the first reading is woken |
| TermReader.Read | phase4/phase4.c:447-470 | lines sent plus the partial line are the stream; each line is complete and has no earlier newline |
| TermReader.CutsAreUnique | phase4/phase4.c:455-466 | these conditions leave only one way to cut the stream |
| WaiterQueue.ThreadsOne | phase3/phase31.c:640-670 | at most one list of processes is threaded by a queue |
| WaiterQueue.EnqueueThreads | phase3/phase31.c:640-652 | enq3 appends; a process that is still listed cuts off everybody behind it |
| WaiterQueue.DequeueThreads | phase3/phase31.c:654-670 | deq3 takes the first of the list, and leaves an empty one alone |
| WaiterQueue.FirstInFirstOut | phase3/phase31.c:640-670 | over every run of enqueues and dequeues in which nobody enters while listed, those listed and entering are those taken and listed, in order |
| WaiterQueue.DropTakes | phase3/phase31.c:530-532 | dequeueing again and again takes the list and as much off the size, and then nothing more |
| Semaphore.Create | phase3/phase31.c:352-381 | with the mutex held, as many tokens as the value says go into the private box, and none of the sends blocks |
| Semaphore.InitInv | phase3/phase31.c:352-381 | what this yields satisfies the invariant |
| Semaphore.StepKeeps | phase3/phase31.c:406-488 | every step of P and V keeps the invariant: one holder, the list of waiters and its size, and the balances of units, tokens and operations |
| Semaphore.MutualExclusion | phase3/phase31.c:406-488 | in every reachable state at most one process is inside, the value is not negative, and while it is positive nobody is on the queue |
| Semaphore.NoMoreThanGiven | phase3/phase31.c:352-488 | completed P operations never exceed the starting value plus the V operations that handed over, hence those begun |
| Semaphore.ReleasedInOrder | phase3/phase31.c:474-485 | over every run the V operations that block on their send are released in the order in which they blocked |
| Semaphore.FindsToken | phase3/phase31.c:432-434 | a P that took a unit finds its token if and only if the units added without one do not exceed the value plus the surplus of tokens handed over |
| Semaphore.SafeWithoutAdding | phase3/phase31.c:432-434 | as long as every V has found a waiter, a P that took a unit finds its token |
| Semaphore.WedgedForever | phase3/phase31.c:406-488 | once the holder waits for a token nobody will send, no operation completes any more, whatever runs |
| Semaphore.EverySemaphoreCanWedge | phase3/phase31.c:483-485 | for every starting value one V without a waiter can lead there |
| Semaphore.ExcessGrowsExactlyWhen | phase3/phase31.c:413-414 | the size falls out of step with the list exactly when a process is enqueued that is still listed, by the entries from there on, and never falls back |
| Semaphore.SizeIsRightExactlyWhen | phase3/phase31.c:406-488 | over every run from a new semaphore, the size agrees with the list all along if and only if no process becomes a waiter while still listed |
| Semaphore.NeverEmptyAgain | phase3/phase31.c:474-485 | otherwise the size is positive for ever, no V adds a unit and no P takes one, whatever runs |
| Semaphore.FreeEndsExactlyWhen | phase3/phase31.c:530-532 | in every reachable state, dequeueing until the size is 0 ends if and only if the size agrees with the list |
| Semaphore.FreeServesAllExactlyWhen | phase3/phase31.c:530-538 | the tokens that this sends are enough for all waiters if and only if no more units were added than the value says |
| Semaphore.FreeForgets | phase3/phase31.c:530-538 | in some reachable state they are not |
| Semaphore.InTurnIsDistinct | phase3/phase31.c:413-417 | if every token goes to a waiter already dequeued, no process becomes a waiter while still listed |
| Semaphore.TwiceOnTheQueue | phase3/phase31.c:474-479 | without that, one process can make up a waiter queue of size 2 |
| IntrusiveQueue.LinkedQueue.Enqueue | phase2/phase2.c:834-846 | appends, whatever link the node arrives with, and counts |
| IntrusiveQueue.LinkedQueue.Dequeue | phase2/phase2.c:849-865 | takes the head; the link of the last node is never followed |
| IntrusiveQueue.Reuse | phase3/phase31.c:640-670 | a node that moves to another queue with its stale link harms neither |
| MailSpec.ReceiveTakesHead | phase2/phase2.c:453-563 | a receive takes the head of the contents or nothing; only too small a buffer loses the head; without slots and senders it joins the line |
| MailSpec.SendAppends | phase2/phase2.c:289-346 | a send that is accepted, be it blocked, appends to the contents or goes straight to a waiting receiver |
| MailSpec.AppendsExactlyWhen | phase2/phase2.c:289-346 | every send appends if and only if senders, or receivers where slots have size 0, are blocked only behind a full box |
| MailSpec.OrderedKept | phase2/phase2.c:256-566 | calls keep that so, except a receive with too small a buffer while senders are blocked |
| MailSpec.Fifo | phase2/phase2.c:256-566 | over every run without loss: what was there and was accepted is, in order, what was delivered and is there |
| MailSpec.FifoExactly | phase2/phase2.c:256-566 | that balance holds of a run if and only if it loses no message |
| MailSpec.SentIsDelivered | phase2/phase2.c:453-487 | over every run without loss, what was there and was sent is what was delivered and is there, if and only if no receive joins the senders of a box without slots |
| MailSpec.Conservation | phase2/phase2.c:256-566 | over every run each message accepted is delivered, lost to a small buffer, or still there |
| MailSpec.SlotBalance | phase2/phase2.c:533-548 | a call changes the slots in use by the change in queue length, plus one if it loses a message in a slot |
| MailSpec.LossReorders | phase2/phase2.c:533-541 | after a loss a later message can be delivered before an earlier one |
| MailSpec.ReceiverFirst | phase2/phase2.c:453-487 | without slots, a receiver that comes before its sender is taken for a sender by the next receiver |
| MailSpec.ReceivesExactlyWhen | phase2/phase2.c:489-538 | every receive with room gets the head of the contents if and only if there are no slots, or slots of positive size with a message |
| MailSpec.BlocksExactlyWhen | phase2/phase2.c:412-418 | without a message a receive blocks if and only if there are no slots or slots of size 0, and returns -1 otherwise |
| MailSpec.DeafForever | phase2/phase2.c:490-526 | over every run on slots of size 0, no receive returns and no message leaves its slot |
| MailSpec.JammedForever | phase2/phase2.c:305-331 | once such slots are full, every receive and legal send blocks over every run and wakes nobody |
| MailSpec.MutexJams | phase2/phase2.c:490-526 | a box with one slot of size 0, used as a mutex, blocks for ever after the first send |
| MailLines.SendersInOrder | phase2/phase2.c:305-331 | over every run the senders blocked at first and those that block are, in order, those woken and those still blocked |
| MailLines.ReceiversInOrder | phase2/phase2.c:289-303 | and so are the receivers |
| MailLines.WakesItsSender | phase2/phase2.c:550-563 | a receive that makes room while senders are blocked wakes the first, whose message takes the place, and no other receive wakes anybody |
| MailLines.ReturnsSize | phase2/phase2.c:533-565 | a receive returns the size of the message it delivers, which fits its buffer, and else -1 or not at all |
| MailLines.HandsOver | phase2/phase2.c:289-303 | a send to a waiting receiver wakes it and returns 0 if and only if it has a buffer with room |
| MailLines.HoldsItsSlots | phase2/phase2.c:305-346 | a new box takes as many messages as it has slots and then blocks, and refuses exactly those larger than a slot |
| MailRuns.OneBox | phase2/phase2.c:191-638 | in every run on all boxes, a box that is not released goes through a run of the calls on itself, among them the conditional sends that do not block |
| MailRuns.HoldsWhatWasAsked | phase2/phase2.c:138-182 | a box created takes as many messages as slots were asked for, of the size asked for, whatever goes on in other boxes, before a send blocks |
| MailRuns.GoneOnceReleased | phase2/phase2.c:191-245 | a box released is not active again before it is created again |
| MailRuns.LeakStep | phase2/phase2.c:191-566 | no call on any box gives back a leaked slot, and only a receive with too small a buffer leaks one, exactly one |
| MailRuns.LeaksAreLosses | phase2/phase2.c:533-548 | over every run of calls on all the boxes, the slots in use on no queue are the messages lost from slots |
| MailRuns.HaltsExactlyWhen | phase2/phase2.c:335-339 | after every run, a send halts if and only if it needs a slot and messages lost and messages queued make up MAXSLOTS |
| MailRuns.HaltsAfterLosses | phase2/phase2.c:335-339 | no run loses more messages than there are slots; once it has lost that many, every legal send to a box with slots and no blocked receiver halts |
| MailRuns.SlotsCanRunOut | phase2/phase2.c:533-541 | one box with one slot suffices for that |
| MailRuns.ProperOverRuns | phase2/phase2.c:138-566 | after every run every box has what the laws of MailSpec require of a box |
| MailRuns.NeverMeet | phase2/phase2.c:453-487 | in every run, a legal send to a box without slots blocks, also while a receiver is blocked there |
| Mailbox.MailSystem.constructor | phase2/phase2.c:80-92 | all boxes inactive, all slots free, both counters zero |
| Mailbox.MailSystem.CreateSlot | phase2/phase2.c:379-407 | while the counter is below the maximum the scan yields a slot that was not in use, and fills only that one |
| Mailbox.MailSystem.InitSlot | phase2/phase2.c:818-823 | gives back exactly that slot and keeps the counter equal to the number in use |
| Mailbox.MailSystem.NoSlotTwice | phase2/phase2.c:342-344 | no slot is on two queues or twice on one, and every slot on a queue is in use |
| Mailbox.MailSystem.Send | phase2/phase2.c:256-348 | does to its box what MailSpec.Send says and nothing to any other box |
| Mailbox.MailSystem.CondSend | phase2/phase2.c:569-638 | the result and state of MboxSend if that neither blocks nor halts, otherwise -2 and no change |
| Mailbox.MailSystem.Receive | phase2/phase2.c:419-567 | does to its box what MailSpec.Receive says, with and without slots, delivers the head, and nothing to any other box; the unguarded refill finds a free slot |
| Mailbox.MailSystem.Create | phase2/phase2.c:138-182 | fails exactly for illegal arguments or when all boxes are active; otherwise activates one that was not |
| Mailbox.MailSystem.Release | phase2/phase2.c:191-245 | frees exactly the slots of the box, deactivates it, and wakes everyone blocked on it once, in order |
| GcdTriangle.GcdCoupleIsGcd | OS Test/3 Make f(x)/src/shell.c:179-187 | gcd_couple terminates and has, up to sign, exactly the common divisors of its arguments if the second is not zero |
| GcdTriangle.SignOfCouple | OS Test/3 Make f(x)/src/shell.c:179-187 | the result has the sign of the second argument after an even number of steps and of the first after an odd one |
| GcdTriangle.GcdIsUnique | OS Test/3 Make f(x)/src/shell.c:188-212 | having the common divisors of a list as divisors determines a number |
| GcdTriangle.FillRow | OS Test/3 Make f(x)/src/shell.c:204-207 | a row is right as far as it means anything, whatever the cells beyond hold |
| GcdTriangle.Gcd | OS Test/3 Make f(x)/src/shell.c:194-210 | the answer does not depend on cells never written |
| GcdTriangle.CellDivisors | OS Test/3 Make f(x)/src/shell.c:202-207 | cell (i, j) has exactly the common divisors of arr[j..j+i], whatever their signs, if only the first of them may be zero |
| GcdTriangle.ZeroSpoils | OS Test/3 Make f(x)/src/shell.c:181-182 | a zero other than the first number of a run makes its cell 1 or -1 |
| GcdTriangle.AnswerIsGcd | OS Test/3 Make f(x)/src/shell.c:188-212 | the answer is, up to sign, the greatest common divisor if and only if only the first number may be zero, or they are coprime anyway |
| GcdTriangle.AnswerIsNegative | OS Test/3 Make f(x)/src/shell.c:188-212 | when the answer is negative: by the signs handed down the table, never if no number is, always if all are |
| GcdTriangle.FourAndZero | OS Test/3 Make f(x)/src/shell.c:181-182 | the answer for 4 and 0 is 1, not 4; for 4 and -2 it is -2 |
| Decimal.IntToAscii | OS Test/3 Make f(x)/src/util.c:18-31 | for every int, the digits, least significant first, then the sign, then the terminator, within the buffer |
| Decimal.StrLength | OS Test/3 Make f(x)/src/string.c:2-7 | the place of the first terminator |
| Decimal.ReverseInPlace | OS Test/3 Make f(x)/src/util.c:36-46 | the string is reversed, for even and odd lengths, and nothing behind it changes |
| Decimal.IntToString | OS Test/3 Make f(x)/src/util.c:32-48 | the decimal notation of the number, terminated; "-(" for the least int, whose negation overflows |
| Decimal.StrToInt | OS Test/3 Make f(x)/src/util.c:50-62 | the weighted sum from the right, wrapping in every step, is the positional value of the string, wrapped once |
| Decimal.PrintThenParse | OS Test/3 Make f(x)/src/util.c:18-62 | parsing gives a printed int back if and only if it is not negative or is -2115098112 |
| Decimal.ParseThenPrint | OS Test/3 Make f(x)/src/util.c:18-62 | printing gives a parsed numeral without leading zeros back if and only if its value is an int |
| Decimal.CanonicalExactly | OS Test/3 Make f(x)/src/util.c:18-62 | and no other string, except that of -2115098112 |

## Left out

- Mailbox.MailSystem.Send: what a blocked sender returns after it is woken (0 or -3) is not part of the call, which ends where it blocks.
- Mailbox.MailSystem.Release: the processes woken do not run before the call returns.
- Mailbox.MailSystem.CreateSlot: the queues of the tables are sequences of slot numbers; their links are modelled only in IntrusiveQueue.
- DiskDriver.ServeAll: no request comes in between its rounds; DiskDriver.ServeNext has them.
- DiskDriver.ServeTransfer: how the device answers a seek to a track it does not have is not modelled, the store is unbounded; a transfer past the end of a buffer shorter than the request is undefined in C and excluded; a wait that fails because the driver is zapped is not modelled.
- disk_size_real, which queues the request for the number of tracks; the driver's side of it is in DiskDriver.ServeNext.
- MboxCondReceive repeats MboxReceive without blocking.
- Mailbox.MailSystem.Receive: a copy into a null buffer or of a negative number of bytes is not modelled; what a blocked receiver returns after it is woken is not part of the call.
- Semaphore.StepKeeps: P and V on one semaphore; being zapped, and the reset of a process entry that is still on the queue, are left out.
- Semaphore.FreeEndsExactlyWhen: the sends of the loop may wait for receivers; they are counted in Semaphore.FreeServesAllExactlyWhen, not run as steps.
- Semaphore.MutualExclusion: the mailbox contract is assumed there, not taken from phase2/phase2.c, whose receive keeps it neither without slots (MailRuns.NeverMeet) nor on slots of size 0.
- ClockDriver.Sleepers.Drain: nobody goes to sleep while the loop runs; runs in which processes do are traces of Sleepers.Sleep and Sleepers.WakeIfDue (ClockDriver.NobodyIsEarly, ClockDriver.NobodyIsForgotten), in which the loop need not end.
- GcdTriangle.GcdCoupleIsGcd: the remainder of the least int by -1 is 0 here; a machine may trap.
- Decimal.StrToInt: a character counts by its code; whether plain char is signed is not modelled.
- Integer width: the sizes and counters of the queues, heaps and tables are unbounded numbers.
- TermReader.Read: the terminator stored one past a full line, which the message sent does not include.
- The ready list and dispatcher of phase 1, process creation and termination, interrupts, system call packing, and the screen, keyboard and start-up code.
- The shell's sorting and Fibonacci commands, and the allocator that returns a stack address (a fresh buffer here).
