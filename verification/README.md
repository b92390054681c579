# Water valve controller: verified model

A Dafny model of the firmware of a radio-connected water valve controller, and of the parts of its
RT-Thread kernel that it relies on. The files follow the program:

- `Lists`, `Kernel`: the intrusive lists of the kernel; thread ids, priorities, wait lists, counting facts.
- `Semaphore`, `Mutex`, `Event`, `Mailbox...`, `MessageQueue...`: the IPC objects of `rt-thread/src/ipc.c`. `Mailbox`
  and `MessageQueue` hold the objects with their buffers, offsets and link words; the `...Steps` files run them
  under arbitrary interleaving, the `...Calls` files say what each caller gets out of such a run, and the `...Run`
  files carry every run out on those words. One action is one stretch between disabling
  and enabling interrupts; in the gaps of the message queue, where a block is in neither list, one action
  is the copy of one byte, so every other thread may run in the middle of a copy.
- `MemPool`, `MemPoolRun`, `Memory`: the block pool and its sleeping threads, `rt_memset`/`rt_memcpy`/`rt_memmove`.
- `Format`, `FormatMeaning`: `rt_vsnprintf`, and what its output and its formats mean to a reader.
- `Bits`, `FlashText`, `Registry`, `RegistryProofs`, `RegistryOutcomes`, `RegistryLoops`: the device registry, its
  12-bit slot mask and its mirror in flash, a map from key to stored value.
- `Codec`, `CrcPolynomial`: the radio frame, its parser and its builder; the CRC as the remainder of a division
  of polynomials.
- `Controller`, `ControllerProofs`, `ValveProofs`, `CommandProofs`, `ControllerOutcomes`, `SafetyProofs`,
  `UnitObject`: the product itself. Every handler (keys, hold counters, dry contact, timers, hourly check, frames of
  four device types, power cut, factory reset) is one atomic step over one state: status, warning in force, lock,
  valve, motor outputs, running timers, learn mode, registry and flash.

A function gives the meaning of each operation; a class holds the fields the source overwrites, and its
methods, written with the source's branches and loops, are proved to compute that function. What the source
promises is then proved about the functions, over all inputs, all runs or all reachable states. The lemmas called
`...Outcome`, `...Starts` and `...Means` say field by field what an operation does, with the constants of the source
written out and without naming the function they are about.

Inputs that the model leaves open are parameters or events: pin levels, frame contents, timeouts and their
expiry, the order in which threads and handlers run, and when the power fails. Of the kernel's internals only
this is used: resuming a thread takes it off its wait list and leaves its error code alone; the timer of a
suspended thread takes it off the list with a timeout error; a thread suspended once waits in one list.

## Results that differ from what one would expect

- The end of the learn timer clears every warning, the leak alarm included (`applications/water_work.c:35-42`).
  Leak safety is kept by an event if and only if the event is not that timer's end with a leak on record
  (`LeakStep`); `LearnLosesTheLeak` is a run in which the leaking unit then opens the valve.
- A close with a failed motor switches the outputs off but stops no timer (`applications/valve_work.c:105-110`).
  No later run drives a motor before an open succeeds if and only if the motors were sound or no turn-back
  timer was running (`ClosedUntilOpened`); `DrivenWhileLocked` is a run in which a motor is driven open while
  the valve is locked and closed because of a leak. In general any running timer may end next; this run keeps the
  order their periods impose: the learn timer (30 s), started when the unit joins, ends before the detect timer
  (5 min) started by the later click, and the turn-back timer that is due first, by a second, is the one of the
  motor that fails.
- A thread that waits for a block of a pool goes in front of those that wait already, so the one that came last
  is served first (`LastInFirstOut`).
- The version test of the parser rejects nothing (`VersionNeverRejects`), because of operator precedence.
- The CRC is computed over a length cut to 16 bits, so a single changed byte is noticed in every frame of at most
  65536 bytes, and in longer ones only in part (`CorruptionDetected`). The radio driver hands over a 16-bit size
  (`radio/radio_app.c:43`), so longer frames are never received.
- A precision of 0 suppresses all digits of a number in `rt_vsnprintf`, not only of zero; octal is printed in
  hexadecimal digits. The model follows the code.
- The radio level of a device may change in RAM without being saved, so a reboot restores slot, type, address,
  battery, leak, wire and online, but not the level.

## Model

| member | source | states |
|---|---|---|
| Lists.InsertAfter | rt-thread/include/rtservice.h:58-65 | the ring of next/prev links becomes the ring with the node inserted behind position k, touching only the two neighbours |
| Lists.InsertBefore | rt-thread/include/rtservice.h:73-80 | the same in front of a node; in front of the list object means at the end |
| Lists.Remove | rt-thread/include/rtservice.h:86-92 | the ring loses exactly that node, which becomes a ring of its own |
| Lists.IsEmpty | rt-thread/include/rtservice.h:98-101 | true exactly if the ring has no member besides the list object |
| Lists.Length | rt-thread/include/rtservice.h:107-118 | the number of members |
| Lists.SuspendByPriority | rt-thread/src/ipc.c:122-169 | the walk of a PRIO wait list splices the thread in where PriorityInsertion says, with all links in order |
| Lists.PriorityInsertion | rt-thread/src/ipc.c:141-163 | a sorted wait list stays sorted, and the newcomer stands behind exactly the waiters whose priority number is not larger: first come first served among equals |
| Lists.ResumeFirst | rt-thread/src/ipc.c:191-207 | the first waiter leaves the ring and the rest keep their order |
| Lists.Append | rt-thread/include/rtservice.h:194-204 | a singly linked list gets the cell at its end |
| Lists.RemoveCell | rt-thread/include/rtservice.h:225-235 | a singly linked list loses exactly that cell, whose own next stays as it was |
| Lists.RemoveMatching | storage/flashwork.c:256-283 | the delete-by-type loop, which finds each matching cell again by its address and steps through the next field of the cell just unlinked, leaves exactly the cells of other types, in order |
| Kernel.EnqueueSorted | rt-thread/src/ipc.c:122-169 | with fixed priorities a PRIO wait list stays sorted after a suspend |
| Kernel.EnqueueJoins | rt-thread/src/ipc.c:122-169 | under FIFO a newcomer joins at the end; under PRIO in front of the first waiter that is less urgent, behind all before it |
| Kernel.FrontLeaves | rt-thread/src/ipc.c:191-207 | whoever stands in front is resumed, and the others keep their order |
| Kernel.OneLeaves | rt-thread/src/ipc.c:521-560 | a waiter that times out leaves, and the others keep their order |
| Kernel.RemainingAdds | rt-thread/src/ipc.c:2845-2852 | a thread that sleeps piece by piece sleeps in all as long as its timeout says, or for ever |
| Semaphore.SemObject.TakeIt | rt-thread/src/ipc.c:484-569 | the object keeps value plus successful takes equal to initial value plus releases; with a permit there it is granted, without one the caller times out at once exactly if its timeout is 0, and otherwise sleeps in its place of the wait list |
| Semaphore.SemObject.ReleaseIt | rt-thread/src/ipc.c:606-651 | the object stays in balance; a release that returns EOK gives one permit more, and exactly a woken thread takes one; with waiters the one in front is woken and the others keep their order; EFULL only at 65535 with nobody waiting, and then nothing changes |
| Semaphore.SemObject.ExpireIt | rt-thread/src/ipc.c:521-560 | a waiter that times out is no longer in the list and no permit moves |
| Semaphore.SemObject.ResetIt | rt-thread/src/ipc.c:672-705 | nobody waits, and the balance starts again from the new value |
| Semaphore.TakeOutcome | rt-thread/src/ipc.c:484-569 | granted, timed out or asleep: exactly by value and timeout, with the new value and the place in the wait list |
| Semaphore.ReleaseOutcome | rt-thread/src/ipc.c:606-705 | the one in front is woken, or one permit is added, or nothing happens at 65535; a reset takes the new value and leaves nobody waiting |
| Semaphore.OtherSteps | rt-thread/src/ipc.c:521-705 | a timeout takes its waiter and no other out and moves no permit; a reset starts afresh |
| Semaphore.StepKeeps | rt-thread/src/ipc.c:484-705 | every call and every timeout keeps: value plus successful takes equals initial value plus releases, and nobody waits while the value is positive |
| Semaphore.EveryRun | rt-thread/src/ipc.c:484-705 | over every run the successful takes never exceed the permits, and a thread waits only if all of them are out |
| Mutex.TakeKeeps | rt-thread/src/ipc.c:914-1052 | take keeps the mutex invariant, reports overflow exactly for the owner nesting 256 deep, and a granted take makes the caller the owner; what else it does is TakeOutcome |
| Mutex.TakeOutcome | rt-thread/src/ipc.c:914-1052 | the owner nests; a free mutex is granted with hold 1; on one that another thread holds timeout 0 comes back with nothing changed, and any other timeout sleeps behind exactly the waiters at least as urgent, with the owner at the smaller of its own and the caller's priority |
| Mutex.ReleaseOutcome | rt-thread/src/ipc.c:1090-1198 | not the owner: an error and nothing changed; nested: one less; last: every thread at its base priority, and the first waiter owns it while the others keep their order, or it is free |
| Mutex.ExpireOutcome | rt-thread/src/ipc.c:1028-1038 | a timeout takes that waiter out and changes nothing else |
| Mutex.ReleaseKeeps | rt-thread/src/ipc.c:1090-1198 | release keeps the invariant, fails exactly for a thread that is not the owner, never overflows, and on the last release gives the base priority back and hands over to the first waiter |
| Mutex.ExpireKeeps | rt-thread/src/ipc.c:1028-1038 | a waiter that times out leaves the invariant intact |
| Mutex.EveryRun | rt-thread/src/ipc.c:914-1198 | in every run value is 1 iff there is no owner iff hold is 0; waiters imply an owner; the wait list is sorted; every non-owner has its base priority |
| Mutex.Inheritance | rt-thread/src/ipc.c:914-1198 | in every run the owner is at least as urgent as every waiter, and every other thread runs at its base priority |
| Mutex.NestedTakes | rt-thread/src/ipc.c:942-956 | n nested takes are undone by n releases and leave the mutex as it was |
| Mutex.MutexObject.TakeIt | rt-thread/src/ipc.c:914-1052 | the object keeps: free iff not held iff value is 1, owner at least as urgent as every waiter, others at base priority; a free mutex is owned with hold 1; on one held by another thread timeout 0 changes nothing, any other timeout sleeps behind exactly the waiters at least as urgent and raises the owner; overflow exactly for the owner 256 deep |
| Mutex.MutexObject.ReleaseIt | rt-thread/src/ipc.c:1090-1198 | the object stays in that order; the result is EOK exactly for the owner; whoever does not own it afterwards runs at its base priority; the last release hands it to the waiter in front, and the others keep their order |
| Mutex.MutexObject.ExpireIt | rt-thread/src/ipc.c:1028-1038 | a waiter that times out leaves the list and the rest in order |
| Event.NobodyOverlooked | rt-thread/src/ipc.c:1440-1529 | after every waiter in queue order has run the non-blocking receive once, none that still waits has its condition met, although later waiters may have cleared bits |
| Event.DeliverNext | rt-thread/src/ipc.c:1440-1529 | the next waiter in line is resumed exactly if its condition is met by the bits those before it left; it receives its bits that are there, and takes all its bits away exactly if it asked for that; else it stays behind those that stayed |
| Event.SendOutcome | rt-thread/src/ipc.c:1440-1529 | a send of no bits fails; otherwise every bit that was there or was sent is left, or was received by a thread that asked to clear it, and no other bit is there |
| Event.RecvOutcome | rt-thread/src/ipc.c:1565-1685 | a receive of no bits fails; with all, or any, of its bits there it gets those that are, clearing its bits exactly if asked to; otherwise it times out at once for timeout 0, and else sleeps in its place of the list |
| Event.OtherSteps | rt-thread/src/ipc.c:1647-1732 | a timeout takes its waiter and no bits; a reset leaves no bits and nobody waiting |
| Event.StillUnmet | rt-thread/src/ipc.c:1440-1529 | taking bits away meets nobody's condition |
| Event.StepKeeps | rt-thread/src/ipc.c:1440-1732 | send, receive, timeout and reset keep: no suspended thread has its AND or OR condition met |
| Event.EveryRun | rt-thread/src/ipc.c:1440-1732 | that holds in every reachable state |
| Event.ClearReceived | rt-thread/src/ipc.c:1505-1510 | clearing the bits a thread received leaves the same bits as clearing the bits it asked for |
| Event.EventObject.RecvIt | rt-thread/src/ipc.c:1565-1685 | a receive gets its bits at once, fails, or is suspended with what it asked for on record; it equals Recv, and no suspended thread has its condition met |
| Event.EventObject.ExpireIt | rt-thread/src/ipc.c:1647-1672 | a timeout takes the thread off the list and keeps that |
| Event.EventObject.ResetIt | rt-thread/src/ipc.c:1703-1732 | a reset leaves no bits and nobody waiting |
| Event.EventObject.SendIt | rt-thread/src/ipc.c:1440-1529 | on any object built from receives, timeouts, resets and sends, the walk over the wait list equals OR-ing in the bits and then running the non-blocking receive of each waiter in queue order: same received bits, same clears, same waiters left; afterwards no suspended thread has its condition met; a send of no bits fails |
| Mailbox.Ring.constructor | rt-thread/src/ipc.c:1780-1815 | an empty ring of the given size |
| Mailbox.Ring.Send | rt-thread/src/ipc.c:1991-2120 | the ring with its two offsets appends to the sequence of messages, keeps in_offset equal to (out_offset + entry) mod size, resumes the first receiver, and never takes the overflow branch |
| Mailbox.Ring.Urgent | rt-thread/src/ipc.c:2164-2216 | prepends, with out_offset stepping back around the ring |
| Mailbox.Ring.Recv | rt-thread/src/ipc.c:2245-2375 | pops the front and resumes the first sender |
| Mailbox.Ring.ResetAll | rt-thread/src/ipc.c:2393-2425 | empties the mailbox and both wait lists |
| MailboxSteps.StepKeeps | rt-thread/src/ipc.c:1991-2425 | every section of send, urgent, receive, reset and every timeout keeps: exact wait lists, and queued messages at most the receivers resumed but not yet rechecking while one waits; likewise for senders and free cells |
| MailboxSteps.EveryRun | rt-thread/src/ipc.c:1991-2425 | in every interleaving there is no lost wakeup |
| MailboxSteps.NobodySleepsOnWork | rt-thread/src/ipc.c:2024-2367 | once every resumed thread has rechecked, a waiting receiver means an empty mailbox and a waiting sender a full one, despite stealing and timeouts |
| MailboxCalls.CallsHonoured | rt-thread/src/ipc.c:1991-2375 | over every run, with a record of each thread's last call: whenever a call ends or the messages change, a sent value has become the last message, an urgent one the first, and a receive has handed over the front one, through any sleep and recheck |
| MailboxCalls.SendStarts | rt-thread/src/ipc.c:2024-2120 | a send goes in at once if there is room, else fails with EFULL for timeout 0, else sleeps in its place; an urgent one never sleeps |
| MailboxCalls.RecvStarts | rt-thread/src/ipc.c:2280-2375 | a receive takes the first message at once, else fails with ETIMEOUT for timeout 0, else sleeps in its place |
| MailboxCalls.FrontResumed | rt-thread/src/ipc.c:2103-2367 | a message that comes in resumes the receiver in front, one that goes out the sender in front, with what was left of its timeout; the others keep their order |
| MailboxCalls.ExpireOutcome | rt-thread/src/ipc.c:2043-2071 | a sleeper whose time runs out comes back with ETIMEOUT and leaves the list; one that sleeps for ever never does |
| MailboxCalls.ResetOutcome | rt-thread/src/ipc.c:2393-2425 | a reset empties the mailbox and sends every sleeper back with an error |
| MailboxRun.Postbox.constructor | rt-thread/src/ipc.c:1780-1815 | an initialised mailbox with no thread in it is in order |
| MailboxRun.Postbox.SendSection | rt-thread/src/ipc.c:2024-2120 | one turn of a waiting send, from its look at the counter on: the message goes into the ring without the overflow branch and the first receiver is woken, or the thread gives up, or it sleeps where the wait list's order puts it |
| MailboxRun.Postbox.RecvSection | rt-thread/src/ipc.c:2280-2375 | one turn of a receive: the first message comes out and the first sender is woken, or the thread gives up or sleeps |
| MailboxRun.Postbox.Perform | rt-thread/src/ipc.c:1991-2425 | any action of any thread, carried out on cells, offsets and counter while any number of others sleep or are about to look again, keeps the object valid and reaches the state of the step |
| MailboxRun.Postbox.PerformAll | rt-thread/src/ipc.c:1991-2425 | so does every sequence of actions: from an initialised object every interleaving ends valid, in the state of the run |
| MailboxRun.Postbox.Words | rt-thread/src/ipc.c:1991-2375 | validity means: entry is the number of messages and at most the size; in_offset is (out_offset + entry) mod size; the k-th message lies k cells behind out_offset |
| MessageQueue.Queue.constructor | rt-thread/src/ipc.c:2486-2537 | all blocks are chained on the free list, the last one first |
| MessageQueue.Queue.Take | rt-thread/src/ipc.c:2794-2852 | the head of the free chain is detached, or there is none |
| MessageQueue.Queue.CopyIn | rt-thread/src/ipc.c:2859-2867 | the message is in the block, and no other block changes |
| MessageQueue.Queue.CopyOut | rt-thread/src/ipc.c:3184-3190 | at most a whole message comes out |
| MessageQueue.Queue.Append | rt-thread/src/ipc.c:2868-2909 | the block becomes the tail of the queue chain; head and tail are null together; entry is the queue length; EFULL is never returned; the headers of all other blocks in flight are as they were |
| MessageQueue.Queue.Prepend | rt-thread/src/ipc.c:3000-3038 | the block becomes the head, with the same guarantees for entry, tail and the blocks in flight |
| MessageQueue.Queue.Pop | rt-thread/src/ipc.c:3160-3182 | the head leaves the queue chain and is in neither chain |
| MessageQueue.Queue.Give | rt-thread/src/ipc.c:3190-3216 | the block is back on the free chain, the first sender is resumed, and the headers of all other blocks in flight are as they were |
| MessageQueue.Queue.ResetAll | rt-thread/src/ipc.c:3234-3282 | the whole queue chain moves to the free chain block by block, nobody waits, and the headers of the blocks in flight are as they were |
| MessageQueueSteps.StepKeeps | rt-thread/src/ipc.c:2749-3282 | every action of every thread, in the gaps too, keeps: queue chain, free chain and blocks in flight partition the pool; exact wait lists; bytes copied so far are right; no lost wakeups |
| MessageQueueSteps.EveryRun | rt-thread/src/ipc.c:2749-3282 | all of that in every run from an initialised queue, for the two chains as sequences; Channel.PerformAll says the same of the words |
| MessageQueueSteps.NoOverflow | rt-thread/src/ipc.c:2884-2890 | whoever is about to link a block finds the queue shorter than the pool; entry is that length by Channel.Words |
| MessageQueueSteps.RefinesSequence | rt-thread/src/ipc.c:2749-3282 | seen as a sequence of messages, the link of a block appends or prepends as the thread's place says, a receive pops the front, a reset empties, and nothing else changes it, not even the copying of bytes in the gaps; that the place says what the caller asked for is MessageQueueCalls.CallsHonoured |
| MessageQueueSteps.LinkRefines | rt-thread/src/ipc.c:2868-2880 | the message that is appended or prepended carries the sender's buffer |
| MessageQueueSteps.ReceivedIntact | rt-thread/src/ipc.c:3184-3190 | in every run a completed receive hands over the message it popped, cut to the size asked for |
| MessageQueueSteps.NobodySleepsOnWork | rt-thread/src/ipc.c:2794-3208 | once every resumed thread has rechecked, nobody waits for a message while one is queued, nor for a block while one is free |
| MessageQueueCalls.CallsHonoured | rt-thread/src/ipc.c:2749-3216 | over every run, with a record of each thread's last call: a thread that finishes a send has put that call's own buffer behind all messages, one that finishes an urgent send before them, and one that finishes a receive gets the message that stood in front, cut to that call's own size; through any sleep, recheck and interleaving |
| MessageQueueCalls.SleepsForItsCall | rt-thread/src/ipc.c:2794-2853 | over every run whoever sleeps does so for the call it made last, for no longer in all than that call said |
| MessageQueueCalls.SendStarts | rt-thread/src/ipc.c:2768-2852 | a send is refused for a buffer longer than a message, starts on a free block, fails with EFULL for timeout 0, or sleeps in its place |
| MessageQueueCalls.UrgentStarts | rt-thread/src/ipc.c:2975-2998 | an urgent send is refused, starts on a free block, or fails with EFULL; it never sleeps |
| MessageQueueCalls.RecvStarts | rt-thread/src/ipc.c:3094-3182 | a receive takes the front message out at once, fails with ETIMEOUT for timeout 0, or sleeps in its place |
| MessageQueueCalls.SendGoesThrough | rt-thread/src/ipc.c:2749-2909 | a send with a block free, copied byte by byte and linked: its buffer is the last message |
| MessageQueueCalls.UrgentGoesThrough | rt-thread/src/ipc.c:2961-3038 | the same for an urgent send: its buffer is the first message |
| MessageQueueCalls.RecvGoesThrough | rt-thread/src/ipc.c:3071-3216 | a receive with a message there, copied byte by byte: the caller has the first message cut to size, and the rest stays |
| MessageQueueCalls.FrontResumed | rt-thread/src/ipc.c:2892-3208 | a link resumes the receiver in front, a block given back the sender in front, with what was left of its timeout |
| MessageQueueCalls.ExpireOutcome | rt-thread/src/ipc.c:2813-2840 | a sleeper whose time runs out comes back with ETIMEOUT and leaves the list |
| MessageQueueCalls.ResetOutcome | rt-thread/src/ipc.c:3234-3282 | a reset frees the blocks of all messages, the last one first, and sends every sleeper back with an error; blocks in flight stay with their threads |
| MessageQueueRun.Channel.Perform | rt-thread/src/ipc.c:2749-3282 | any action of any thread, carried out on head, tail, free, entry, the headers and the blocks while any number of other threads are in their gaps, keeps the object valid and reaches the state of the step; EFULL is never taken |
| MessageQueueRun.Channel.PerformAll | rt-thread/src/ipc.c:2749-3282 | so does every sequence of actions: from an initialised object every interleaving ends valid, in the state of the run |
| MessageQueueRun.Channel.Words | rt-thread/src/ipc.c:2749-3282 | validity means: entry is the number of messages; head and tail are null together, exactly if entry is 0; both chains thread their blocks and end in null |
| MessageQueueRun.Channel.LinkSection | rt-thread/src/ipc.c:2868-2909 | the second section of a send finds its header still cleared, whoever acted in the gap, and links the block without overflow |
| MessageQueueRun.OthersFill | rt-thread/src/ipc.c:2859-2867 | a thread that leaves its gap does not hold, and its section does not chain, the block of any other thread still filling one |
| MemPool.AllocKeeps | rt-thread/src/mempool.c:319-407 | an allocation returns a block that was not out and is out afterwards, and fails exactly if all are out |
| MemPool.FreeKeeps | rt-thread/src/mempool.c:415-465 | freeing keeps the pool in order and is undone by the next allocation |
| MemPool.EveryRun | rt-thread/src/mempool.c:89-465 | through any run of allocations and frees of live blocks the free list has distinct blocks, none of them out, and free plus outstanding is the total |
| MemPool.Inside | rt-thread/src/mempool.c:89-136 | every block with its header lies inside the pool and leaves room for the block size, a pool of one block included |
| MemPool.Disjoint | rt-thread/src/mempool.c:89-136 | a block ends where the next one begins, or before |
| MemPool.AlignMeans | rt-thread/src/mempool.c:107-116 | block sizes are rounded up to the next multiple of four, the pool's size down |
| MemPool.CountMeans | rt-thread/src/mempool.c:114-116 | there are as many blocks as fit |
| MemPool.PoolObject.constructor | rt-thread/src/mempool.c:110-130 | the headers thread all blocks in ascending order |
| MemPool.PoolObject.AllocNow | rt-thread/src/mempool.c:387-401 | behind the waiting loop: the head of the free list is detached, its header marked as out and the counter lowered, as Alloc says; the turns of the loop are MemPoolRun.SharedPool.TakeSection |
| MemPool.PoolObject.FreeBlock | rt-thread/src/mempool.c:415-465 | the header links and the counter compute Free |
| MemPoolRun.NextKeeps | rt-thread/src/mempool.c:319-465 | every turn of a waiting allocation, every free of a block that is out and every timeout keep: pool in order, exact wait list, and while a thread sleeps no more free blocks than threads resumed but not yet looking again |
| MemPoolRun.EveryInterleaving | rt-thread/src/mempool.c:319-465 | in every interleaving of waiting allocations, frees and timeouts no block is out twice, none gets lost, and no wakeup is lost |
| MemPoolRun.NobodySleepsOnBlocks | rt-thread/src/mempool.c:335-385 | once every resumed thread has looked again, a thread still sleeping means that all blocks are out |
| MemPoolRun.TakeStarts | rt-thread/src/mempool.c:335-401 | an allocation gets the front block at once, fails for timeout 0, or sleeps in front of all others |
| MemPoolRun.RecheckOutcome | rt-thread/src/mempool.c:377-385 | looking again with what is left of the timeout: the front block, the end, or sleep for the rest |
| MemPoolRun.GiveOutcome | rt-thread/src/mempool.c:430-455 | a block given back is first in line, and the sleeper in front wakes |
| MemPoolRun.ExpireOutcome | rt-thread/src/mempool.c:356-375 | a sleeper whose time runs out fails and leaves the list, and no block moves; one that sleeps for ever stays |
| MemPoolRun.LastInFirstOut | rt-thread/src/mempool.c:352-354 | of two threads that fall asleep one after the other, the next free wakes the second |
| MemPoolRun.SharedPool.TakeSection | rt-thread/src/mempool.c:335-407 | one turn of the loop on headers, list and counter: a block is detached, or the thread gives up, or it sleeps in front of all others |
| MemPoolRun.SharedPool.Perform | rt-thread/src/mempool.c:319-465 | any call of any thread, carried out on headers, list and counter while any number of others sleep or are about to look again, keeps the object valid and reaches the state of the step |
| MemPoolRun.SharedPool.PerformAll | rt-thread/src/mempool.c:319-465 | so does every sequence of calls, in any interleaving |
| Memory.SpreadBytes | rt-thread/src/kservice.c:205-215 | the fill word consists of four copies of the fill byte |
| Memory.Memset | rt-thread/src/kservice.c:175-246 | word loops and byte loops together set exactly count bytes from s on to the low byte of c, for every length and alignment |
| Memory.Memcpy | rt-thread/src/kservice.c:260-330 | word loops and byte loops together copy the old source bytes and change nothing else, for blocks that do not overlap or overlap with the destination in front |
| Memory.Memmove | rt-thread/src/kservice.c:346-365 | the old source bytes arrive for every overlap of source and destination |
| Format.Split | rt-thread/src/kservice.c:663-694 | dividing digit by digit yields the numeral, last digit first |
| Format.DigitsFit | rt-thread/src/kservice.c:713-770 | the digits of a 32-bit number fit the 16-character scratch buffer |
| Format.Sink.PrintNumber | rt-thread/src/kservice.c:713-871 | sign, padding, zeros and digits are appended exactly as NumberText lays them out, whatever part of it fits |
| Format.NumberAppended | rt-thread/src/kservice.c:779-870 | the pieces in the order the code emits them are the assembled number |
| Format.ReadSpec | rt-thread/src/kservice.c:926-990 | flags, width, precision and qualifier are read as TakeSpec says, with the arguments they use up |
| Format.PutPiece | rt-thread/src/kservice.c:990-1130 | each conversion appends the text of its piece and moves on in format and arguments |
| Format.Vsnprintf | rt-thread/src/kservice.c:886-1146 | for every format, argument list and size the return value is the length of the unbounded output; with room the buffer holds the longest fitting prefix and a terminator; nothing outside the buffer is written |
| FormatMeaning.NumeralReads | rt-thread/src/kservice.c:735-780 | read to the base, a numeral is the number, without leading zeros, in the letters asked for; octal is written in hexadecimal digits |
| FormatMeaning.NumericMeans | rt-thread/src/kservice.c:1074-1120 | d and i print the argument with sign in decimal, u without, x and o in small and X in capital hexadecimal digits; h takes the low half; sign, zeros, digits and filling stand in the places flags, width and precision ask for |
| FormatMeaning.OtherMeans | rt-thread/src/kservice.c:996-1072 | c, p, the percent sign, the end of the format, and characters that convert nothing |
| FormatMeaning.StringMeans | rt-thread/src/kservice.c:1019-1050 | s prints the string up to its terminator, cut to the width and to a precision above 0, filled up to the width |
| FormatMeaning.SpecReads | rt-thread/src/kservice.c:906-994 | a specification written from any flags, width, precision and qualifier is read back as exactly those |
| FormatMeaning.StarsRead | rt-thread/src/kservice.c:930-975 | a star takes the width, a negative one meaning left, or the precision, a negative one meaning 0, from the arguments |
| FlashText.TextsAreFormatted | storage/flashwork.c:87-93 | what the flash code prints with "%d" and "index:%d" is what the formatter produces |
| FlashText.PrintParse | storage/flashwork.c:69-93 | for every 32-bit word, printing it in decimal and parsing it back gives the word |
| FlashText.AtolReads | storage/flashwork.c:69-85 | a stored number is read with white space and one sign in front |
| FlashText.IndexKeysDiffer | storage/flashwork.c:145-152 | different slots have different keys, and none of them is the key of the mask or the lock |
| Bits.BitAfterSet | storage/flashwork.c:124-138 | setting a bit changes that bit only |
| Bits.BitAfterClear | storage/flashwork.c:140-143 | clearing a bit changes that bit only |
| RegistryProofs.SetIsLocal | storage/flashwork.c:327-447 | a setter's walk changes, and saves, the one device with that address, and saves it only if the value differs |
| RegistryProofs.SetKeeps | storage/flashwork.c:327-447 | battery, leak, wire, online and level setters keep the registry in order: distinct addresses and slots, exact mask, every device mirrored in flash |
| RegistryProofs.CreateKeeps | storage/flashwork.c:187-232 | creating keeps the registry in order, and success means the address is registered; with what, is RegistryOutcomes.CreateOutcome |
| RegistryOutcomes.CreateOutcome | storage/flashwork.c:187-232 | nothing changes for a known address, or with twelve devices; otherwise exactly one device is added behind the others, with the given address, type and level, online, all flags 0, in the lowest slot none of them has |
| RegistryOutcomes.SettersOutcome | storage/flashwork.c:297-447 | each setter changes its own property of the device with that address, and no other property or device |
| RegistryOutcomes.HeartRecvOutcome | storage/flashwork.c:577-594 | a heart beat marks exactly the sender as heard and online, with its level |
| RegistryOutcomes.HeartWalkOutcome | storage/flashwork.c:596-619 | the heart check clears the heard flag of every device that was heard, puts every other one offline, and leaves gateways alone |
| RegistryOutcomes.RecvClearOutcome | storage/flashwork.c:563-575 | start-up clears the heard flag of every device but gateways, and changes nothing else |
| RegistryOutcomes.GatewayIdMeans | storage/flashwork.c:170-184 | the address of the first gateway, 0 if there is none |
| RegistryOutcomes.GatewayHeartOutcome | applications/heart.c:32-48 | every hour the gateway's heard flag is cleared, and nothing else |
| RegistryProofs.CreateFailsWhenFull | storage/flashwork.c:187-232 | creating fails exactly for a new address with twelve devices registered |
| RegistryProofs.DeleteKeeps | storage/flashwork.c:234-254 | deleting keeps the registry in order, succeeds exactly for a known address, and removes that device and no other |
| RegistryProofs.NoneLeft | storage/flashwork.c:256-283 | delete-by-type removes exactly the devices of that type |
| RegistryProofs.HeartRecvKeeps | storage/flashwork.c:577-594 | a heart beat keeps the registry in order, the types, the stored lock, and adds no leak |
| RegistryProofs.HeartWalkKeeps | storage/flashwork.c:596-614 | so does the heart check, although it writes flash while it walks the list |
| RegistryProofs.AtMostTwelve | storage/flashwork.c:124-138 | a registry in order has at most twelve devices |
| RegistryProofs.MaskBelow4096 | storage/flashwork.c:195-198 | and its mask is below 4096 |
| RegistryProofs.RebootRestores | storage/flashwork.c:95-122 | reloading yields the same mask and the same devices, each once, with equal slot, type, address, battery, leak, wire and online, in a registry in order |
| RegistryProofs.LeakSurvivesReboot | storage/flashwork.c:95-122 | a leak is on record after a reboot exactly if it was before |
| RegistryLoops.RegistryObject.ReadDevices | storage/flashwork.c:95-122 | the loop over 32 bits computes Reload |
| RegistryLoops.RegistryObject.Find | storage/flashwork.c:154-168 | the first device with that address, or none |
| RegistryLoops.RegistryObject.GetFreeSlot | storage/flashwork.c:124-138 | the lowest free slot is claimed, or -1 is returned and nothing changes |
| RegistryLoops.RegistryObject.CreateDevice | storage/flashwork.c:187-232 | the steps of the source compute Create, which adds the device CreateOutcome describes |
| RegistryLoops.RegistryObject.DeleteDevice | storage/flashwork.c:234-254 | the steps of the source compute Delete |
| RegistryLoops.RegistryObject.DeleteAllOf | storage/flashwork.c:256-283 | the loop computes DeleteKind on the list as it was |
| RegistryLoops.RegistryObject.SetField | storage/flashwork.c:327-447 | the loop computes Set, saving only devices whose value changes |
| RegistryLoops.RegistryObject.SetRecvFlag | storage/flashwork.c:297-309 | the loop computes SetRecv |
| RegistryLoops.RegistryObject.HeartRecvClear | storage/flashwork.c:563-575 | the loop clears the receive flag of every device but gateways |
| RegistryLoops.RegistryObject.HeartReceived | storage/flashwork.c:577-594 | one device is marked received, online and with its level; success exactly for a known address |
| RegistryLoops.RegistryObject.LeakFind | storage/flashwork.c:345-359 | true exactly if some device has its leak flag set |
| RegistryLoops.RegistryObject.WireLostFind | storage/flashwork.c:379-393 | true exactly if some device has lost its wire |
| RegistryLoops.RegistryObject.OfflineFind | storage/flashwork.c:449-479 | true exactly if some device of the type is offline |
| RegistryLoops.RegistryObject.HeartCheckWalk | storage/flashwork.c:596-614 | the loop computes HeartWalk |
| RegistryLoops.RegistryObject.GatewayFind | storage/flashwork.c:170-184 | the address of the first gateway, or 0 |
| RegistryLoops.RegistryObject.GatewayHeartCheck | applications/heart.c:32-48 | the receive flag of the gateway is cleared if it was set |
| RegistryLoops.RegistryObject.CloneUpload | storage/flashwork.c:512-544 | the loop builds the payload entry by entry and counts the entries |
| RegistryLoops.RegistryObject.OfflineUpload | storage/flashwork.c:481-510 | the loop builds the addresses of the offline devices and counts them |
| RegistryLoops.UploadRoundTrip | storage/flashwork.c:512-544 | the sync payload decodes to exactly the registered devices other than gateways |
| RegistryOutcomes.SyncUploadMeans | storage/flashwork.c:512-544 | a receiver of the sync upload learns of exactly the devices other than gateways, with type, online, level and battery |
| RegistryOutcomes.OfflineUploadMeans | storage/flashwork.c:481-510 | a receiver of the offline upload learns exactly the addresses of the devices other than gateways that are offline |
| RegistryLoops.UploadFits | applications/gateway_api.c:489-516 | for a registry in order the sync payload is at most 100 bytes, the offline payload at most 50, and their frames fit the 253-byte queue record |
| Codec.StepInjective | radio_protocol/radio_protocol_utils.c:21-43 | for equal input bytes different CRC states stay different, and for equal states different bytes give different ones |
| Codec.CrcSeesOneByte | radio_protocol/radio_protocol_utils.c:38-43 | changing any one byte changes the CRC |
| CrcPolynomial.CrcIsRemainder | radio_protocol/radio_protocol_utils.c:21-43 | the CRC of every byte string is the remainder of its polynomial times x^8 divided by x^8 + x^2 + x + 1, by long division on single coefficients |
| CrcPolynomial.WithCrcDivisible | radio_protocol/radio_protocol_utils.c:112-119 | with its CRC behind it every byte string is a multiple of that polynomial |
| Codec.VersionNeverRejects | radio_protocol/radio_protocol.c:41-44 | the version test rejects nothing |
| Codec.CorruptionRejected | radio_protocol/radio_protocol.c:23-52 | changing any single byte of an accepted frame of at most 65536 bytes makes the parser reject it |
| Codec.CorruptionDetected | radio_protocol/radio_protocol.c:46-52 | a changed byte is noticed exactly if it is the start byte or the CRC, lies in the part the 16-bit length covers, or is the network byte with another region |
| Codec.ParseBuild | radio_protocol/radio_protocol.c:23-72 | for payloads up to 239 bytes the parser accepts every frame the senders build and recovers message type, device type, both addresses, command, payload length and payload |
| Codec.FrameBytes | radio_protocol/radio_protocol_endunit.c:253-267 | every byte of a frame: 0xEF, 0x31, acknowledgement bit with device and message type, both addresses highest byte first, command, length, payload, CRC |
| Codec.ParseMeans | radio_protocol/radio_protocol.c:23-72 | every accepted frame has at least 14 bytes, start byte and region, and its fields are those bytes |
| Codec.AcceptsExactly | radio_protocol/radio_protocol.c:23-52 | a frame is accepted exactly if it has 14 bytes or more, the start byte, the region, and the CRC of its covered part at its end |
| Codec.RssiMeans | radio_protocol/radio_protocol.c:60-72 | the level is 0 below -89 dBm, 2 from -78 dBm on, and 1 in between |
| Codec.CoveredMeans | radio_protocol/radio_protocol_utils.c:38-43 | the covered length is the length without the CRC, cut to 16 bits |
| Codec.TxBuffer.SetByte | radio_protocol/radio_protocol_utils.c:56-61 | writes one byte at the offset and keeps what is in front |
| Codec.TxBuffer.SetWord | radio_protocol/radio_protocol_utils.c:89-98 | writes four bytes, most significant first |
| Codec.TxBuffer.SetBuffer | radio_protocol/radio_protocol_utils.c:73-81 | copies the payload behind what is there |
| Codec.TxBuffer.SetCrc | radio_protocol/radio_protocol_utils.c:112-119 | appends the CRC of everything in front, which is the remainder CrcPolynomial.CrcIsRemainder says |
| Codec.TxBuffer.Send | radio_protocol/radio_protocol_endunit.c:253-267 | writing the pieces one after the other queues exactly the frame, which fits the record |
| ControllerProofs.StepKeeps | applications/valve_work.c:80-342 | every event keeps: locked implies closed, the stored lock is the lock, registry in order with one gateway and one door unit, status and priority in force agree, a leak alarm means locked and closed; every event but the end of the learn timer keeps the leak alarm |
| ControllerProofs.RaiseKeeps | applications/water_work.c:44-159 | raising any of the ten warnings keeps all that, whatever it does to valve and lock, and a leak warning always ends in the leak alarm |
| ControllerProofs.BootKeeps | applications/valve_work.c:318-342 | start-up from the flash of any registry in order establishes all that, with the leak alarm on if a leak is on record |
| ControllerProofs.HighestIsMaximum | applications/water_work.c:44-61 | the recorded priority is the greatest one raised |
| ControllerProofs.ReplaceStep | radio_protocol/radio_protocol_gateway.c:68-82 | registering a gateway or door unit first deletes the one there was, so there is never more than one |
| ControllerProofs.EndunitFrameKeeps | radio_protocol/radio_protocol_endunit.c:213-250 | every frame of an end unit, known or not, keeps the invariant and the leak alarm |
| ControllerProofs.DoorFrameKeeps | radio_protocol/radio_protocol_doorunit.c:154-187 | so does every frame of a door unit |
| ControllerProofs.GatewayFrameKeeps | radio_protocol/radio_protocol_gateway.c:145-187 | and of a gateway |
| ControllerProofs.MotionFrameKeeps | radio_protocol/radio_protocol_motion.c:122-154 | and of a motion sensor |
| ControllerProofs.KeyOnKeeps | applications/key.c:27-81 | so does a click of the on key in every status |
| ControllerProofs.KeyOffKeeps | applications/key.c:83-151 | and of the off key |
| ControllerProofs.KeyOnHoldKeeps | applications/key.c:184-206 | and every second the on key is held, the motor check and the factory reset included |
| ControllerProofs.KeyOffHoldKeeps | applications/key.c:153-175 | and the off key, learn mode and the factory reset included |
| ControllerProofs.StartLearnKept | applications/water_work.c:219-242 | and starting and ending learn mode |
| ControllerProofs.ClearKept | applications/water_work.c:183-190 | clearing the warnings keeps the invariant, and loses the leak alarm only if a leak is on record while the alarm is on |
| ControllerProofs.ReactKeeps | applications/water_work.c:71-159 | every callback leaves the status its warning is bound to, and the ones for a leak and for an ultra low battery a locked, closed valve with the lock stored |
| ValveProofs.CloseShuts | applications/valve_work.c:103-125 | a close that returns EOK leaves the valve shut (closed, outputs off, no turn-back timer running); any close does exactly if the motors are sound or no turn-back timer runs |
| ValveProofs.StepSafe | applications/valve_work.c:60-316 | every event but a restart leaves a shut valve shut unless valve_open succeeded, drives no output of a dead valve that is off, and keeps the verdicts of the motor checks on record |
| ValveProofs.ShutOrOpened | applications/valve_work.c:80-101 | one event, restarts included: a closed valve is opened only by a valve_open that returned EOK in that event, with the motors untouched before it, the lock off and the motors sound; a shut one stays shut or is opened so; verdicts stay on record |
| ValveProofs.DrivenOnlyAfterOpen | applications/valve_work.c:80-316 | whenever a run from a shut valve ends with anything but a shut valve, one of its events opened the valve from closed by a valve_open that returned EOK |
| ValveProofs.ClosedUntilOpened | applications/valve_work.c:103-125 | after a close, no run of any length ends with a motor output driven open unless one of its events opened the valve by a valve_open that returned EOK, if and only if the motors were sound or no turn-back timer was running; in particular after every close that returned EOK |
| ValveProofs.DeadStaysDead | applications/valve_work.c:80-184 | once closed with a failed motor and no check pending, no handler reopens the valve before a restart, no output that is off is driven, and outputs that are all off stay so |
| ValveProofs.VerdictsOnRecord | applications/valve_work.c:155-316 | over every run, restarts included: a motor on record as failed makes the valve unsound, and an unsound valve has a failed motor on record or a check under way; so a dead valve always has a failed motor on record |
| CommandProofs.WishesGranted | applications/valve_work.c:80-232 | for every event but a restart, one table written from statuses, command bytes, timers and priorities says whether it asks to close, to lock and close, to open, to unlock and open, or nothing; and exactly that happens to valve, outputs and lock |
| CommandProofs.ClosesExactly | applications/valve_work.c:103-125 | one event closes an open valve if and only if the table says so, or it restarts the unit |
| CommandProofs.OpensExactly | applications/valve_work.c:80-101 | one event opens a closed valve if and only if the table says so, the motors are sound, and the lock is off or taken off by the same event |
| CommandProofs.LocksExactly | applications/valve_work.c:127-143 | the lock goes on exactly with the events that ask to lock and close, and off exactly with those that ask to unlock and open |
| ControllerOutcomes.CloseOutcome | applications/valve_work.c:103-125 | a close switches the outputs off; with sound motors it succeeds and ends every timer of the valve, with a failed one it fails and leaves status and timers alone; nothing else changes |
| ControllerOutcomes.OpenOutcome | applications/valve_work.c:80-101 | an open is refused by the lock and by a failed motor; otherwise both outputs are driven and the motor check is the only timer of the valve that runs |
| ControllerOutcomes.CheckOutcome | applications/valve_work.c:155-184 | a motor check turns exactly the motors back whose input is low, and only of an open valve |
| ControllerOutcomes.LeftBackOutcome | applications/valve_work.c:234-251 | after turning back, a motor whose input is high is driven and watched on; one whose input is low is a failure, with its warning |
| ControllerOutcomes.RightBackOutcome | applications/valve_work.c:253-270 | the same for the right motor |
| ControllerOutcomes.LeftCheckOutcome | applications/valve_work.c:272-293 | at the end of the check a motor whose input is low has passed; with the other one sound too the valve is sound and the warning of a failed motor over; one whose input is high is a failure |
| ControllerOutcomes.RightCheckOutcome | applications/valve_work.c:295-316 | the same for the right motor |
| ControllerOutcomes.RaiseOutcome | applications/water_work.c:44-159 | each of the ten warnings, with its own grade and status, takes over exactly if it is at least as grave as the one in force, and is on record either way |
| ControllerOutcomes.ClearOutcome | applications/water_work.c:183-190 | clearing leaves no warning in force or on record and the status of the valve, and changes nothing else |
| ControllerOutcomes.OfflineOutcome | applications/water_work.c:203-212 | the offline warning is over exactly when no end unit is offline any more |
| ControllerOutcomes.LearnOutcome | applications/water_work.c:35-242 | learn mode starts in a status that obeys commands, ends when asked again, and ends with its timer |
| ControllerOutcomes.KeyOffOutcome | applications/key.c:83-151 | a click of the off key clears the warnings exactly in the status of an abnormal sensor |
| ControllerOutcomes.HoldOutcome | applications/key.c:153-206 | four seconds of holding count; then the on key starts a motor check and the off key learn mode, once |
| ControllerOutcomes.BothKeysOutcome | applications/key.c:215-234 | both keys held for more than four seconds reset the unit, once: no device, lock off, closed |
| ControllerOutcomes.BootOutcome | applications/valve_work.c:318-342 | start-up: the devices as stored, none but a gateway heard; closed, outputs off, no timer running; the lock as stored, unless a leak is on record, which locks and raises the leak alarm |
| ControllerOutcomes.FreeOutcome | applications/key.c:177-213 | releasing a key forgets how long it was held, and leaves the other key's count |
| ControllerOutcomes.ContactsMean | applications/dry_contact.c:57-78 | the valve relay follows the valve; the leak relay is closed in the leak alarm alone; the technical one in exactly six statuses |
| ControllerOutcomes.HourOutcome | applications/rtc.c:20-41 | a motor check every 120 hours and a heart check every 48 |
| ControllerOutcomes.HeartCheckOutcome | storage/flashwork.c:596-619 | the heart check puts offline who was not heard, and warns exactly if an end unit is offline |
| ControllerOutcomes.EndunitOutcome | radio_protocol/radio_protocol_endunit.c:213-250 | after a frame of a registered end unit it has been heard, is online, and its level, battery, leak and wire are what it reports; no other device changes |
| ControllerOutcomes.HeartOutcome | radio_protocol/radio_protocol_endunit.c:27-52 | battery 1 warns of a low battery, 2 of an ultra low one, anything else of none |
| ControllerOutcomes.ReportOutcome | radio_protocol/radio_protocol_endunit.c:152-211 | a reported leak or lost sensor is warned of; the warning is over exactly when the last of them is taken back |
| ControllerOutcomes.GoneOutcome | radio_protocol/radio_protocol_endunit.c:130-150 | in the leak alarm a request to close clears the warnings exactly if no leak is on record any more |
| ControllerOutcomes.DoorOutcome | radio_protocol/radio_protocol_doorunit.c:154-187 | a door unit's frame: heard, online, its level and battery; the delayed close is started in a status that obeys commands, and stopped in any |
| ControllerOutcomes.GatewayOutcome | radio_protocol/radio_protocol_gateway.c:145-187 | a gateway's frame: heard; a sync command removes exactly the device with the address in it |
| ControllerOutcomes.MotionOutcome | radio_protocol/radio_protocol_motion.c:122-154 | a motion sensor's frame: heard, online, its level |
| ControllerOutcomes.StrangersIgnored | radio_protocol/radio_protocol_endunit.c:213-250 | frames of unregistered devices and frames for another unit change nothing but by learning |
| ControllerOutcomes.GatewayJoins | radio_protocol/radio_protocol_gateway.c:54-87 | after a gateway's learn frame exactly one gateway is listed, with the sender's address, unless that address is taken by a device of another kind or twelve others are there |
| ControllerOutcomes.DoorJoins | radio_protocol/radio_protocol_doorunit.c:48-98 | the same for a door unit |
| ControllerOutcomes.Replaced | storage/flashwork.c:256-283 | the newcomer of such a kind is the only one of its kind afterwards and all devices of other kinds stay; if its address is taken by one of those, none of its kind is listed |
| ControllerOutcomes.OthersJoin | radio_protocol/radio_protocol_motion.c:74-120 | end units and motion sensors join behind the others, with their own type, address and level |
| ControllerOutcomes.LearnFrames | radio_protocol/radio_protocol_endunit.c:54-103 | every other learn frame is answered without a change, starts learn mode, or is ignored |
| SafetyProofs.EveryRun | applications/water_work.c:44-190 | in every run from a blank unit: locked implies closed, the stored lock is the lock, the registry invariant with at most twelve devices, one gateway and one door unit, the priority in force is the maximum raised since the last clear, 0 if none was, and a status that belongs to a warning has that warning's priority |
| SafetyProofs.PowerCutLosesNothing | storage/flashwork.c:95-122 | at any point of any run, reloading flash restores the mask, the same devices with their persisted properties, and the lock |
| SafetyProofs.UploadsAlwaysFit | radio/radio_encoder.c:35-43 | at any point of any run the frames of both uploads fit the send queue's record |
| SafetyProofs.LeakStep | applications/water_work.c:35-42 | from any state in order, an event keeps "a leak on record implies leak alarm, priority 8, locked and closed" if and only if it is not the end of the learn timer with a leak on record |
| SafetyProofs.LeaksAreHandled | applications/water_work.c:84-93 | that promise holds throughout every run in which the learn timer does not end with a leak on record, power cuts and factory resets included |
| SafetyProofs.LeakRelay | applications/dry_contact.c:57-78 | in such a run a leak on record means that the poll closes the leak relay and opens the valve and technical alarm relays |
| SafetyProofs.LearnLosesTheLeak | applications/water_work.c:35-42 | a run from a blank unit, its first poll included, in which the learn timer ends the leak alarm and the leaking unit then opens the valve |
| SafetyProofs.DrivenWhileLocked | applications/valve_work.c:105-110 | a run from a blank unit, with its timers ending in the order their periods impose, in which a motor is driven open while the valve is locked and closed because of a leak |
| SafetyProofs.PollAgain | applications/dry_contact.c:50-55 | a poll that finds the level of the poll before changes nothing, so the two runs may have any number of them in between |
| UnitObject.Unit.Handle | applications/valve_work.c:60-342 | for every event the handlers, overwriting their globals as the source does, reach the state the model's step gives and stay in order; a leak on record keeps the valve locked and closed exactly unless the learn timer ends; a shut valve stays shut unless valve_open succeeded in that event; and valve, outputs and lock do exactly what the table of CommandProofs says the event asks for |
| UnitObject.Unit.HandleAll | applications/valve_work.c:60-342 | any sequence of events, handled one after the other, ends in order and in the state of the run |
| UnitObject.Unit.LockAndClose | applications/water_work.c:77-93 | from globals in order: locked, closed, and the lock stored |
| UnitObject.Unit.Close | applications/valve_work.c:103-125 | EOK means shut; and no motor is driven in any continuation before an open succeeds exactly if the result is EOK or no turn-back timer is running |
| UnitObject.Unit.LockValve | applications/valve_work.c:127-134 | from globals in order: the lock is 1, flash says 1, and the registry is in order |
| UnitObject.Unit.UnlockValve | applications/valve_work.c:136-143 | from globals in order: the lock is 0, flash says 0, and the globals are in order again |
| UnitObject.Unit.Enable | applications/water_work.c:44-61 | globals in order stay in order and keep the leak alarm; after a leak warning the alarm is on and the valve locked and closed |
| UnitObject.Unit.EndunitParse | radio_protocol/radio_protocol_endunit.c:213-250 | the steps of the end unit handlers compute EndunitFrame |
| UnitObject.Unit.DoorParse | radio_protocol/radio_protocol_doorunit.c:154-187 | the steps of the door unit handlers compute DoorFrame |
| UnitObject.Unit.GatewayParse | radio_protocol/radio_protocol_gateway.c:145-187 | the steps of the gateway handlers compute GatewayFrame |
| UnitObject.Unit.MotionParse | radio_protocol/radio_protocol_motion.c:122-154 | the steps of the motion sensor handlers compute MotionFrame |
| UnitObject.Unit.PollInput | applications/dry_contact.c:46-79 | an input change drives the valve, and the three relay outputs show what the status calls for |
| UnitObject.Unit.OnHour | applications/rtc.c:20-41 | every 120 hours a motor check, every 48 hours a heart check, every hour the gateway's receive flag |
| UnitObject.Unit.CheckHearts | storage/flashwork.c:596-619 | the heart check raises the offline warning exactly if an end unit is offline |
| UnitObject.Unit.Restart | applications/valve_work.c:318-342 | start-up reads registry and lock back, switches the outputs off and raises a leak on record again |

## Left out

- LED, buzzer, display strip, logging and console: no effect on the modelled state; the calls are left out of the handlers.
- Pin, SPI, UART, clock and radio drivers: pin levels are arbitrary inputs and motor pin writes are state; register access is not part of this model.
- EasyFlash, FAL and SFUD: a map from key to value whose writes succeed; a device record is stored as a value, not as bytes of a C structure; a stored text longer than 31 characters does not occur.
- Memory allocation is taken to succeed and the power not to fail inside one handler; a reboot happens between handlers only.
- Freed list cells are not reused while a delete-by-type loop still stands on them.
- Modbus registers, `valve_single_control` and the `mb_` arrays: the coil callback (`packages/freemodbus-latest/port/user_mb_app.c:229`, `packages/freemodbus-latest/samples/sample_mb_slave.c:95`) enters through the two key click handlers, which are events of the model; `valve_single_control` itself is not modelled, so no run includes a motor written by it.
- Scheduler, thread, timer and object internals: only the three facts named above are used; detach, delete, create and object names are left out.
- Two threads inside different product handlers at once: each handler is one step, and the wait of three seconds in the factory reset is part of its step.
- How long timers of the product run: any running one may end next, so the results about runs cover more runs than the clock allows; the two concrete runs keep the order of the periods.
- Ticks: a timeout is a number that may run out at any time; how long a wait takes is not modelled. Of `rt_tick_get` only the elapsed time used after a wakeup is an input.
- Several mutexes held at once, priorities changed by others, and the order in which the scheduler picks ready threads.
- Over-aligned or differently sized words: `long` and pointers are four bytes, little endian.
- Over-long output: `rt_vsnprintf` counts in unbounded integers, so the wrap-around of its pointer or of its int result is not modelled; widths and precisions read from the format are unbounded too.
- OTA frames, acknowledgement frames and the factory tool: they do not touch the modelled state.
- `MasterStatusChangeToDeAvtive`, `warning_lost_clear`, `factory_water_leak_simulate`: nothing in the files calls them; the warnings only they or missing files raise (master leak, master lost, low temperature) are modelled as warnings, but no event raises them.
- The gateway's transmissions and their payloads, except the sync and offline uploads.
- Event: the 32-bit event word is the set of its one bits, and the received word of a thread is the set it gets.
- Mailbox.Ring: wait lists are sequences in the IPC classes; their links are proved in Lists.
- UnitObject.Unit: the globals of several files are fields of one class, the device list is a sequence (its links are proved in Lists), and one-shot timers are flags.
- Controller.Boot: clearing the receive flags, which the clock thread does when it first runs, is part of start-up.
