# A model of go-uring and its event loops

go-uring is a Go port of liburing with two event loops on top of it. This project models its four
connected cores and proves what each promises, for every interleaving with the kernel and with other
goroutines.

* **The rings** (`SubmissionSpec`, `SubmissionRing`, `CompletionSpec`, `CompletionRing`, over `Words`,
  `RingSlots` and `Entries`). Classes with the shared arrays, wrapping 32-bit counters and power-of-two masks
  of `uring/ring.go`. Each method is proved to act on a wrap-free FIFO queue (`View()`), whatever
  the kernel does in the middle of it: wherever the kernel can step in, what it does there is a
  parameter, so that a contract covers every interleaving.
* **The callback registry** (`RegistrySpec`, `Registry`). Shards of arrays and slow-path maps, proved to be one
  map from (descriptor, nonce) to callback with a 32-bit counter per descriptor.
* **The two reactors.** State machines whose steps are single accesses to shared state, taken by any
  number of callers, and by a publisher, a consumer and the kernel per event loop. `Control` is the channel
  and shutdown skeleton that both share. The network reactor is `NetReactor`, with `NetDispatch` (the
  invariants), `NetRuns` (exactly-once dispatch), `NetPacing` (nonces), `NetSubmission` (the submit flag and link
  adjacency), `NetOrigins` (which call of Queue or Cancel, and which completion, everything comes from), `NetOrder`
  (first come, first served), `NetShutdown`, and two runs in which something goes wrong, `NetOneSlot` and `NetLateSend`. The
  generic reactor is `GenericReactor`, `GenericDispatch`, `GenericRuns`, `GenericOrigins` and `Nonces`, with
  `GenericOneSlot` such a run. `Tallies`, `Pending` and `CallbackLog` are shared vocabulary.
* **Conn.Read and Conn.Write** (`ConnReads`), on top of the network reactor: any number of concurrent callers that
  share one operation object and one reply channel; `ConnHangs` is a run in which a call hangs. And
  `CreateMany`, which sets up groups of rings.

The reactors use the abstract queues; the ring classes implement exactly those queue operations, in particular
one atomic enqueue for QueueSQE.

Five promises turn out not to hold of the code without a condition; each is stated with its exact condition, and
those of the reactors and of connections also with a run for which they fail.

* *Each completion finds its callback* (network reactor). A deadline request takes two slots. If it gets
  only the first, its callback is dropped although its entry stays queued; and a key may be reused while an
  earlier callback is still stored under it. `NetRuns.CorrespondenceForIff` proves, for each identifier by itself
  and whatever happens to others, that callback and request correspond throughout a run if and only if
  neither of these two steps hits that identifier. `NetOneSlot.CallsNil` is a run at whose end the consumer
  calls nil and the program panics, and `NetPacing.PacedRunsDispatchOnce` reduces the second condition to a bound on
  the number of requests on the descriptor.
* *Every linked operation is followed by its timeout* (both reactors). `NetSubmission.LinksClosedIff` and
  `GenericRuns.LinksClosedIff` prove it if and only if every timeout queued so far found a free slot.
  `NetOneSlot.LeavesLinkOpen` and `GenericOneSlot.LeavesLinkOpen` are runs that leave a link open, the latter with
  the next caller's entry right behind it.
* *The program does not panic* (network reactor). A caller that has begun before the stop may send on reqBuss after
  the publisher has closed it, and a consumer may find no callback for a completion and call nil.
  `NetShutdown.PanicIff` proves that a run panics if and only if one of these two happens;
  `NetShutdown.FindsNoneOnlyIfBroken` traces the second to an earlier step that broke the correspondence for the
  identifier. `NetLateSend.Panics` and `NetOneSlot.CallsNil` are runs that panic in either way, the former with
  nothing queued after the stop.
* *A Read or Write returns*. If its request finds no slot, or no second slot for its timeout, or its key is reused,
  its callback is gone. `ConnReads.AnswerableIff` proves that a call that waits can still be answered if and only if
  none of these steps has hit it; otherwise it waits for ever, with the lock. `ConnHangs.Hangs` is such a run.
* *A callback stays reachable under its nonce* (registry): if and only if fewer than 2^32 others are added on the
  descriptor, `RegistrySpec.SurvivesIff`.

What is assumed of the environment: atomics are sequentially consistent; there is at least one ring and its
size is a power of two (at most 2^15 submission and 2^16 completion entries); descriptors are in 0..2^31-1;
callbacks are not nil, return, and (generic reactor) do not re-enter the reactor; Run is called once;
the kernel posts one completion per entry it consumes and drops none.

## Model

| member | source | states |
|---|---|---|
| Words.MaskIsMod | uring/ring.go:203 | masking a counter with 2^k - 1 is taking it modulo 2^k, proved bit by bit |
| Words.OrIsSum | reactor/net.go:26-28 | a bitwise or of a shifted high part and a low part that fits below it is their sum |
| RingSlots.AtWraps | uring/ring.go:262-280 | the slot of a counter is the same whether or not the 32-bit counter has wrapped in between |
| RingSlots.AtDiffers | uring/ring.go:455-469 | positions less than a ring apart name different slots |
| Entries.Fill | uring/syscall.go:128-143 | filling a slot sets every one of its fields and touches no other slot |
| Entries.PrepSqe | uring/operation.go:264-267 | after PrepSQE every field of the slot is the operation's: code, descriptor, address, length, offset, and the opcode flags and buffer group or zero; nothing of its previous contents is left |
| Entries.EntryTells | uring/syscall.go:128-148 | equal entries come from equal flags, user data and operations, up to options that are unset or set to zero |
| SubmissionSpec.HistoryKept | uring/ring.go:262-280 | publishing and consuming lose, add and reorder nothing: consumed, published and private entries together stay the same sequence |
| SubmissionRing.TakeOne | uring/ring.go:262-280 | the kernel, reading through the index array at its head, takes exactly the oldest published entry |
| SubmissionRing.ReserveOne | uring/ring.go:198-211 | the slot handed out holds no entry that the kernel has still to read, also across counter wrap |
| SubmissionRing.RewriteLast | uring/ring.go:219-229 | writing through the pointer to the newest slot changes that entry and none that is published |
| SubmissionRing.IndexOne | uring/ring.go:271-275 | writing one index array element does not disturb what the kernel can see, and the written elements name their own slots |
| SubmissionRing.PublishAll | uring/ring.go:277 | storing the tail publishes all private entries, in order, and nothing else |
| SubmissionRing.Ring.constructor | uring/ring.go:107-127 | a fresh ring, with counters at any 32-bit value, is the empty queue |
| SubmissionRing.Ring.NextSqe | uring/ring.go:198-211 | succeeds if and only if the ring is not full; hands out a spare slot inside the buffer; otherwise only the kernel's consumption has changed the queue |
| SubmissionRing.Ring.FillLast | uring/ring.go:225-227 | the three stores into the slot, interleaved with the kernel, amount to setting the newest entry once |
| SubmissionRing.Ring.QueueSqe | uring/ring.go:219-229 | is one atomic enqueue, or, exactly if the ring is full, nothing; the entry added holds, field by field, the operation's arguments, the flags and the user data |
| SubmissionRing.Ring.WriteIndex | uring/ring.go:271-275 | one turn of the flush loop, with the kernel consuming meanwhile |
| SubmissionRing.Ring.FlushSq | uring/ring.go:262-280 | publishes everything private, whatever the kernel consumes between its steps; returns exactly how many published entries are left; restores kTail == sqeHead; with nothing new the index array is not written |
| SubmissionRing.Ring.Submit | uring/ring.go:232-258 | conservation under full, partial and failed enters: nothing stays private, history is unchanged, and the kernel is asked for exactly the published entries left, old ones included, unless a polling thread is awake |
| SubmissionRing.RunScript | uring/ring.go:198-280 | over any run of queueing, submitting and consuming: what was consumed, then what is visible, then what is private, is exactly the accepted entries, once each and in order |
| SubmissionRing.AcceptedHolds | uring/ring.go:219-229 | the p-th entry that any run has had accepted, and so the p-th that the kernel consumes, holds field by field the operation, flags and user data of the p-th call that succeeded |
| CompletionSpec.RunGrows | uring/ring.go:33-47 | any kernel activity, posts and flushes of the backlog in any order, only appends to the ring, and no event is lost between ring and backlog |
| CompletionSpec.FlushGrows | uring/ring.go:481-485 | flushing the backlog only appends to the ring and conserves events |
| CompletionSpec.PeekStops | uring/ring.go:421-453 | the last look of the loop: events removed, result and error, relative to the events there when it loads the tail, whatever the kernel does afterwards |
| CompletionSpec.FoundStays | uring/ring.go:421-453 | an event that is there to be found is found, whatever is posted behind it |
| CompletionSpec.DeliveredTwice | reactor/net.go:195-213 | deliveries compose: order, conservation and completeness carry over from turn to turn |
| CompletionRing.AppendOne | uring/ring.go:45-47 | storing at the tail slot and advancing the tail appends one event to the queue |
| CompletionRing.AdvanceBy | uring/ring.go:417-419 | advancing the head dequeues exactly the oldest events |
| CompletionRing.Ring.Post | uring/ring.go:29-47 | the kernel's post is the queue's: to the ring if there is room, else to the backlog |
| CompletionRing.Ring.FlushBacklog | uring/ring.go:479-489 | the kernel moves backlogged events to the ring oldest first, as far as there is room |
| CompletionRing.Ring.AdvanceCq | uring/ring.go:417-419 | moves the head by any n, and dequeues the n oldest events if there are as many |
| CompletionRing.AdvanceIff | uring/ring.go:417-419 | advancing leaves no more events than there were if and only if it does not go past the tail |
| CompletionRing.Ring.FillPointers | uring/ring.go:463-466 | the batch's pointers name the slots from the head on, all different; the rest of the buffer is untouched |
| CompletionRing.Ring.PeekBatch | uring/ring.go:455-469 | returns as many pointers as fit and were ready when the tail was read, to the oldest events in order, although the kernel goes on meanwhile |
| CompletionRing.Ring.PeekedStays | uring/ring.go:455-489 | no kernel activity changes what is read through a peeked pointer before it is advanced past |
| CompletionRing.Ring.PeekCqEventBatch | uring/ring.go:479-489 | takes what was ready, up to the size of the buffer; an empty batch means that nothing was ready at the first load and that there was no backlog when the flag was read, or the flush failed; events are conserved; with a quiet kernel an empty batch means that ring and backlog are empty; the kernel is entered only to flush, with nothing to submit |
| CompletionRing.Ring.ReadBatch | reactor/net.go:196-210 | reads exactly the peeked events, in order, although the kernel posts and flushes before each read |
| CompletionRing.Ring.TakeBatch | reactor/net.go:195-213 | reading a batch and advancing past it, with the kernel active all the while, delivers exactly the events that were oldest and conserves the rest |
| CompletionRing.Ring.DeliverAll | reactor/net.go:195-213 | peek, process, advance until empty, with the kernel active at every point, also between the advance and the next load of the tail: all that was ready is delivered, in ring order, nothing twice, nothing lost, across wrap; with a quiet kernel everything is delivered, its backlog included; and it terminates |
| CompletionRing.Ring.PeekCqe | uring/ring.go:421-453 | relative to its last load of the tail: removes exactly the leading internal timeouts that did not fail, and the next one if it failed, whose error it returns; otherwise returns the oldest event, which stays the oldest; leaves the rest in order; terminates once the kernel is quiet |
| CompletionRing.Remaining | uring/ring.go:323-329 | what is left to submit never exceeds what was to be submitted, however often the kernel is entered |
| CompletionRing.Ring.Enter | uring/ring.go:323-329 | the contract of io_uring_enter that the wait relies on: enough events only if nothing was offered for submission |
| CompletionRing.Ring.Round | uring/ring.go:290-333 | one round, decided in full: it fails, or returns without entering, or enters, exactly as the event found, the error, the submissions left and the number asked for say; an enter offers exactly what is left to submit; with submissions left no success without an enter |
| CompletionRing.Ring.GetCqEvents | uring/ring.go:289-336 | a nil error comes only with the oldest event that is not an internal timeout, and, unless the last enter was also offered submissions, with min(n, ring size) events ready; an event that is there is returned at once; with something to submit no success without entering the kernel, and every enter is offered exactly what was left at that point; the remaining-submit counter is what the kernel left and never underflows; every error has its cause (a failed internal timeout, the kernel, or nothing to do, nothing there when it looked and no backlog when it read the flag) |
| RequestIds.PackIs | reactor/net.go:26-28 | an identifier is the descriptor plus 2^32 times the nonce |
| RequestIds.RoundTrip | reactor/net.go:26-37 | unpacking gives back descriptor and nonce if and only if the descriptor fits 32 bits |
| RequestIds.UnpackThenPack | reactor/net.go:30-37 | every 64-bit value is the identifier of what it unpacks to |
| RequestIds.ReservedIff | reactor/net.go:16-28 | an identifier is one of the two reserved values exactly for two impossible descriptors |
| RegistrySpec.CounterAfter | reactor/registry.go:42-63 | a descriptor's counter is the number of adds on it, modulo 2^32 |
| RegistrySpec.SurvivesIff | reactor/registry.go:42-63 | a callback that nobody pops is still found under its nonce if and only if fewer than 2^32 others were added on its descriptor |
| Registry.FlattenInverts | reactor/registry.go:95-103 | the descriptor can be computed back from shard and index |
| Registry.FlattenInjective | reactor/registry.go:95-103 | different descriptors never share a shard and index |
| Registry.FlattenOnto | reactor/registry.go:95-103 | every index of every shard belongs to a descriptor |
| Registry.Shard.constructor | reactor/registry.go:27-40 | a fresh shard holds nothing |
| Registry.Shard.Add | reactor/registry.go:42-63 | draws the next nonce and stores the callback, the same on the fast and the slow path, and changes no other index |
| Registry.Shard.Pop | reactor/registry.go:65-80 | returns and removes what is stored, nil if nothing is, and changes no other index |
| Registry.CbRegistry.constructor | reactor/registry.go:82-93 | a fresh registry is the empty table |
| Registry.CbRegistry.Add | reactor/registry.go:105-109 | acts on the one table, for every shard count and granularity |
| Registry.CbRegistry.Pop | reactor/registry.go:111-115 | acts on the one table, for every shard count and granularity |
| Registry.RunOps | reactor/registry.go:42-115 | the results of any sequence of adds and pops are those of the one table, so they depend neither on shards, granularity nor path |
| Control.StepInv | reactor/net.go:175-289 | every step keeps each loop's program points in step with the runner and its channels; none sends on a closed channel or closes one twice |
| Control.NeverStuck | reactor/net.go:79-91 | until a loop is done somebody can take a step in it, and then the runner can go on |
| Control.OnItsWay | reactor/net.go:175-224 | over every run, the steps a consumer has made in its current round are exactly those that lead to where it is: it signals the publisher before every wait, a wait with events leads to draining (in the network reactor after a second signal), one without straight to polling for the stop |
| Control.SafeShutdown | reactor/net.go:226-250 | over every run of the skeleton: no panic, submitSignal outlives the consumer, in every loop that is not done a named move is enabled, and then the runner can go on |
| CallbackLog.OncePerQueueing | reactor/net.go:195-213 | in a log disciplined on a key, a callback is run or dropped under it once for every time it is queued there, or is still outstanding |
| CallbackLog.DisciplinedOnAll | reactor/net.go:195-213 | discipline on every key is discipline of the whole log |
| NetDispatch.StepOk | reactor/net.go:107-289 | every step keeps the shape of the reactor's state |
| NetDispatch.LiveStep | reactor/net.go:107-289 | conservation of request identifiers: each step moves them from one place to the next; only the listed ones come and go |
| NetDispatch.HomedStep | reactor/net.go:107-289 | every step keeps each request under way only in the loop of its descriptor |
| NetDispatch.CorrespondsStep | reactor/net.go:107-289 | for each identifier, every step but two kinds that hit it keeps callback and request in correspondence |
| NetDispatch.BreaksIndeed | reactor/net.go:260-270 | those two kinds do break it for that identifier |
| NetDispatch.TouchesOwnShard | reactor/net.go:116-122 | whatever has happened to the correspondence, a loop touches only callbacks of its own shard |
| NetRuns.RunOk | reactor/net.go:79-289 | the invariant holds in every state of every run |
| NetRuns.RunHomed | reactor/net.go:107-122 | in every run, requests are under way only at home, and the log accounts for exactly what is registered |
| NetRuns.CorrespondenceForIff | reactor/net.go:107-289 | in every run and for each identifier, callback and request correspond at all times if and only if its deadline request never loses its second slot and its key is never reused while a callback is stored under it |
| NetRuns.CorrespondenceIff | reactor/net.go:107-289 | all identifiers together: the correspondence is one to one at all times if and only if no step breaks it for any |
| NetRuns.ExactlyOnce | reactor/net.go:195-213 | for each identifier, as long as no step has broken it: its completion finds a callback, the one last queued under it, which is run with that event, and each callback has been run or dropped under it as often as queued, but for the one still registered |
| NetRuns.AllExactlyOnce | reactor/net.go:195-213 | the same for all identifiers of a run without such steps |
| NetRuns.UnderWayAtHome | reactor/net.go:116-122 | in every run, an identifier is under way in no loop but that of its descriptor |
| NetRuns.OwnShardOnly | reactor/net.go:116-122 | in every run, a consumer dispatches only from the registry shard that has its own loop's number |
| NetRuns.CancelReachesRequest | reactor/net.go:142-145 | in every run, when Cancel is called for a registered request, the loop it goes to is the only one in which that request can be under way; and it is under way there, once, unless a step has broken the correspondence for this identifier |
| NetRuns.LostCancelIsHarmless | reactor/net.go:236-270 | a cancel that could not be queued removes no callback |
| NetPacing.PacedKeyIsFree | reactor/net.go:107-114 | with fewer than 2^32 draws on a descriptor since any request outstanding on it, a caller on it never finds its key taken |
| NetPacing.CountedStep | reactor/net.go:107-114 | nonces are the serial numbers of draws modulo 2^32, kept by every step although draws and registrations interleave |
| NetPacing.PacedRunsDispatchOnce | reactor/net.go:107-289 | exactly-once dispatch of a request from conditions on its own descriptor and its own timeout alone |
| NetPacing.DrawnIsFresh | reactor/net.go:107-114 | in every run, as long as fewer than 2^32 requests have been made on a descriptor, nothing is under way under an identifier drawn on it and not yet registered |
| NetOrigins.EverythingWasOrdered | reactor/net.go:107-122 | in every run, each callback queued, run or dropped under a key is that of a call of Queue which drew this key; each request accepted carries the operation and timeout of such a call and no flags, or is a cancel that was asked for on its loop |
| NetOrigins.OneOrderEach | reactor/net.go:107-114 | within the first 2^32 calls on a descriptor that call is the one whose number is the nonce |
| NetOrigins.CallbackOfItsRequest | reactor/net.go:107-114 | so the callback run or dropped for an accepted request is the one given in the same call as its operation and timeout |
| NetOrigins.EntriesWereOrdered | reactor/net.go:252-264 | in every run, every entry a loop has queued, and so every one the kernel consumes, is field by field that of a call of Queue, of a Cancel on this loop, or of a deadline |
| NetOrigins.CancelGoesHome | reactor/net.go:236-243 | in every run, a cancel entry names an identifier for which Cancel was called on this loop; at no later time is that request under way in another loop; while it is registered and unbroken it is under way in this one, once |
| NetOrigins.EventsWerePosted | reactor/net.go:195-213 | in every run, every event that a loop has or has had was posted in it by the kernel, for an entry consumed there, with the same result and flags |
| NetOrigins.RanOnItsEvent | reactor/net.go:203-209 | in every run, a callback is run with an event that the kernel posted in the loop of its descriptor and that has the identifier of its key |
| NetOrigins.BuffersBounded | reactor/net.go:166-178 | in every run the bus holds at most 256 requests and a batch at most 128 events |
| NetOrder.InSendOrder | reactor/net.go:252-264 | in every run, the requests a loop has accepted are among those sent to it, in the order of the sends: none overtakes another, so no Cancel its request |
| NetOrder.SubmitsOnDemand | reactor/net.go:272-282 | in every run, a signalled publisher submits if and only if its loop has received a request or been refused a submit since it was last signalled |
| NetSubmission.NoForgottenSubmission | reactor/net.go:252-282 | whenever a publisher is at its select, unpublished entries imply submitAllowed is 1, and so does a submit refused with EBUSY or EAGAIN and not retried |
| NetSubmission.RequestsStayTogether | reactor/net.go:257-264 | in kernel consumption order each accepted request is unbroken: an entry that holds its operation field by field, link-flagged exactly if it has a deadline, then a link timeout of its own duration |
| NetSubmission.LinksClosedIff | reactor/net.go:257-270 | between two requests, every link-flagged entry is followed by a link timeout if and only if every timeout queued so far found a free slot |
| NetOneSlot.CallsNil | reactor/net.go:260-270 | a run with one free slot whose log ends with the consumer running nil, which panics |
| NetOneSlot.LeavesLinkOpen | reactor/net.go:260-270 | the same run leaves a link-flagged entry with no timeout behind it |
| NetShutdown.SafeShutdown | reactor/net.go:79-91 | in every run, with all data steps: no panic on submitSignal or by a second close, submitSignal closed only after the consumer is gone; and, unless there was a panic, in every loop that is not done its publisher, its consumer or the runner can take a step, and once its loop is done the runner can go on |
| NetShutdown.PanicIff | reactor/net.go:195-210 | a run panics if and only if some caller sends on reqBuss after its publisher has closed it, or some completion is dispatched for which no callback is registered |
| NetShutdown.FindsNoneOnlyIfBroken | reactor/net.go:203-209 | a completion finds no callback only if an earlier step has broken the correspondence for its identifier |
| NetShutdown.TooLateForGood | reactor/net.go:107-114 | a caller that has not sent its request when its bus is closed never gets it on the bus: it is about to send at every later moment of the run |
| NetShutdown.QuietStopIsSafe | reactor/net.go:226-250 | a run does not panic if callers are done when their bus is closed and do not begin later, and if no completion is dispatched whose identifier was broken |
| NetShutdown.StopIsTaken | reactor/net.go:195-234 | once asked to stop, each step of a consumer takes the request, comes closer to polling for it, or leaves less to drain |
| NetLateSend.Panics | reactor/net.go:107-114 | a run that panics although nothing is queued after the stop |
| Nonces.Source.NextNonce | reactor/reactor.go:279-287 | with any number of additions by other callers in between: the value of an addition of its own, never a reserved one; undisturbed, the next identifier, wrapping to 0 |
| Nonces.AdditionsDiffer | reactor/reactor.go:279-287 | additions fewer than 2^64 apart return different values, whoever makes them |
| Nonces.NthIs | reactor/reactor.go:279-287 | identifiers in closed form |
| Nonces.NoncesDiffer | reactor/reactor.go:279-287 | identifiers fewer than 2^64 - 2 draws apart differ |
| GenericRuns.CounterIsDrawn | reactor/reactor.go:93-100 | in every run the counter is the number of requests so far, and the last identifier handed out |
| GenericDispatch.StepLoopOk | reactor/reactor.go:230-277 | every step keeps the lock discipline: only the slot being filled is unfilled, and it is the newest and unpublished |
| GenericDispatch.CorrespondsStep | reactor/reactor.go:159-277 | every step keeps the correspondence of callbacks (stored or about to be) and requests under way |
| GenericRuns.RunOk | reactor/reactor.go:79-277 | the invariant holds in every state of every run |
| GenericRuns.VisibleWhenReady | reactor/reactor.go:230-266 | an entry visible to the kernel is, completely, the operation or the timeout of a request, and its callback is already in the map, for any number of callers |
| GenericRuns.NoLostSubmission | reactor/reactor.go:230-271 | an unpublished entry implies needSubmit is 1 or the publisher has swapped it and not yet flushed |
| GenericRuns.ExactlyOnce | reactor/reactor.go:178-198 | in every run, completions find their callbacks, which are not nil, and each callback has been run under its identifier as often as it was queued, but for the one still in the map |
| GenericOrigins.WhatWasOrdered | reactor/reactor.go:93-100 | in every run, the call of Queue in any step draws the identifier after the last one, and ever after, in every loop, each callback stored, queued or run under that identifier is the one given in that call, and each request accepted under it carries that call's operation and timeout |
| GenericOrigins.EntriesWereOrdered | reactor/reactor.go:230-243 | in every run, every filled entry a loop has queued is field by field that of the call which drew its identifier, of a Cancel on this loop, or of a deadline |
| GenericOrigins.UnderWayAtHome | reactor/reactor.go:93-100 | in every run, a request is waiting for the lock or under way in no loop but the one whose number is its identifier modulo the number of loops |
| GenericOrigins.CancelReachesRequest | reactor/reactor.go:125-128 | in every run, when Cancel is called for a request whose callback is in a map, it goes to the loop of that map, where the request is under way, once, and it is on its way in no other |
| GenericOrigins.CancelGoesHome | reactor/reactor.go:221-228 | in every run, a cancel entry names an identifier for which Cancel was called on this loop; at no later time is that request under way, or its callback stored, in another loop; while its callback is in the map it is under way here, once |
| GenericOrigins.EventsWerePosted | reactor/reactor.go:178-198 | in every run, every event that a loop has or has had, or has run a callback with, was posted in it by the kernel with the same result and flags |
| GenericOrigins.RanOnItsEvent | reactor/reactor.go:186-192 | in every run, a callback is run with a posted event of its own identifier |
| GenericOrigins.SubmitsOnDemand | reactor/reactor.go:261-271 | in every run, a signalled publisher submits if and only if some caller has set needSubmit since it was last signalled |
| GenericRuns.RequestsStayTogether | reactor/reactor.go:230-243 | in kernel consumption order each accepted request is unbroken, with no other caller's entry in between: an entry that holds its operation field by field, then a link timeout of its own duration |
| GenericRuns.LinksClosedIff | reactor/reactor.go:239-243 | while no caller is in the middle of a request, every link is closed by a link timeout if and only if every timeout so far found a free slot |
| GenericOneSlot.LeavesLinkOpen | reactor/reactor.go:239-243 | a run that leaves a link-flagged entry with another caller's entry right behind it |
| GenericRuns.SafeShutdown | reactor/reactor.go:79-91 | in every run: no panic, submitSignal closed only after the consumer is gone; in every loop that is not done its publisher, its consumer, the runner or the lock holder can take a step, and once its loop is done the runner can go on |
| GenericRuns.StopIsTaken | reactor/reactor.go:178-214 | once asked to stop, each step of a consumer takes the request, comes closer to polling for it, or leaves less to drain |
| ConnReads.StepInv | net/netconn.go:51-62 | every step of readers and reactor keeps: only the lock holder is active, the shared operation holds its buffer, and its closure is the only one of the connection waiting, registered or blocked, under the identifier it waits for |
| ConnReads.RunInv | net/netconn.go:51-106 | the invariant holds in every state of every run |
| ConnReads.StepOwn | net/netconn.go:51-62 | if nothing was under way under its identifier when a call registered, every step keeps its request the only one under it, carrying the shared operation as it is |
| ConnReads.ReadGetsItsOwn | net/netconn.go:51-62 | in every run a reader receives, unchanged, an event that a consumer dispatched while the reader's callback was registered under its identifier; if nothing was under way under that identifier when it registered, the entry the kernel consumed under it asks for this operation on the reader's own buffer, address and length, which is what the shared operation held when it was prepared |
| ConnReads.FreshIfUnbroken | net/netconn.go:58-60 | that is so if no step up to the registration breaks the reactor's correspondence for the identifier |
| ConnReads.FreshIfFew | net/netconn.go:58-60 | and if fewer than 2^32 requests have been made on the descriptor, whatever has been broken |
| ConnReads.ReadGetsItsOwnEarly | net/netconn.go:51-62 | so in every run, within the first 2^32 requests on the descriptor, a reader receives its own request's completion, whose entry asks for its own buffer, address and length |
| ConnReads.ReadReturnsCompletion | net/netconn.go:58-77 | in every run, the event with which a call returns is one that the kernel posted, with its result and flags, and for which a consumer of the same loop then ran the call's own callback |
| ConnReads.ReturnsWhatItReceived | net/netconn.go:62-77 | in every run, from the receive on the call holds, and then returns with, the very event it received |
| ConnReads.AnswerableIff | net/netconn.go:58-62 | in every run, a call that waits has its callback registered or blocked on the channel if and only if no step has dropped its request or stored over its callback; otherwise it waits on, holding the lock |
| ConnHangs.Hangs | net/netconn.go:58-62 | a run in which the ring is full, the request is dropped and Read waits for ever |
| ConnReads.BufferIsHeld | net/netconn.go:80-91 | in every run, while a caller waits, the shared operation holds its buffer and no other caller is past the lock |
| CreateMany.CreateMany | uring/ring.go:134-183 | exactly count rings, ring i owning a pool if its index is a multiple of the group size and otherwise attached to its group's owner, although the inner loop advances the outer index; exactly wpCount of them own one; bad arguments exactly as checked; after a failure every earlier ring is closed |

## Left out

- The wait of rings without extended arguments (`uring/ring.go:357-383`), which queues a timeout of its own; the reactors refuse such rings (`reactor/requirements.go:13-16`). What such a timeout does to peeking is modelled.
- Memory mapping, ring setup and teardown, and pointer arithmetic: rings are arrays with counters.
- Raw system calls, probing and registering: only the contract of io_uring_enter is kept (`CompletionRing.Ring.Enter`, and the parameters of `SubmissionRing.Ring.Submit`); its flag word is not modelled.
- Memory ordering weaker than sequential consistency, and the assembly atomics.
- Widths of the fields of a submission entry: 8-bit codes and flags, a 32-bit descriptor and length are unbounded here; addresses of buffers and timespecs are opaque numbers, and the collector's view of them is out.
- Time: a timeout or deadline is a kernel step that may happen; only whether a request has one is modelled.
- The reactors are state machines on values rather than classes, since their steps interleave; blocking in place and aliasing are not represented, apart from the shared operation of a Conn.
- Fairness and liveness: proved are safety, that no loop is stuck, and measures; not that the kernel or the scheduler moves on.
- SubmissionRing.Ring.Submit: what the kernel takes is a parameter bounded by what was asked for; the entries that a polling thread takes after the method returns are `Kernel` steps of the next operation.
- GenericReactor: filling a slot is one step (its several stores are in `SubmissionRing`); runs have fewer than 2^64 - 2 requests; `Nonces` covers the counter beyond that. A callback that queues a request from inside the consumer, which would block on the callback lock, is excluded.
- NetReactor: the slow path of the registry draws and stores under one lock; here every draw and store are two steps, which allows more interleavings. A publisher drops the callback of a request that found no slot in the same step in which queueing failed. After a panic nothing happens any more.
- ConnReads.ReadGetsItsOwn: that nothing is under way under the drawn identifier is sufficient for the part about the buffer, not necessary: with an older request still under way, which of the two completions comes first decides (`ReadGetsItsOwnEarly` is without it). Buffers are not empty (an empty one makes PrepSQE panic). Deadlines changed and connections closed while a call waits, lastReadOpID, and the translation of results into Go errors are not modelled.
- CreateMany.CreateMany: a ring whose memory mapping fails after its descriptor was made counts as not made; the error texts and the closing function it returns are not modelled.
- Listener sockets, socket options, loggers, option setters, examples and benchmarks.
