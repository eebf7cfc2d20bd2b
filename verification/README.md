# Protocols, codecs and indices of an RGB-D capture system, verified

This project models the parts of the repository that carry its hardest logic and proves what they are for.

* **Coroutine hand-offs** (`core/cppcoro`). The sequence barrier, the multi-producer and single-producer sequencers, the
  asynchronous and the recursive generator, and the shared task. The concurrent ones are transition systems with one
  access to shared memory per step and any number of participants; an invariant is kept by every step, and the results
  hold in every run. `SequenceBarrier` and `MultiProducer` (with `SequencerRing`) are the protocols, the modules ending
  in `Proof` their invariants, those ending in `Progress` the proof that all calls end, `MultiProducerGiven` says which
  numbers waiters are given, and `RingClaims` which numbers producers get. `AwaiterList` and `PublishedCells` are the loops of these protocols on real linked nodes and
  arrays, `SingleProducer` is the sequencer over 64-bit numbers that wrap around, and `RecursiveGenerator` the linked
  stack of suspended coroutines.
* **DNS messages** (`mdns/mdns.h`). `DnsNames` has the readers of compressed names (section 4.1.4 of RFC 1035) on arbitrary
  bytes, `DnsWriter` the writer with its table of candidates, `DnsLimits` the limits of both, `DnsRoundTrip`, `DnsCompose` and `DnsSkips` what becomes of the
  names, `DnsMessage`, `DnsEdits` and `DnsSender` the answers, `DnsRoom` the room they need, `DnsParser` the receiver, and `DnsAnswer` with `DnsAnswerProof`
  the way from one to the other.
* **The octree** (`core/OctTreeLoc.cpp`, `core/OctTree.cpp`). `OctTreeLoc` is the algebra of locations over 32-bit numbers,
  `OctTree` the tree of nodes that split, list their leaves and consolidate their points.
* **Depth images** (`core/DepthPts.cpp`). `DepthPyramid` and `DepthHoles` build the levels of detail and fill missing depths
  from them, `DepthMeans` says what the levels are the means of, `DepthCodec` packs depths into three planes of bytes and back, and `DepthImage` does both.

`Lists`, `Sums`, `Modular`, `SequenceNumbers` and `DepthSamples` are shared; `Courses` builds runs of the multi-producer sequencer for
the results that need one. `dafny verify dfyconfig.toml` checks everything.

## What turned out different from what one would expect

* `multi_producer_sequencer::add_awaiter` compares its own target with what it found for every node it has taken
  (`core/cppcoro/multi_producer_sequencer.hpp:786`), so it may resume another waiter before that one's target. Nobody is
  resumed early exactly when only waiters for the same number wait at the same time (`EarlyResume.NeverEarlyIff`): any two
  different targets have a run in which it happens (`EarlyResume.ResumedTooEarly`).
* `last_published_after` is exact unless the slot it stops at holds a later number (`SequencerRing.ScanExact`), which needs
  consumers that are ahead of its starting point (`StaleStart.ScanStopsShort`). The comment before line 767 only assumes
  that the consumers have not reached the target. That is not enough: a wait that starts behind the consumers may sleep
  for ever (`StaleStart.ServedIff`).
* `mdns_string_table_find` does not look at what follows the labels it has matched (`mdns/mdns.h:679-681`), so a name that is
  the beginning of an earlier one is lost (`DnsCompose.ShorterNameLost`). It also searches what has been written of the name
  itself, so a name whose last label is repeated ends in a pointer into itself (`DnsCompose.FirstNameReadsBackIff`).
  `DnsCompose.AllNamesReadBackIff` has the exact condition for all names of a message, and `DnsCompose.AllNamesReadBack` one
  that a caller can keep.
* `mdns_answer_add_record` leaves TXT records for the coalesced one of their section, also when the record is the answer
  itself (`mdns/mdns.h:1187`), which belongs to no section. Such an answer is announced in the header and never written, so
  that the receiver takes the first record behind it for the answer, and some section comes up short
  (`DnsAnswerProof.TxtAnswerLost`, and `TxtAnswerLostExample`). An answer comes back exactly when it is no TXT record and its
  names do (`DnsAnswerProof.AnswerReceivedIff`, `AnswerRoundTripIff`).
* The pyramid takes infinite depths for missing ones (`core/DepthPts.cpp:153`), but the filling does not (`:211`): it leaves
  them, and the encoder makes them empty (`DepthHoles.FilledFinite`, `DepthImage.ImageComesBack`).
* Where a level with an odd side is filled from the next, a parent is looked for outside that level
  (`DepthHoles.HalvableIff`); for an image of 640 by 480 with nothing in its lower left corner this is behind the end of
  the array (`DepthHoles.ReadsBehindTheEnd`).
* The level of an invalid location is taken for -1 where levels are subtracted (`core/OctTreeLoc.cpp:147`), so every valid
  location lies below it (`OctTreeLoc.EverythingBelowNowhere`).
* `mdns_record_parse_txt` does not compare the length of a string with what is left of the buffer; when that matters is in
  `DnsParser.TxtStaysIff`, an example in `DnsParser.TxtGoesAstray`.
* `mdns_record_parse_srv` takes the record of a service on the root host for too short (`DnsAnswer.SrvReadsIff`), and TXT
  strings read back exactly under the conditions of section 6 of RFC 6763 on keys and lengths (`DnsAnswer.TxtReadsIff`).
* The comments say that a shared task starts with two references; the constructor starts with one
  (`core/cppcoro/shared_task.hpp:77`, `:336`). References are not part of this model.

## Model

| member | source | states |
|---|---|---|
| SequenceBarrierProof.NoLostWakeup | core/cppcoro/sequence_barrier.hpp:308-467 | in every interleaving, a queued waiter whose target is published is covered by a call in flight that will take the list, also when another waiter requeued it |
| SequenceBarrierProof.QuietMeansServed | core/cppcoro/sequence_barrier.hpp:308-467 | when no call is in flight, a waiter has continued exactly when its target is published, and is queued exactly when it is not |
| SequenceBarrierProof.ContinuesOnce | core/cppcoro/sequence_barrier.hpp:159-187 | no waiter continues twice, and the sequence it is given is published and does not precede its target |
| SequenceBarrierProof.GivenWasPublished | core/cppcoro/sequence_barrier.hpp:159-463 | the sequence a waiter continues with is one that was the last published at some moment at which it was there, not just any number from its target on |
| SequenceBarrierProof.InOneList | core/cppcoro/sequence_barrier.hpp:328-377 | nodes are conserved: until its flag is raised a waiting node is in exactly one list of the shared one and those of the threads, and there once |
| SequenceBarrierProof.NeverStuck | core/cppcoro/sequence_barrier.hpp:381-467 | as long as a call is in flight, some step of a call in flight can be taken |
| BarrierProgress.StepCounts | core/cppcoro/sequence_barrier.hpp:308-467 | every step of a call in flight, but for a compare-exchange that fails, leaves less work to do: calls cannot keep each other busy |
| BarrierProgress.AdvancesAreFew | core/cppcoro/sequence_barrier.hpp:308-467 | while nobody publishes or begins to wait, a run has at most as many such steps as there was work at first |
| BarrierProgress.ComesToRest | core/cppcoro/sequence_barrier.hpp:308-467 | every run can be finished, without a new call, so that no call is in flight |
| BarrierProgress.AsAsked | core/cppcoro/sequence_barrier.hpp:138-149 | in every run the waiters are those that were begun, with the targets asked for, and the published sequence is the one of the last publication |
| SequenceBarrierProof.ContinuedIsFinal | core/cppcoro/sequence_barrier.hpp:368-376 | nobody touches the node of a waiter that has continued |
| AwaiterList.Split | core/cppcoro/sequence_barrier.hpp:328-362 | the tail-pointer loop splits the list into the nodes that are due and those that are not, each in order and null-terminated |
| AwaiterList.Barrier.Publish | core/cppcoro/sequence_barrier.hpp:308-377 | a publication leaves exactly the pending nodes linked in the barrier; every node whose target is reached has got the sequence and its flag |
| AwaiterList.ResumeAll | core/cppcoro/sequence_barrier.hpp:368-376 | the resume loop gives every node of the list the sequence and raises its flag once, reading the link before that |
| SequencerRing.LiveSlots | core/cppcoro/multi_producer_sequencer.hpp:178-318 | granted or published sequences that have not been consumed never share a slot, and a slot is not granted again before the sequence one buffer earlier is consumed |
| SequencerRing.ClaimedOnce | core/cppcoro/multi_producer_sequencer.hpp:178-318 | no sequence number belongs to two claims |
| RingClaims.NothingPassedOver | core/cppcoro/multi_producer_sequencer.hpp:178-318 | every number from the first to the next to be claimed belongs to a claim |
| RingClaims.ClaimIsNext | core/cppcoro/multi_producer_sequencer.hpp:211-245 | a claim for a count gets that many numbers, or a whole buffer if that is less, directly behind all that were claimed before |
| RingClaims.AllPublished | core/cppcoro/multi_producer_sequencer.hpp:178-318 | when all claims are published, everything that has been claimed can be read |
| RingClaims.StepCounts | core/cppcoro/multi_producer_sequencer.hpp:178-318 | each step of a producer, but for writing an item again, brings it one step closer to having published, and nobody sets it back |
| RingClaims.NeverStuck | core/cppcoro/multi_producer_sequencer.hpp:178-318 | as long as a claim is not published some producer can make such a step, if need be after the consumers release what is published |
| SequencerRing.ReadsTheLog | core/cppcoro/multi_producer_sequencer.hpp:178-318 | between publication and release of a sequence, every read of its slot gives the item that the log of the producers holds for it at any later time |
| RingClaims.AsAsked | core/cppcoro/multi_producer_sequencer.hpp:178-318 | in every run the log holds for each number the item written last for it, and the consumers are where they last said |
| SequencerRing.CellIff | core/cppcoro/multi_producer_sequencer.hpp:523-533 | a slot answers for a sequence exactly when that is published and the next one in the same slot is not |
| SequencerRing.ScanExact | core/cppcoro/multi_producer_sequencer.hpp:523-533 | a scan that stops has found the end of the contiguous published prefix exactly when the slot it stopped at holds no later number; always so when it starts no earlier than the consumers |
| SequencerRing.LaterInSlot | core/cppcoro/multi_producer_sequencer.hpp:523-533 | a slot holds a later number than asked for exactly when that number is published, and then the one asked for is published too |
| SequencerRing.BatchHidden | core/cppcoro/multi_producer_sequencer.hpp:582-602 | while a batch is stored back first, nothing from its front on is readable |
| SequencerRing.BatchAtOnce | core/cppcoro/multi_producer_sequencer.hpp:582-602 | the store of the front makes every number of the batch readable exactly when all numbers before the batch are |
| PublishedCells.Cells.constructor | core/cppcoro/multi_producer_sequencer.hpp:493-520 | the constructor loop fills the slots with the numbers of one round that ends with the initial sequence |
| PublishedCells.InitialCellSlot | core/cppcoro/multi_producer_sequencer.hpp:493-520 | each of these numbers stands in its own slot and counts as published before the start |
| PublishedCells.Cells.LastPublishedAfter | core/cppcoro/multi_producer_sequencer.hpp:523-533 | on any array the scan ends within `bufferSize` rounds at the last slot of the run that answers |
| PublishedCells.ScanFindsPrefix | core/cppcoro/multi_producer_sequencer.hpp:523-533 | on the array of any reachable ring that is the end of the published prefix exactly when the slot it stopped at holds no later number |
| PublishedCells.Cells.PublishRange | core/cppcoro/multi_producer_sequencer.hpp:582-602 | the store loop writes all numbers but the front, then the front |
| PublishedCells.BatchPublished | core/cppcoro/multi_producer_sequencer.hpp:582-602 | after a batch no longer than the buffer, its numbers stand in their slots and all other slots are as before |
| MultiProducerProof.NoLostWakeup | core/cppcoro/multi_producer_sequencer.hpp:605-826 | with any number of producers publishing out of order, a queued waiter whose target lies in the contiguous published prefix is bound to be found by a call in flight |
| MultiProducerProof.QuietMeansServed | core/cppcoro/multi_producer_sequencer.hpp:605-826 | when nothing is in flight no queued target lies in the published prefix, and exactly the waiters that have not continued are queued |
| MultiProducerProof.ContinuesOnce | core/cppcoro/multi_producer_sequencer.hpp:350-384 | no waiter continues twice; what it is given is published, and does not precede its target unless another waiter swept it up |
| MultiProducerGiven.GivenIsAnEnd | core/cppcoro/multi_producer_sequencer.hpp:605-826 | what a waiter is given: the number it started from when it was ready; when a publication resumed it, the end of the published prefix at some moment while it waited, or the later target, published by then, that another waiter of the same list aims at; when another waiter swept it up, the end of the prefix while some waiter was there |
| MultiProducerProof.InOneList | core/cppcoro/multi_producer_sequencer.hpp:605-826 | a waiting node is in exactly one of the shared list and the local lists of the threads, and there once |
| MultiProducerProof.NeverStuck | core/cppcoro/multi_producer_sequencer.hpp:605-826 | as long as a call is in flight, some step of a call in flight can be taken |
| MultiProducerProgress.StepCounts | core/cppcoro/multi_producer_sequencer.hpp:605-826 | while the ring stands still every step of a call in flight, but for a compare-exchange that fails, leaves less work to do, although a publication may take the list again |
| MultiProducerProgress.AdvancesAreFew | core/cppcoro/multi_producer_sequencer.hpp:605-826 | while the ring stands still and nobody begins to wait, a run has at most as many such steps as there was work at first |
| MultiProducerProgress.ComesToRest | core/cppcoro/multi_producer_sequencer.hpp:605-826 | every run can be finished, without a step of the ring or a new wait, so that no call is in flight |
| MultiProducerProgress.AsAsked | core/cppcoro/multi_producer_sequencer.hpp:319-384 | in every run the waiters are those that were begun, with the targets asked for and the numbers they start from |
| MultiProducerProof.ContinuedIsFinal | core/cppcoro/multi_producer_sequencer.hpp:350-384 | no step, and no other waiter that resumes whole lists, touches the node of a waiter that has continued |
| MultiProducerProof.OneTargetNeverEarly | core/cppcoro/multi_producer_sequencer.hpp:778-826 | while the waiters that are pending at the same time have the same target nobody is resumed before its target |
| EarlyResume.NeverEarlyIff | core/cppcoro/multi_producer_sequencer.hpp:778-826 | for a calling discipline that says which targets may wait together, any buffer size and any initial sequence: nobody is ever resumed before its target exactly when only equal targets may |
| EarlyResume.ResumedTooEarly | core/cppcoro/multi_producer_sequencer.hpp:778-826 | for any two targets a < b that may wait together, a run at whose end the waiter for b has been resumed with a |
| StaleStart.ServedIff | core/cppcoro/multi_producer_sequencer.hpp:605-826 | for any buffer size and any initial sequence: whenever nothing is in flight all waiters with published targets have continued, exactly when no wait may start behind the consumers |
| StaleStart.WakeupLost | core/cppcoro/multi_producer_sequencer.hpp:767-781 | a wait for a number ahead of the consumers that starts one behind them sleeps although its target is published |
| StaleStart.ScanStopsShort | core/cppcoro/multi_producer_sequencer.hpp:523-533 | a reachable ring of any size on which a scan from before the consumers stops at once although the published prefix goes on |
| SequenceNumbers.DifferenceIff | core/cppcoro/sequence_traits.hpp:21-24 | the difference of two stored numbers is the true one exactly within the window of the signed type |
| SequenceNumbers.PrecedesIff | core/cppcoro/sequence_traits.hpp:26-29 | within half a round `precedes` is the order of the numbers stood for; half a round further it is the opposite |
| SequenceNumbers.SlotOfWrapped | core/cppcoro/multi_producer_sequencer.hpp:530-532 | a slot index of the stored number is that of the unbounded one when the buffer size divides the number of sequence numbers |
| SequenceNumbers.SizeIff | core/cppcoro/sequence_range.hpp:72-82 | a range knows its size exactly when it is short of a full round; then it knows whether it is empty, and its back |
| SequenceNumbers.RangeParts | core/cppcoro/sequence_range.hpp:89-97 | `first` and `skip` cut a range in two at the smaller of the count and the size |
| SequenceNumbers.RangeAt | core/cppcoro/sequence_range.hpp:84-87 | the elements of a range are the numbers it stands for, across the wrap-around |
| SingleProducer.Sequencer.AwaitedSlot | core/cppcoro/single_producer_sequencer.hpp:186-193 | a wait that the wrapped comparison lets pass has really got a free slot |
| SingleProducer.Sequencer.ClaimOne | core/cppcoro/single_producer_sequencer.hpp:148-175 | a claim returns the next number; all claims so far are contiguous and at most one buffer ahead of the consumers |
| SingleProducer.Sequencer.ClaimUpTo | core/cppcoro/single_producer_sequencer.hpp:180-225 | a claim of up to `count` is contiguous with the one before, as long as the smaller of `count` and what is free, not empty for a positive count, and never beyond the consumers by more than the buffer |
| SingleProducer.Sequencer.PublishRange | core/cppcoro/single_producer_sequencer.hpp:87-90 | publishing a range publishes its last number; an empty one, the number before it |
| SingleProducer.Sequencer.LiveSlots | core/cppcoro/single_producer_sequencer.hpp:180-225 | sequences claimed but not consumed have slots of their own |
| RecursiveGenerator.ForEach | core/cppcoro/recursive_generator.hpp:255-307 | the values seen from `begin` to the end are the depth-first flattening of the generator, for nested generators of any depth |
| RecursiveGenerator.Promise.Pull | core/cppcoro/recursive_generator.hpp:152-164 | a pull terminates and either completes the root with nothing left, or shows the first of the values due and keeps the rest |
| RecursiveGenerator.Promise.YieldGenerator | core/cppcoro/recursive_generator.hpp:76-121 | a yielded generator runs at once; its parent stays suspended behind it unless it completes without a value, and goes on at once if it does |
| RecursiveGenerator.Promise.Resume | core/cppcoro/recursive_generator.hpp:52-60 | a resumed coroutine either completes with nothing due, or suspends with a leaf that shows its next value |
| RecursiveGenerator.Promise.GetValue | core/cppcoro/recursive_generator.hpp:145-150 | the value read through the root is the one the leaf yielded |
| RecursiveGenerator.Cursor.Increment | core/cppcoro/recursive_generator.hpp:255-271 | the iterator moves on by one value, and to the end when the root completes |
| RecursiveGenerator.Generator.Begin | core/cppcoro/recursive_generator.hpp:292-307 | `begin` gives the first value, or the end for an empty generator |
| RecursiveGenerator.NoCycle | core/cppcoro/recursive_generator.hpp:174-180 | the chain from the leaf to the root has no cycle |
| AsyncGenerator.NeverBroken | core/cppcoro/async_generator.hpp:501-789 | in every interleaving no internal assertion fails, only suspended coroutines are resumed, and no step follows the destruction of the frame |
| AsyncGenerator.OnlySleepersResumed | core/cppcoro/async_generator.hpp:501-789 | in every run, whoever is resumed is suspended and registered, a producer at its end is not resumed and does not go on, a frame that the consumer destroys is suspended, and the state word is one that the code expects there |
| AsyncGenerator.SeenInOrder | core/cppcoro/async_generator.hpp:597-789 | the consumer sees every yielded value once and in order, has seen all of them whenever it is active, and its iterator keeps showing the last |
| AsyncGenerator.ProducedIsYielded | core/cppcoro/async_generator.hpp:627-789 | what counts as yielded are the values of the producer's yields, in order, and its end is that of its body |
| AsyncGenerator.OneAnswerEach | core/cppcoro/async_generator.hpp:501-789 | each call of `begin` or `++` is answered by exactly one value or by the end before the consumer is active again |
| AsyncGenerator.NoLostWakeup | core/cppcoro/async_generator.hpp:627-789 | a suspended consumer is registered and faces a producer that is on its way to a yield or to resuming it |
| AsyncGenerator.InnerStepsAreFew | core/cppcoro/async_generator.hpp:597-789 | until something is yielded, the consumer advances again or the generator is destroyed, the hand-off takes at most 24 steps, in every interleaving |
| AsyncGenerator.RestMeansDelivered | core/cppcoro/async_generator.hpp:597-789 | when it has taken them, a sleeping consumer has a producer at work on a value it has not got, an active one has everything and its producer sleeps, and a generator that is gone has its frame destroyed unless the producer is at work |
| AsyncGenerator.DestroyedOnce | core/cppcoro/async_generator.hpp:501-514 | the producer frame is destroyed at most once, not before the generator object is, and never left suspended behind it |
| AsyncGenerator.FrameIsDestroyed | core/cppcoro/async_generator.hpp:690-698 | once the generator is gone and the producer is at its next suspension point, the next one or two steps destroy the frame and there are no others |
| SharedTask.StartedOnce | core/cppcoro/shared_task.hpp:145-154 | the coroutine is started exactly once, by the waiter that wins the exchange |
| SharedTask.ResumesSuspended | core/cppcoro/shared_task.hpp:44-69 | the task is started while it is suspended, only pointers to suspended waiters are followed, and resuming one lets exactly that one continue |
| SharedTask.ReadyIsStable | core/cppcoro/shared_task.hpp:90-94 | a task that is ready stays ready |
| SharedTask.ContinuesOnce | core/cppcoro/shared_task.hpp:44-69 | a waiter continues at most once, and only when the result is ready, whether it suspended or not |
| SharedTask.OwnStepCounts | core/cppcoro/shared_task.hpp:127-173 | each step of a waiter, but for a compare-exchange that fails although the pointer is the expected one, brings it one step closer to being suspended or going on; only others that change the pointer may set it back |
| SharedTask.ReadyContinues | core/cppcoro/shared_task.hpp:127-173 | once the result is ready, a waiter that is not suspended has continued after at most three steps of its own |
| SharedTask.TaskStepCounts | core/cppcoro/shared_task.hpp:44-69 | each step of the task brings it one step closer to having resumed everybody in its list |
| SharedTask.LinksAreNodes | core/cppcoro/shared_task.hpp:156-170 | neither the value for a task not started nor the one for a ready task becomes a link between waiters |
| SharedTask.NobodyLeftBehind | core/cppcoro/shared_task.hpp:44-69 | a suspended waiter is in the list of a task that has not finished with its waiters, and some step towards that is possible |
| SharedTask.EverybodyContinues | core/cppcoro/shared_task.hpp:44-69 | when the task is done and a waiter has no step of its own left, it has continued, once |
| DnsNames.NextSubstring | mdns/mdns.h:510-542 | the step to the next substring, with at most sixteen pointers followed, for any bytes |
| DnsNames.StringSkip | mdns/mdns.h:544-562 | skipping terminates on any bytes and moves to where the name ends, or stays |
| DnsNames.StringExtract | mdns/mdns.h:605-641 | extraction succeeds exactly when the name can be read, copies its labels with a dot after each as far as they fit, and moves to its end |
| DnsNames.StringEqual | mdns/mdns.h:564-603 | two names are found equal exactly when both can be read and their labels agree pairwise, and both offsets then move to where reading ends |
| DnsNames.ReadImpliesSkip | mdns/mdns.h:544-641 | whenever a name can be extracted it can be skipped, to the same end |
| DnsNames.ReadEnd | mdns/mdns.h:605-641 | a name that can be read ends inside the buffer and has at most 64 labels |
| DnsNames.SubBounds | mdns/mdns.h:510-542 | a valid substring lies inside the buffer |
| DnsLimits.SubstringIff | mdns/mdns.h:510-542 | in any bytes the substring step gives exactly the length byte and label to which a path of at most sixteen pointers leads, or the end of the name at a zero |
| DnsLimits.NameIff | mdns/mdns.h:605-641 | in any bytes a name can be read exactly when at most sixty-four labels and then a zero follow one another, and these are its labels; it ends behind its first pointer or its zero |
| DnsNames.SameLabelIff | mdns/mdns.h:579-582 | labels without a NUL in them agree exactly when they have the same length and each letter is the same, or one is the capital, 65 to 90, and the other the small letter 32 above it |
| DnsWriter.StringTable.TableAdd | mdns/mdns.h:687-699 | an offset added to the ring of sixteen |
| DnsWriter.AddCandidates | mdns/mdns.h:687-699 | the ring holds the new offset and otherwise only offsets it had |
| DnsLimits.HoldsLatest | mdns/mdns.h:687-699 | the candidates are exactly the sixteen offsets added last, or all of them when there are fewer |
| DnsWriter.StringFind | mdns/mdns.h:701-710 | the first dot at or after an offset |
| DnsWriter.TableFind | mdns/mdns.h:643-685 | the first candidate whose substrings start with the labels of the text |
| DnsWriter.StringMake | mdns/mdns.h:712-755 | the writer leaves the buffer, the table and the position that the label-wise specification gives, for any name and any bytes in the buffer |
| DnsRoundTrip.HoldsRead | mdns/mdns.h:510-641 | a name that stands in the buffer, through earlier labels only, is what the readers see, up to 64 labels |
| DnsRoundTrip.HoldsMatch | mdns/mdns.h:679-681 | the table search accepts a stored name exactly when the wanted labels are its beginning |
| DnsRoundTrip.HoldsElsewhere | mdns/mdns.h:712-755 | a name does not change when bytes that belong to no name do |
| DnsRoundTrip.FoundIsKnown | mdns/mdns.h:643-685 | what the search finds is an earlier label written in full, of a complete name that starts with the labels, or of the unfinished name itself |
| DnsRoundTrip.FoundIsStored | mdns/mdns.h:643-685 | never of the unfinished name when no label is repeated, or when only zeros follow and the last one is not |
| DnsRoundTrip.WriteKeeps | mdns/mdns.h:712-755 | a written name, unless it ends in a pointer into itself, stands where it was written, and everything written earlier still stands |
| DnsRoundTrip.WriteLoops | mdns/mdns.h:712-755 | a name that ends in a pointer into itself has no end, and everything written earlier stays |
| DnsRoundTrip.LoopFails | mdns/mdns.h:510-641 | a name without an end is never read |
| DnsSkips.MakePasses | mdns/mdns.h:712-755 | a written name, whether it reads back or not and whatever the buffer held, is labels in full and then a zero or a pointer to a label in full |
| DnsSkips.PassesSkips | mdns/mdns.h:544-562 | such a name is skipped to its end, also when the buffer ends there |
| DnsCompose.NameReadsBack | mdns/mdns.h:712-755 | what was just written, repeated labels or not and whatever the buffer held, reads back as the name exactly when the search settled on an earlier name that ends with it; otherwise it cannot be read, or the name read starts with it |
| DnsCompose.AllNamesReadBackIff | mdns/mdns.h:712-755 | in any message of names, other bytes and patches, all names read back from the finished message, with their labels and ends, exactly when every search settled on an earlier name that ends with what was asked for |
| DnsCompose.AllNamesReadBack | mdns/mdns.h:712-755 | that is so, however often the table has wrapped and whatever followed, when no label is last in one name and not last in another, and none repeats its last label before zeros or any label otherwise |
| DnsCompose.NamesAreAsked | mdns/mdns.h:712-755 | these names are the ones asked for, in order |
| DnsCompose.EndingIsShared | mdns/mdns.h:712-755 | after a first name of at most sixteen different labels, that name and every ending of it takes two bytes and reads back |
| DnsCompose.ShorterNameLost | mdns/mdns.h:679-681 | a name that is the beginning of the one before is written as a pointer and reads back as the longer one |
| DnsCompose.ShorterNameLostExample | mdns/mdns.h:679-681 | "a.b.c" and then "a.b" in any nine bytes |
| DnsCompose.FirstNameReadsBackIff | mdns/mdns.h:712-755 | a first name of at most sixteen labels that has room cannot be read when its last label is repeated; before zeros it reads back exactly when that is not so |
| DnsCompose.RepeatedLabelLostExample | mdns/mdns.h:712-755 | "a.a" in ten bytes is written as a label and a pointer to it, and cannot be read |
| DnsCompose.TextIsName | mdns/mdns.h:719-755 | the text that extraction returns, with or without its final dot, is written as the same labels |
| DnsMessage.GetRecordCount | mdns/mdns.h:1289-1301 | the count of a section with its TXT records as one, in 16 bits |
| DnsCompose.MakeGoesOn | mdns/mdns.h:712-755 | a written name leaves the bytes before it alone and ends within the buffer |
| DnsRoom.MakeFitsIff | mdns/mdns.h:712-755 | a name is refused exactly when some label of it, or its end, does not fit into what is left of the buffer |
| DnsSender.AnswerAddQuestion | mdns/mdns.h:1149-1164 | writes the question, or fails when it does not fit |
| DnsSender.AnswerAddRecordHeader | mdns/mdns.h:1166-1181 | writes name, type, class, time to live and an open length, or fails |
| DnsSender.AnswerAddRecord | mdns/mdns.h:1183-1239 | writes a record and fills in the length of its data; leaves TXT records for later |
| DnsSender.AnswerAddTxtRecord | mdns/mdns.h:1241-1287 | writes one record with the strings of all TXT records |
| DnsSender.QueryAnswerUnicast | mdns/mdns.h:1303-1352 | leaves in the buffer the message compiled from question, answer and sections, or fails exactly when it does not fit |
| DnsSender.AnswerMulticast | mdns/mdns.h:1355-1395 | the same without a question, for the class and time to live given |
| DnsRoom.CompileFits | mdns/mdns.h:1149-1395 | an answer is written whenever the buffer has 48 bytes, no TXT string exceeds 0x3FFF, and the sizes of all parts with names written in full, given as numbers, fit the buffer |
| DnsRoom.CompiledSize | mdns/mdns.h:1149-1395 | an answer that is written has a buffer of 48 bytes and no longer TXT string, ends inside the buffer, and is no longer than with all names in full and no shorter than with all of them pointers |
| DnsRoom.CompileWrites | mdns/mdns.h:1149-1395 | such an answer consists of the names and bytes of its parts, and is refused exactly when one of them does not fit behind those before it |
| DnsAnswerProof.AnswerHeader | mdns/mdns.h:1303-1373 | the header holds the query id, the flags of an authoritative response, and the numbers of question, answer and records that follow |
| DnsAnswerProof.AnswerReceivedIff | mdns/mdns.h:1303-1395 | a receiver gets every record of a compiled answer in order - type, class, time to live, a name that reads back, and data that stands where it is told - exactly when it waits for this query id or any, the answer is not a TXT record and all names of records read back from the message |
| DnsAnswerProof.AnswerRoundTripIff | mdns/mdns.h:1303-1395 | the records and the name of the question come back exactly when the receiver waits for this query id or any, the answer is not a TXT record and every search for a name, while the answer was written, settled on an earlier name that ends with it |
| DnsAnswerProof.AnswerRoundTrip | mdns/mdns.h:1303-1395 | under the naming discipline an answer comes back exactly when the receiver waits for its query id or any, and it is not a TXT record |
| DnsAnswerProof.AnswerArrives | mdns/mdns.h:1303-1395 | an answer under the naming discipline, no TXT record, that fits the buffer with names in full is written and comes back |
| DnsAnswerProof.OtherIgnored | mdns/mdns.h:1104-1105 | of an answer to another query nothing is reported |
| DnsAnswerProof.TxtAnswerLost | mdns/mdns.h:1187-1188 | an answer that is a TXT record is announced and not written, so that no receiver gets all records, whatever the names and the sections are |
| DnsAnswerProof.TxtAnswerLostExample | mdns/mdns.h:1187-1188 | "k=v" alone is sent as a header that announces one record, of which nothing is reported |
| DnsAnswerProof.AnswerReadsBack | mdns/mdns.h:1303-1535 | what the functions for each kind of record return of an answer that comes back: names, targets, services, addresses and TXT pairs as they were given, each exactly under the condition for its kind |
| DnsAnswerProof.CompileStands | mdns/mdns.h:1183-1395 | a compiled message holds header, question and all records one after the other, each with its length filled in, also when a name in it cannot be read back; its names are recorded where they are |
| DnsAnswerProof.AnswerAsks | mdns/mdns.h:1303-1395 | the names written are those of the question and of the records, in order |
| DnsEdits.CompileComposes | mdns/mdns.h:1149-1395 | an answer is composed of names, other bytes and lengths filled in later, which is what the results on composed messages are about |
| DnsAnswerProof.CountMatches | mdns/mdns.h:1289-1301 | the counts in the header are the numbers of records written exactly when sixteen bits can hold them |
| DnsAnswerProof.RecordStep | mdns/mdns.h:1183-1239 | a record added to a message lies at its end with all its fields and data, its names are the ones asked for, and everything before it stays |
| DnsParser.RecordsParse | mdns/mdns.h:757-789 | the loop over records, for any bytes: skipped names, fields, and records whose data goes beyond the buffer left out |
| DnsParser.QueryRecv | mdns/mdns.h:1090-1144 | the sections of a message up to the first that is not complete, for a message of any size in a buffer that can hold a header; nothing for another query id or for more than one question |
| DnsParser.ShortMessage | mdns/mdns.h:1090-1144 | of a message shorter than its header nothing is reported, whatever the buffer held |
| DnsParser.TxtStaysIff | mdns/mdns.h:1501-1516 | what is read of TXT strings does not depend on the memory behind the buffer exactly when every string that is looked at ends in the buffer, or shows there already that it has no pair |
| DnsParser.TxtGoesAstray | mdns/mdns.h:1501-1516 | a string of five bytes cut off after "a" gives a pair when "=" follows behind the buffer |
| DnsParser.RecordParsePtr | mdns/mdns.h:1432-1440 | the text of a PTR record, or nothing when it is too short |
| DnsParser.RecordParseSrv | mdns/mdns.h:1442-1462 | the fields of an SRV record, or zeros when it is too short |
| DnsParser.RecordParseTxt | mdns/mdns.h:1490-1535 | the pairs of a TXT record that have a key before an equals sign, up to a capacity |
| DnsAnswer.ParsesRecords | mdns/mdns.h:757-789 | records that lie one after the other are reported in order, as many as are asked for and there are, whether or not their names can be read |
| DnsAnswer.AllReportIff | mdns/mdns.h:757-789 | what is reported is what was meant exactly when all names read back |
| DnsAnswer.PtrReads | mdns/mdns.h:1432-1440 | the target of a PTR record is read back |
| DnsAnswer.SrvReadsIff | mdns/mdns.h:1442-1462 | an SRV record is read back exactly when its data has at least eight bytes or says nothing, which is so for every host but the root name |
| DnsAnswer.RootHostLost | mdns/mdns.h:1455-1462 | a service on the root host reads as zeros |
| DnsAnswer.AddressReads | mdns/mdns.h:1464-1488 | the address of an A or AAAA record is read back |
| DnsAnswer.TxtReadsIff | mdns/mdns.h:1490-1535 | the pairs of a TXT record are read back, given room, exactly when every key is printable, not empty and without an equals sign, and every string has at most 255 bytes |
| DnsAnswer.EmptyKeyLost | mdns/mdns.h:1517-1518 | a string without a key is not read back |
| DnsAnswer.ReadLonger | mdns/mdns.h:605-641 | a name stays the same when more bytes follow in the buffer |
| OctTreeLoc.IndexIff | core/OctTreeLoc.cpp:123-141 | the index of a child is valid exactly for a location strictly below |
| OctTreeLoc.ChildIsTowards | core/OctTreeLoc.cpp:53-71 | the child with that index is the ancestor one level down |
| OctTreeLoc.DescendReaches | core/OctTreeLoc.cpp:53-141 | going down by `GetChild(IndexOfChild(d))` from any ancestor reaches d |
| OctTreeLoc.ChildIsValid | core/OctTreeLoc.cpp:53-86 | children of valid locations are valid |
| OctTreeLoc.GlobalToLocIff | core/OctTreeLoc.cpp:90-119 | a relative location is valid exactly when the location lies in the parent, and determines the global one |
| OctTreeLoc.GlobalToLocComposes | core/OctTreeLoc.cpp:90-165 | d relative to p, then to q relative to p, is d relative to q |
| OctTreeLoc.ChildOfChild | core/OctTreeLoc.cpp:145-165 | being below is transitive |
| OctTreeLoc.EverythingBelowNowhere | core/OctTreeLoc.cpp:90-165 | the invalid location lies below no valid one, but every valid one, up to level 30, lies below it, one level deeper than it is |
| OctTree.OneChild | core/OctTreeLoc.cpp:123-141 | exactly one of the eight children lies above a deeper location |
| OctTree.OctNode.AddPoint | core/OctTree.cpp:65-98 | a point added keeps the tree: points only in leaves at the deepest level, each where it belongs, in the order added; splitting terminates |
| OctTree.OctTree.AddPoint | core/OctTree.cpp:25-32 | the tree holds the points added so far, and their number |
| OctTree.OctNode.GetLeafNodes | core/OctTree.cpp:38-59 | the list of leaves, with or without the empty ones |
| OctTree.LeavesShow | core/OctTree.cpp:38-59 | without the empty ones it lists each occupied location once, with exactly the points added there, in order |
| OctTree.LeavesTile | core/OctTree.cpp:38-59 | with the empty ones it lists leaves that tile the tree: every deepest location lies in exactly one of them, which holds exactly the points added there |
| OctTree.OctNode.ConsolidatePts | core/OctTree.cpp:100-123 | afterwards each occupied location has exactly one of its points, and the tree is still one |
| OctTree.SortByLoc | core/OctTree.cpp:110-113 | sorting by location keeps the points and how often each occurs |
| OctTree.Unique | core/OctTree.cpp:114-117 | keeps the first of each run |
| OctTree.ThinnedBy | core/OctTree.cpp:110-121 | sorting and keeping the first of each run leaves exactly one point for each location |
| DepthPyramid.LodEmpty | core/DepthPts.cpp:161-196 | a cell of the pyramid is there when any sample of its block is |
| DepthPyramid.LodBetween | core/DepthPts.cpp:161-201 | a cell that is there lies between two samples of its block, so between the least and the greatest |
| DepthMeans.LodIsMean | core/DepthPts.cpp:161-201 | the inverse of a cell is the mean of the inverses of those of its four children that are there |
| DepthMeans.LodOfFullBlock | core/DepthPts.cpp:161-201 | when no sample of its block is missing, the inverse of a cell is the mean of the inverses of all samples of the block |
| DepthPyramid.CellEmpty | core/DepthPts.cpp:161-190 | the same for the averages of the inverses |
| DepthPyramid.CellBetween | core/DepthPts.cpp:161-190 | the same for the averages of the inverses |
| DepthPyramid.BuildLevel | core/DepthPts.cpp:167-190 | one level averaged into the next, in the same array or another, leaving everything else alone |
| DepthPyramid.DepthBuildLods | core/DepthPts.cpp:146-202 | all levels stand one after the other, inverted at the end; what comes after them is untouched |
| DepthHoles.NearestAncestor | core/DepthPts.cpp:204-216 | a sample that is not missing stays, also when it is infinite, and a missing one becomes what its nearest ancestor holds, or zero |
| DepthHoles.FilledFinite | core/DepthPts.cpp:204-216 | nothing is missing afterwards, and a depth is finite exactly when it was not infinite |
| DepthHoles.FilledBetween | core/DepthPts.cpp:161-216 | what is filled in lies between two finite samples, or is zero |
| DepthHoles.ParentsInsideIff | core/DepthPts.cpp:204-216 | every parent is looked for inside the next level exactly when both sides are even, or there are no rows |
| DepthHoles.HalvableIff | core/DepthPts.cpp:217-250 | that is so for all levels of an image exactly when every level that is filled from the next has even sides, or no rows |
| DepthHoles.ReadsBehindTheEnd | core/DepthPts.cpp:203-250 | an image of 640 by 480 without finite depths in the block of 32 by 32 in the lower left corner reads behind the end of the levels |
| DepthHoles.DepthFillEmpty | core/DepthPts.cpp:204-216 | one level filled from the next, when every parent lies inside it |
| DepthHoles.FillHoles | core/DepthPts.cpp:217-250 | all levels are filled from the coarsest to the depths themselves: no depth is missing afterwards, and it is finite exactly when it was not infinite |
| DepthHoles.LodSizes | core/DepthPts.cpp:219-232 | sizes and offsets of the levels that are built and of one more |
| DepthCodec.EncodeSamples | core/DepthPts.cpp:274-319 | the two groups of a block, their averages, and the whole parts |
| DepthCodec.DecodeSamples | core/DepthPts.cpp:355-381 | the decoder finds the groups that the encoder used |
| DepthCodec.EncodePlanes | core/DepthPts.cpp:265-327 | every block of the planes is the encoded block of depths |
| DepthCodec.DecodePlanes | core/DepthPts.cpp:330-387 | every block of depths is the decoded block of the planes |
| DepthCodec.BlockError | core/DepthPts.cpp:252-387 | what is not finite comes back missing; another sample is off by less than one step, and by less than one 255th of that when alone in its group |
| DepthCodec.GroupIff | core/DepthPts.cpp:274-303 | the groups of a block are the finite samples with the whole part of its first finite sample, and the other finite ones |
| DepthCodec.GroupKept | core/DepthPts.cpp:252-387 | each of the two groups keeps its sum: its samples together lose less than one 255th of a step for each |
| DepthCodec.DepthError | core/DepthPts.cpp:252-387 | the same in depths: less than maxDepth/254, and less than maxDepth/(254*255) alone |
| DepthCodec.EncodeIsStable | core/DepthPts.cpp:252-387 | encoding what was decoded gives the same block |
| DepthCodec.BlockComesBack | core/DepthPts.cpp:252-387 | the same for blocks of the planes: decoding and encoding again gives the same bytes |
| DepthCodec.ScaleUnscale | core/DepthPts.cpp:252-333 | scaling by encoder and decoder undo each other |
| DepthImage.ConvertDepthToYUV | core/DepthPts.cpp:217-327 | the depths are filled, and every block of the planes is the encoded block of filled depths |
| DepthImage.ImageComesBack | core/DepthPts.cpp:217-387 | a pixel that is encoded and decoded comes back missing exactly when it was infinite, and a finite one to less than maxDepth/254 |

## Left out

- Memory orders, cache lines, schedulers and exceptions: shared accesses are sequentially consistent and a resumed coroutine simply continues; `resume` makes the other coroutine runnable and returns at any time.
- MultiProducerProof.ContinuesOnce: does not promise that a waiter swept up by another one gets a number at its target, because the code does not keep that.
- MultiProducerProof.NoLostWakeup: is about waits whose starting point is published and not behind the consumers when they are made, and consumers that do not move past the starting point of a waiter that has not continued; the source comment holds them before the target only, with which wakeups are lost (`StaleStart.ServedIff`). Storing into a waiter and raising its flag is one step there.
- SequencerRing.ScanExact: is about one state of the ring; a scan while producers store is covered by the steps of `MultiProducer`.
- SequenceBarrierProof.QuietMeansServed: sequence numbers are unbounded in the two barrier protocols and in the ring; `SequenceNumbers` and `SingleProducer` say when wrapped numbers behave like them.
- AwaiterList.Barrier.Publish: is the sequential course of a publication without concurrent `add_awaiter`, which `SequenceBarrier` has.
- SingleProducer.Sequencer.ClaimUpTo: the wait on the consumers' barrier is a parameter, whose promise is what `SequenceBarrierProof.ContinuesOnce` states.
- RecursiveGenerator.ForEach: is about bodies that are finite, fresh and do not throw; generators that are yielded after they have been started, or twice, are not modelled.
- AsyncGenerator.NeverBroken: the client awaits every operation it makes before the next one, does not go past the end, and destroys the generator only while it is not suspended on it; exceptions and the variant with symmetric transfer are not modelled.
- SharedTask.NobodyLeftBehind: reference counts and the life time of the task object are not modelled.
- DnsNames.StringEqual: labels are compared as `strncasecmp` does in the C locale, which stops at a NUL.
- DnsCompose.AllNamesReadBackIff: names have at most 64 labels of 1 to 63 bytes and the buffer at most 16384 bytes, the reach of a pointer.
- DnsAnswerProof.AnswerRoundTripIff: names have at most 64 labels of 1 to 63 bytes, the buffer at most 16384 bytes, and the callback does not stop the receiver early.
- DnsParser.RecordParseTxt: a string that would go beyond the buffer ends the list; `DnsParser.TxtStaysIff` says when that is what the code does.
- Sockets, interfaces, `mdns_discovery_recv`, `mdns_socket_listen` and `mdns_query_send`: plumbing, or the same readers and writers again.
- OctTree.OctNode.AddPoint: mutexes are left out, locations are at the deepest level as `OctTree::AddPoint` makes them, and the class declarations, which the repository does not show, are taken from their use; `GetTileAtLoc` and `GetBounds` are floating point.
- DepthPyramid.DepthBuildLods: finite samples are positive reals; rounding of floats is not modelled.
- DepthHoles.FillHoles: is about images at least 16 wide, since the code counts down from no levels otherwise, and whose parents are all looked for inside the next level (`DepthHoles.HalvableIff`).
- DepthCodec.EncodePlanes: planes are arrays of two dimensions instead of row pointers into flat ones, and samples scale to less than 255.
- core/DepthPlanes.cpp, the remaining cppcoro headers, rendering, video, network and user interface: not part of this model.
