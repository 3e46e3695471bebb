# Verification of the OPC UA backend

This project models the logic of the ChimeraTK OPC UA device backend in Dafny and proves properties of it. It covers
the backend's own code: the subscription manager and its locks, the path of a value from a callback to an accessor,
reading and writing of arrays, the version cache, and the register catalogue. Calls into open62541, the future queue,
version numbers, register paths and XML parsing appear only through small stated contracts.

`dafny verify dfyconfig.toml` checks everything.

## How it is organised

**Subscription manager, by sections.** `SubscriptionState` is the state of the manager as a value, with one function
for each stretch of code that runs under the item mutex (or updates one flag). What a thread carries from one section
to the next is part of the state: a handler that has tested its item and has not yet pushed is *pending*. A *run*
(`SubscriptionRuns`) is any sequence of such sections by any threads, so a property of all runs holds for every
interleaving of them. The theorems over runs are in `SubscriptionRuns` (accounting), `SubscriptionIndex` (the id
index), `SubscriptionListing` (its pointers), `SubscriptionErrors` and `SubscriptionReading` (errors as they are pushed,
and as a reader sees them), `SubscriptionTaking` (what readers take and newcomers start with), `SubscriptionDelivery` and
`SubscriptionTurns` (ordered delivery), `SubscriptionSilence` (nothing after deactivation), `SubscriptionHandlers` (use of items and entries that are gone) and `SubscriptionServer`
(how many subscriptions the server holds). `SubscriptionCounterexamples` holds the runs that show where a stronger claim would be false.

**Subscription manager, as code.** `SubscriptionManager` is the class with its fields and loops. Each method is proved
equal to a function of `SubscriptionState` or of `SubscriptionCalls` (a whole call as a composition of sections), and
each call is shown to be a run, so that it keeps what runs keep. `CallEffects` says what a caller finds after each call. `LoopSteps` relates one pass of a loop to a section.
`Backend` adds opening, closing, activation and the two callbacks, and proves recovery: whatever state the manager and
its index have come to, after a successful reconnect each new id delivers to exactly the accessors of its item.
`DequeIdentity` says, over all runs, when the raw pointers in the index stay right while the deque they point into grows
and loses elements.

**Locks.** `LockModel` is a step model of all threads: what each source function does with the four kinds of locks,
the flags and the client thread. `LockSafety` and `LockRuns` prove the lock order, mutual exclusion, and that the only
possible deadlock is a thread waiting for a client lock it holds. `LockCallbacks` says exactly when that happens and
proves freedom from deadlock when it cannot; `LockDeadlock` is a schedule in which it does happen. `LockHandlers` says
which handlers can overlap, `LockEffects` what the calls get done in every schedule.

**Values.** `Converter` (saturating conversion), `Windows` and `AccessorTransfer` (array windows, reads, partial writes),
`ManagedValue` (ownership of value blocks), `VersionMapper` (bounded version cache).

**Catalogue.** `Numbers` (decimal text), `CatalogueCache`, `CacheRoundTrip` and `CacheFormat` (cache file), `MapFile` and
`MapFileMeaning` (two readers, and what entries mean to both),
`CatalogueNames` (derived register names), `Browse` (recursive browsing).

## What turned out not to hold

Each of these is proved by a concrete run or input, next to the exact condition under which the code does what one
would expect.

- A join of the client thread may complete while a callback is inside `deactivate` under the client lock. The callback
  then finds no client thread and takes the lock again (`LockDeadlock`). A thread gets stuck exactly when this happens.
- A value may be pushed after `deactivate`, because `responseHandler` tests `active` before it takes the mutex. Silence
  holds for every continuation exactly when no handler is between its test and its push (`SilentExactly`).
- If a reset or an unsubscribe comes in the same place, the handler uses a null entry. This happens exactly when the
  entry was taken out after the test and not put back (`LatePushExactly`).
- A creation may complete on an item that was unsubscribed during the client call, or on one that an overlapping call
  of `addMonitoredItems` has monitored meanwhile; both leave an index entry that fits no item. The index is sound
  throughout a run exactly when neither happens (`RunSoundExactly`). When such an item is unsubscribed, an entry is left
  that leads to an erased item, and `deactivate` or a handler follows it (`RunListedExactly`, `BrokenExactly`).
- After a reset, an item that is not monitored keeps its old id; unsubscribing it may delete the entry of another item.
  `RunCompleteExactly` has the condition.
- A handler may overtake another one, and a direct read or write through a subscribed accessor changes what a late
  subscriber is given as initial value. Delivery is ordered exactly when neither happens (`RunOrderedExactly`).
- Two errors that were pushed with a value between them may reach a reader in a row, when the second one meets a full
  queue and replaces that value (`ReadersUnrepeatedExactly`).
- A failed delete of a subscription is forgotten, and two overlapping calls of `createSubscription` do not see each
  other; either leaves two subscriptions on the server (`OneSubscriptionExactly`).
- `deactivate` does not reach active items that are missing from the index.
- Erasing an item in the middle of the deque relocates others that the index points to.
- The window check adds in 64 bits and accepts a window whose end wraps around.
- A partial write with an index range writes the selected block as the whole array.
- A write to the same array between the read and the write of a partial write is lost outside the window.
- Conversion to a floating point type saturates below at the smallest positive value.
- A missing source time stamp (0) overflows the conversion to nanoseconds.
- Nodes with numeric ids lose part of their name when there is a root node.
- Map file entries whose first word starts with `#` or `<` exist only for the XML reader, unless the line starts with a
  blank, which keeps it from being a comment.
- A catalogue with an empty server address or an empty node id cannot be read back from its cache file.

Where the code and its documentation differ, the model follows the code: the header of the subscription manager says
that createSubscription and addMonitoredItems hold the client lock, but they hold it only around the client calls
(include/SubscriptionManager.h:167-183, src/SubscriptionManager.cc:195-278), and a wrong root tag of an XML file is not
rejected, although an exception object is created for it (src/XmlTools.cc:43-45).

## Model

| member | source | states |
|---|---|---|
| FutureQueue.PushOverwrite | src/SubscriptionManager.cc:183 | the new element is the back, the others keep their places, and the capacity of 3 is never exceeded |
| SubscriptionState.FindName | src/SubscriptionManager.cc:290 | the first item with the browse name, or the end if there is none |
| SubscriptionState.InitialValue | src/SubscriptionManager.cc:321-336 | an initial value has data and is the other accessor's last value or still in its queue; NewcomerCatchesUp says which one |
| SubscriptionRuns.StepShape | src/SubscriptionManager.cc:105-193 | everything except subscribing and unsubscribing leaves names, accessor lists and the set of accessors as they are |
| SubscriptionRuns.AppendItem | src/SubscriptionManager.cc:292-296 | subscribing a new name adds exactly this accessor to the subscribed ones and keeps names distinct |
| SubscriptionRuns.AppendAccessor | src/SubscriptionManager.cc:310-338 | the same for a name that exists |
| SubscriptionRuns.DropAccessor | src/SubscriptionManager.cc:371-374 | removing one of several accessors takes exactly this accessor out and leaves no list empty |
| SubscriptionRuns.DropItem | src/SubscriptionManager.cc:375-380 | removing the last accessor removes the item and nothing else |
| SubscriptionRuns.RunAccounting | src/SubscriptionManager.cc:285-381 | in every run with one subscribe and at most one unsubscribe per accessor: names are distinct, no list is empty, and the lists partition exactly the accessors subscribed at that point |
| SubscriptionIndex.MonitorSound | src/SubscriptionManager.cc:249-267 | a completed creation keeps the index sound if and only if its item is still on the list and no entry under another id names it |
| SubscriptionIndex.MonitorComplete | src/SubscriptionManager.cc:256-268 | from any index, sound or not: it keeps every monitored item findable if and only if no other monitored item carries the id |
| SubscriptionIndex.RemoveItemIndex | src/SubscriptionManager.cc:375-380 | removing an item keeps the index sound; it keeps it complete, sound or not, if and only if no other monitored item carries the id left in it |
| SubscriptionIndex.RunSoundExactly | src/SubscriptionManager.cc:228-278 | over every run: the index is sound in every state if and only if every creation completes on a listed item that no other entry names |
| SubscriptionIndex.RunSound | include/SubscriptionManager.h:197-204 | so in every run whose creations complete on listed items that are still unmonitored, each index entry names a listed, monitored item with that id |
| SubscriptionIndex.RunCompleteExactly | src/SubscriptionManager.cc:228-381 | over every run, unsound indexes included: every monitored item is found under its id in every state if and only if no creation is given the id of another monitored item, and no item is erased that carries one |
| SubscriptionIndex.RunComplete | include/SubscriptionManager.h:197-204 | so if ids are never reused, every monitored item is found under its id in every run, and no issued id is in two items |
| SubscriptionIndex.SearchFinds | include/SubscriptionManager.h:200-202 | the linear search by id returns a monitored item with that id, or there is none |
| SubscriptionIndex.IndexRefinesSearch | src/SubscriptionManager.cc:175-184 | in every run that meets the two exact conditions, both halves of responseHandler, the test without a lock and the push under the mutex, have exactly the effect that a linear search of the items by id would have, for every id, value and pending handler, the missing item included |
| SubscriptionIndex.FreshIdsRefineSearch | src/SubscriptionManager.cc:175-184 | so whenever the index is sound and ids are never reused |
| SubscriptionListing.RunListedExactly | src/SubscriptionManager.cc:256-268 | over every run: no index entry leads to an erased item in any state if and only if no creation completes on an erased item and no item is erased while an id other than its own names it |
| SubscriptionErrors.PushErrors | src/SubscriptionManager.cc:177-184 | the push under the mutex clears the exception mark exactly where the accessors are told something else, however late it comes |
| SubscriptionErrors.UntoldMember | src/SubscriptionManager.cc:419 | whoever handleException addresses was not told an error last |
| SubscriptionErrors.RunErrors | include/SubscriptionManager.h:36-37 | in every run the mark of an item covers all accessors whose last entry is an error |
| SubscriptionErrors.ErrorsNeverRepeat | src/SubscriptionManager.cc:411-437 | between any two errors ever pushed to an accessor there is a notification from the server |
| SubscriptionErrors.FailTellsOnce | src/SubscriptionManager.cc:411-429 | every accessor of every active, unmarked item gets exactly one error, nobody else gets anything, and repeating the call changes nothing |
| SubscriptionReading.PushApartExactly | include/OPC-UA-BackendRegisterAccessor.h:285-293 | another entry is read apart from a failure before it if and only if it is no failure itself, or what a full queue keeps in front of it does not end in one |
| SubscriptionReading.ReadersUnrepeatedExactly | include/OPC-UA-BackendRegisterAccessor.h:285-293 | over every run, notifications without a value counting as failures: no reader ever sees two failures in a row if and only if no step tells one to a queue whose kept part ends in one |
| SubscriptionReading.ReadersOfValuesExactly | include/OPC-UA-BackendRegisterAccessor.h:285-293 | while the server publishes values: if and only if every exception finds a queue with room, or one that does not lose the value between two errors; the mark of the item ensures the rest |
| SubscriptionReading.ErrorsMeetInFullQueue | src/SubscriptionManager.cc:423-426 | a full queue in which a second error replaces the value that followed the first one |
| SubscriptionTaking.PopTakes | include/OPC-UA-BackendRegisterAccessor.h:285-292 | one read takes the front entry and nothing else: a value becomes the last value and is consumed, even if there is one already; anything else leaves both alone; nobody else notices |
| SubscriptionTaking.RunTaken | include/OPC-UA-BackendRegisterAccessor.h:285-292 | in every state of every run what an accessor has consumed is exactly the values among the entries it has taken, in order, and its last value is the last of them unless it has read or written directly since |
| SubscriptionTaking.RunLosslessExactly | include/OPC-UA-BackendRegisterAccessor.h:285-292 | over every run: whatever was pushed has been taken or is still queued, in order, if and only if every push finds room |
| SubscriptionTaking.NewcomerCatchesUp | src/SubscriptionManager.cc:321-338 | a newcomer to an active item starts with what the accessor that was last on its list would take next, or with its last value when nothing is queued, so that one read of each leaves both with the same value; it starts with nothing if and only if there is no such value; the other accessor notices nothing |
| SubscriptionTaking.NewcomerIsLast | src/SubscriptionManager.cc:338 | it joins the end of the list, from which the next newcomer copies |
| SubscriptionTaking.DirectReplaces | include/OPC-UA-BackendRegisterAccessor.h:315-324 | a direct read, and a direct write by an accessor that has a value, replace the last value and nothing else, what is queued included |
| SubscriptionDelivery.PushOrderedExactly | src/SubscriptionManager.cc:177-184 | a push keeps the queues and everything consumed in order of publication if and only if the id, when it leads to a listed item at all, still names the item that was tested and no later value of it has come first |
| SubscriptionDelivery.SubscribeOrderedExactly | src/SubscriptionManager.cc:310-338 | subscribing keeps them in order if and only if the initial value is not one that another accessor read or wrote directly since its last pop |
| SubscriptionDelivery.PopOrdered | include/OPC-UA-BackendRegisterAccessor.h:285-292 | consuming the front of the queue keeps the order of what was consumed and what is still queued |
| SubscriptionDelivery.RunOrderedExactly | src/SubscriptionManager.cc:165-340 | over every run, unsound indexes and direct reads and writes included: everything queued and consumed is in order of publication in every state if and only if every push comes in turn and every subscription copies a published value or none |
| SubscriptionDelivery.DeliveredInOrder | src/SubscriptionManager.cc:175-186 | then what an accessor consumes is a subsequence of what its item published, initial values included |
| SubscriptionTurns.NoneOvertakenKeepsOrder | src/SubscriptionManager.cc:175-184 | every push comes in turn if, of two values of one item, the one pushed first was published first, and no id is issued for another item while a handler with it is pending |
| SubscriptionTurns.DeliveredUnlessOvertaken | src/SubscriptionManager.cc:165-193 | in such runs accessors consume in order of publication, whatever else is interleaved |
| SubscriptionTurns.TurnsOvertakeNothing | src/SubscriptionManager.cc:165-193 | handlers that do not overlap each other overtake nothing |
| SubscriptionTurns.DeliveredInTurns | src/SubscriptionManager.cc:165-193 | so values that non-overlapping handlers deliver under ids that are never reused are consumed in order |
| SubscriptionSilence.OnlyLatePushes | src/SubscriptionManager.cc:121-184 | from any state: after deactivate, until something is activated or newly monitored, no handler passes its test, and the pushes still to come are counted exactly by the handlers that had passed it before |
| SubscriptionSilence.SilentExactly | src/SubscriptionManager.cc:121-184 | whatever the index has come to: nothing is pushed, and nothing erased used, after deactivate in any such continuation if and only if no handler is between its test and its push |
| SubscriptionSilence.MonitorQuiet | src/SubscriptionManager.cc:228-268 | monitoring an item again keeps the silence if and only if the item is inactive |
| SubscriptionHandlers.EntryExactly | src/SubscriptionManager.cc:256-381 | over every run: the index holds an id for an item if and only if a creation issued it for this item and it was neither issued again nor taken out by a reset or an unsubscribe since |
| SubscriptionHandlers.EntryGoneExactly | src/SubscriptionManager.cc:345-381 | an entry that was there at some point is gone later if and only if a reset or an unsubscribe took it out and no creation put it back since |
| SubscriptionHandlers.PresentExactly | src/SubscriptionManager.cc:290-381 | over every run: an item is on the list if and only if some subscribe made it and no unsubscribe has erased it |
| SubscriptionHandlers.LatePushExactly | src/SubscriptionManager.cc:175-178 | over every run: a handler that passed its test finds no entry at its push if and only if the entry was taken out after that test and not put back |
| SubscriptionHandlers.BrokenExactly | src/SubscriptionManager.cc:121-437 | over every run, told by its earlier steps and the states they start from: an erased item or missing entry is used if and only if a handler pushes after its entry was taken out, a handler or deactivate follows an id whose item was erased since, or a creation or setExternalError comes after its item was erased |
| SubscriptionHandlers.ListedBrokenExactly | src/SubscriptionManager.cc:121-437 | while no entry leads to an erased item, only a late push or flagging an erased item is left, if and only if |
| SubscriptionServer.OneSubscriptionExactly | src/SubscriptionManager.cc:151-226 | over every run: the server holds at most the one subscription the manager knows, in every state, if and only if no creation comes beside another live subscription, no delete of a live one fails, and no other than the only one is lost |
| SubscriptionServer.ActiveHeldExactly | src/SubscriptionManager.cc:30-37 | over every run: whenever the subscription counts as active the server holds it, if and only if no delete of an active one fails |
| SubscriptionCalls.CallsKeepOneSubscription | src/SubscriptionManager.cc:105-409 | every call of the manager, made alone and with successful deletes, keeps it so |
| SubscriptionCounterexamples.OverlappingCreationsUnsound | src/SubscriptionManager.cc:234-267 | a run of two overlapping creations with fresh ids that ends with an unsound index |
| SubscriptionCounterexamples.StrayEntryUsed | src/SubscriptionManager.cc:121-128 | after two overlapping creations, unsubscribing the item leaves an entry to it, which the next deactivate uses |
| SubscriptionCounterexamples.CreationOnErasedItem | src/SubscriptionManager.cc:249-267 | a run in which an item is unsubscribed during its creation call, which then completes on the erased item and leaves an unsound index |
| SubscriptionCounterexamples.PushAfterDeactivate | src/SubscriptionManager.cc:175-184 | a run in which a value is pushed to an accessor of an item that deactivate has set inactive |
| SubscriptionCounterexamples.PushAfterReset | src/SubscriptionManager.cc:175-178 | a run in which a handler uses the null entry of an id that a reset has taken out of the index |
| SubscriptionCounterexamples.OvertakenHandler | src/SubscriptionManager.cc:175-184 | a run of two handlers for one item whose values reach the queue in reverse |
| SubscriptionCounterexamples.OverlappingSubscriptions | src/SubscriptionManager.cc:195-226 | two creations that overlap leave two subscriptions although no delete fails |
| SubscriptionCounterexamples.StaleIdLosesEntry | src/SubscriptionManager.cc:345-381 | a run with a reused id in which unsubscribing one item makes another unfindable |
| SubscriptionCounterexamples.DirectAccessLeaks | include/OPC-UA-BackendRegisterAccessor.h:323-361 | after a direct read or write a late subscriber consumes a value its item never published |
| SubscriptionCounterexamples.UnindexedItemStaysActive | src/SubscriptionManager.cc:126-128 | an item whose creation failed survives deactivate as active and is served again once it is monitored |
| SubscriptionCalls.AddUpToProgress | src/SubscriptionManager.cc:230-276 | after n passes of the loop exactly the first n items are monitored and indexed under their new ids |
| SubscriptionCalls.AddedRebuilds | src/SubscriptionManager.cc:228-278 | if all creations succeed, every item is monitored and the index is a bijection between issued ids and items |
| SubscriptionCalls.DeactivatedReach | src/SubscriptionManager.cc:121-149 | deactivate is a run of sections |
| SubscriptionCalls.ActivatedReach | src/SubscriptionManager.cc:105-119 | activate is a run of sections, with whatever the server answers |
| SubscriptionCalls.SubscribedReach | src/SubscriptionManager.cc:285-340 | subscribe is a run of sections, including the subscription and items it may create |
| SubscriptionCalls.UnsubscribedReach | src/SubscriptionManager.cc:359-409 | unsubscribe is a run of sections, including the removal of the subscription |
| SubscriptionCalls.ReachesValid | src/SubscriptionManager.cc:105-437 | whatever is a run of sections keeps accounting and index soundness |
| CallEffects.ActivatedRebuilds | src/SubscriptionManager.cc:105-119 | activation with nothing monitored, or with a left-over subscription to remove first, monitors and indexes every item under its issued id, a bijection, and activates it |
| CallEffects.ActivatedDelivers | src/SubscriptionManager.cc:105-119 | so a value under an issued id reaches exactly the accessors of its item |
| CallEffects.ActivatedKeeps | src/SubscriptionManager.cc:105-119 | with a live subscription and something indexed, activation changes no id, entry or monitored mark, activates every item and tells nobody anything |
| CallEffects.RefusedIsTold | src/SubscriptionManager.cc:261-266 | a creation the server refuses is told as one error to every accessor of every active item that was not told before, and indexes nothing |
| CallEffects.AcceptedTellsNobody | src/SubscriptionManager.cc:235-267 | one that it accepts tells nobody anything, and a monitored item keeps its id |
| CallEffects.AddedActivity | src/SubscriptionManager.cc:231-233 | adding monitored items while reading is off activates nothing |
| CallEffects.SubscribedServes | src/SubscriptionManager.cc:292-308 | a new name while reading is on: its item ends up active, monitored and indexed, and what is published under its id reaches the new accessor |
| CallEffects.SubscribedQuietly | src/SubscriptionManager.cc:285-340 | while reading is off, or for a name that exists, subscribing monitors, indexes and activates nothing |
| CallEffects.UnsubscribedEndsExactly | src/SubscriptionManager.cc:383-408 | unsubscribing ends the subscription if and only if the only accessor of the only item goes, the item has had an id and the client is connected |
| CallEffects.IdToDeleteExactly | src/SubscriptionManager.cc:375-380 | the id to delete on the server is that of the item that goes, and 0 if none goes |
| CallEffects.StoppedEnds | src/SubscriptionManager.cc:353-358 | joining the client thread ends the subscription if and only if its removal was pending |
| CallEffects.DeactivatedEnds | src/SubscriptionManager.cc:121-149 | deactivate ends the subscription if and only if it was active and there is no client thread; reading and the subscription count as off in any case |
| CallEffects.CreatedKnown | src/SubscriptionManager.cc:195-226 | creating leaves exactly what the server granted, after a left-over subscription has gone |
| CallEffects.ToldAgain | src/SubscriptionManager.cc:177-184 | a value clears the mark of its item and of no other, so that the next exception is told to all its accessors again |
| CallEffects.MarkedIsNotTold | src/SubscriptionManager.cc:431-437 | setExternalError marks the item of the name alone, and the next exception tells its accessors nothing |
| SubscriptionManager.OPCUASubscriptionManager.constructor | src/SubscriptionManager.cc:342-343 | a new manager is in the initial state of runs |
| SubscriptionManager.OPCUASubscriptionManager.PushAll | src/SubscriptionManager.cc:181-184 | each listed accessor gets the notification once, no other gets anything |
| SubscriptionManager.OPCUASubscriptionManager.ResponseHandler | src/SubscriptionManager.cc:165-193 | both halves without interruption: the loop over the accessors pushes as the sections say, and unknown ids are ignored |
| SubscriptionManager.OPCUASubscriptionManager.HandleException | src/SubscriptionManager.cc:411-429 | the loop over items and accessors tells the error as the exception section says |
| SubscriptionManager.OPCUASubscriptionManager.SetExternalError | src/SubscriptionManager.cc:431-437 | exactly the first item with the name is marked; every other item keeps its fields, and an unknown name changes nothing |
| SubscriptionManager.OPCUASubscriptionManager.ResetMonitoredItems | src/SubscriptionManager.cc:345-351 | no item stays monitored, ids are kept, the index is emptied |
| SubscriptionManager.OPCUASubscriptionManager.ActivateItems | src/SubscriptionManager.cc:114-117 | every item becomes active |
| SubscriptionManager.OPCUASubscriptionManager.DeactivateMapped | src/SubscriptionManager.cc:125-128 | exactly the items the index names become inactive, each once, even if two ids name one item |
| SubscriptionManager.OPCUASubscriptionManager.RemoveSubscription | src/SubscriptionManager.cc:151-158 | no item stays monitored, the index is empty and the id is forgotten, whether or not the delete succeeds |
| SubscriptionManager.OPCUASubscriptionManager.CreateSubscription | src/SubscriptionManager.cc:195-226 | a left-over subscription is removed first; failure leaves no subscription and is reported |
| SubscriptionManager.OPCUASubscriptionManager.AddMonitoredItems | src/SubscriptionManager.cc:228-278 | the loop makes the passes in list order, each as the model says, with an exception told for each failed creation |
| SubscriptionManager.OPCUASubscriptionManager.AddPass | src/SubscriptionManager.cc:231-275 | one pass activates its item if reading is on, and creates, indexes or reports an error exactly if it is not monitored |
| SubscriptionManager.OPCUASubscriptionManager.Prepare | src/SubscriptionManager.cc:280-283 | creation and adding in this order, adding only after success; keeps accounting, and soundness where it holds |
| SubscriptionManager.OPCUASubscriptionManager.Activate | src/SubscriptionManager.cc:105-119 | monitored items are added only into an empty index, otherwise all items are activated; fails exactly when a needed subscription cannot be created; keeps accounting, and soundness where it holds |
| SubscriptionManager.OPCUASubscriptionManager.Deactivate | src/SubscriptionManager.cc:121-149 | from any state whose index leads to listed items, sound or not: the subscription is removed here exactly when there is no client thread; otherwise the removal is left pending; keeps accounting, and soundness where it holds |
| SubscriptionManager.OPCUASubscriptionManager.DeactivateAllAndPushException | src/SubscriptionManager.cc:160-163 | errors are told before items are deactivated |
| SubscriptionManager.OPCUASubscriptionManager.Subscribe | src/SubscriptionManager.cc:285-340 | fails exactly when a needed subscription cannot be created; keeps accounting, and soundness where it holds |
| SubscriptionManager.OPCUASubscriptionManager.AddToItem | src/SubscriptionManager.cc:310-338 | the accessor joins the list of the item; it gets one initial value, from the accessor that was last in the list, exactly if the item is active and there is one |
| SubscriptionManager.OPCUASubscriptionManager.Unsubscribe | src/SubscriptionManager.cc:359-409 | the thread is stopped exactly when the last item went, its id was set and the client is connected; a removal that is pending then is carried out if the thread was still in its loop; keeps accounting, and soundness where it holds |
| SubscriptionManager.OPCUASubscriptionManager.TakeOut | src/SubscriptionManager.cc:362-381 | an id to delete on the server is reported exactly when the item itself goes, and the index loses the entry under that id |
| SubscriptionManager.OPCUASubscriptionManager.LeaveLoop | src/SubscriptionManager.cc:90-96 | the end of the client thread carries out a removal that is pending at that point, and no later one |
| SubscriptionManager.OPCUASubscriptionManager.StopClientThread | src/SubscriptionManager.cc:353-358 | afterwards there is no thread; a pending removal has been carried out if the thread had not left its loop, and stays pending otherwise |
| SubscriptionManager.OPCUASubscriptionManager.Start | src/SubscriptionManager.cc:48-62 | the run flag equals the subscription flag, and a thread exists whenever it is set |
| SubscriptionManager.OPCUASubscriptionManager.Read | include/OPC-UA-BackendRegisterAccessor.h:285-292 | the entry read was the front of the queue and the rest keeps its order; an error leaves the last value alone, and no other accessor changes |
| Backend.OpcUABackend.ResetClient | src/OPC-UA-Backend.cc:467-485 | from any state whose index leads to listed items, sound or not: afterwards nothing is monitored or indexed, no client thread exists, and names and lists are what they were |
| Backend.OpcUABackend.Connect | src/OPC-UA-Backend.cc:529-560 | from any such state, if everything succeeds, the state is that of the recovery below, every item is monitored and the index is a bijection between the newly issued ids and the items |
| Backend.OpcUABackend.Open | src/OPC-UA-Backend.cc:487-517 | an open connection is left alone; otherwise opening succeeds exactly when connecting and creating succeed and the session is up by the end of the wait, and then all items are monitored and indexed under the new ids |
| Backend.OpcUABackend.Close | src/OPC-UA-Backend.cc:519-527 | afterwards nothing is monitored, no client thread exists, and names and lists are what they were |
| Backend.OpcUABackend.ActivateAsyncRead | src/OPC-UA-Backend.cc:562-579 | a device that is not functional is left alone; a failed creation ends the program; otherwise every item is active and a client thread exists, and a new one runs |
| Backend.ActivatedAllActive | src/SubscriptionManager.cc:105-119 | whichever branch activate takes, every item is active afterwards unless the subscription could not be created |
| Backend.RecoveryRebuilds | src/OPC-UA-Backend.cc:467-560 | recovery from any state of the manager, unsound index included: deactivating, resetting, creating and adding again make the index a bijection between the new ids and the items, keep names and lists, and use nothing erased if and only if no entry led to an erased item |
| Backend.RecoveryDelivers | src/OPC-UA-Backend.cc:467-579 | after this and an activation each newly issued id delivers to exactly the accessors of its item |
| Backend.OpcUABackend.StateCallback | src/OPC-UA-Backend.cc:110-119 | a loss of the connection of an open device with a running client deactivates and tells everybody; otherwise nothing changes |
| Backend.OpcUABackend.InactivityCallback | src/OPC-UA-Backend.cc:122-141 | only a report for the current subscription counts |
| DequeIdentity.EraseKeepsExactly | src/SubscriptionManager.cc:379 | after an erasure all index pointers are right if and only if none points to the side that moved |
| DequeIdentity.EraseWithEntryExactly | src/SubscriptionManager.cc:376-379 | the pointers left when an item goes with one entry are right if and only if no other entry names it and none points to the side that moved |
| DequeIdentity.EraseAtEnd | src/SubscriptionManager.cc:379 | erasing at either end relocates nothing |
| DequeIdentity.PushBackKeeps | src/SubscriptionManager.cc:295 | appending an item keeps all pointers right |
| DequeIdentity.UnsubscribeKeepsPointersExactly | src/SubscriptionManager.cc:375-380 | unsubscribe leaves right pointers if and only if no other entry names the item it erases and the erasure relocates no item that an entry names |
| DequeIdentity.RunPointersExactly | src/SubscriptionManager.cc:228-381 | over every run, with the deque and the pointers carried along: every pointer in the index leads to the item it was made for, in every state, if and only if no creation completes on an erased item and every unsubscribe keeps the pointers right |
| DequeIdentity.MiddleErasureDangles | src/SubscriptionManager.cc:379 | with three items the pointer to the last one dangles after erasing the middle one |
| LockSafety.ExpandOrdered | src/SubscriptionManager.cc:64-149 | every piece of every function keeps the lock order from there to the end of its thread, except the re-locking step of an orphaned callback |
| LockSafety.AfterCallOrdered | src/OPC-UA-Backend.cc:548-553 | leaving a call by an exception leaves no lock behind |
| LockSafety.CbOrdered | src/OPC-UA-Backend.cc:110-141 | callbacks under the client lock stay in order as long as the client thread they test for exists |
| LockSafety.AddNextOrdered | src/SubscriptionManager.cc:229-277 | the item mutex is released around the client call and taken again after it |
| LockRuns.TraceOk | src/SubscriptionManager.cc:64-149 | in every reachable state every unfinished thread is in order or relocked, and no lock has two holders |
| LockRuns.LocksInOrder | src/SubscriptionManager.cc:228-409 | in every reachable state a thread takes only locks that rank above all it holds, and joins holding nothing, unless it is relocked |
| LockRuns.Progress | src/SubscriptionManager.cc:64-103 | while no thread is relocked, some thread can go on whenever one is unfinished |
| LockRuns.DeadlockMeansRelocked | src/SubscriptionManager.cc:137-146 | a reachable state in which nobody can go on has a thread waiting for a client lock it holds |
| LockCallbacks.RelockExactly | src/SubscriptionManager.cc:137-146 | a step relocks its thread if and only if it is deactivate, called back under the client lock, finding no client thread |
| LockCallbacks.RelockedExactlyAfterOrphan | src/SubscriptionManager.cc:137-146 | over every run: some thread is relocked if and only if such a step was taken |
| LockCallbacks.RelockedForEver | src/SubscriptionManager.cc:144 | a relocked thread never moves again |
| LockCallbacks.RunImpliesThread | src/SubscriptionManager.cc:51-55 | in every reachable state a set run flag means that there is a client thread that has not ended |
| LockCallbacks.QuietTraceOk | src/SubscriptionManager.cc:353-358 | if joins complete only while the client lock is free, no callback under it outlives the client thread it relies on |
| LockCallbacks.DeadlockFree | src/SubscriptionManager.cc:353-409 | under such joins, in every reachable state some thread can go on whenever one is unfinished |
| LockDeadlock.JoinUnderCallbackDeadlocks | src/SubscriptionManager.cc:353-358 | a schedule of two user threads and the client thread that ends with a thread waiting for a lock it holds |
| LockHandlers.HandlersTakeTurns | src/SubscriptionManager.cc:165-226 | in every reachable state at most one thread is in a callback inside a client call made under the client lock, so handlers overlap only with one that runs inside the removal by createSubscription |
| LockEffects.FlagsWrittenExactly | src/SubscriptionManager.cc:48-149 | which steps set and clear the run flag, the subscription flag, the removal flag and the thread pointer, and that no other step does |
| LockEffects.DoneBetween | src/OPC-UA-Backend.cc:467-591 | in every schedule a thread that has an instruction ahead of it, whatever is chosen on the way, and later has not, has done it in between |
| LockEffects.CallsDeactivate | src/SubscriptionManager.cc:121-149 | in every schedule setException, resetClient, connect, close and the destructor have cleared the run flag and the subscription flag by the time they are through |
| LockEffects.CallsJoin | src/SubscriptionManager.cc:353-358 | and all but the first have joined the client thread by then |
| LockEffects.RemovalGoesOn | src/SubscriptionManager.cc:90-146 | whoever is responsible for removing the subscription goes on to do it under the client lock: deactivate without a client thread, otherwise the client thread after its loop |
| Converter.RoundIsNearest | include/OPC-UA-BackendRegisterAccessor.h:46 | rounding gives the nearest integer, of two the one further from zero, and no other number does |
| Converter.ConvertClampsRounded | include/OPC-UA-BackendRegisterAccessor.h:56-66 | conversion to an integer type equals rounding, then clamping into the type |
| Converter.ConvertMonotone | include/OPC-UA-BackendRegisterAccessor.h:56-66 | it keeps the order and stays within the type |
| Converter.ConvertWithinHalf | include/OPC-UA-BackendRegisterAccessor.h:56-66 | an input within the limits moves by at most one half |
| Converter.WriteThenRead | include/OPC-UA-BackendRegisterAccessor.h:259-260 | an integer written through one type and read through another is clamped into both, and comes back unchanged if and only if it lies in both |
| Converter.ReadIdempotent | include/OPC-UA-BackendRegisterAccessor.h:342 | converting a second time changes nothing |
| Converter.FloatSaturatesExactly | include/OPC-UA-BackendRegisterAccessor.h:63-65 | for a floating point type the result is the nearest value of the type if and only if the input is not below its lowest one |
| Windows.AcceptedWindows | src/OPC-UA-Backend.cc:614-623 | an accepted window lies in the register if and only if its end does not wrap, and every proper window is accepted |
| Windows.WholeRegister | src/OPC-UA-Backend.cc:614-623 | a request without a number of words is one for all elements of the register, each read converted, and is refused at any offset but 0 |
| Windows.WrappedWindowAccepted | src/OPC-UA-Backend.cc:614 | a window beyond any register that the check accepts |
| Windows.BlockSelects | src/ManagedTypes.cc:103-108 | a range selects something if and only if it is proper and its first element exists: the elements from min to max or to the end of the array; no range selects everything |
| Windows.WindowOverRange | src/OPC-UA-Backend.cc:434-450 | over a range inside the array every accepted window reads in bounds, and word i is element min + offset + i |
| Windows.WindowOverCutRange | src/ManagedTypes.cc:103-108 | over a range that ends beyond the array a window reads in bounds if and only if the elements it names exist |
| Windows.ReadAfterWrite | include/OPC-UA-BackendRegisterAccessor.h:338-361 | after a write a read through any window sees the words written, clamped into both types, and all other elements as before |
| Windows.SplicesCommuteExactly | include/OPC-UA-BackendRegisterAccessor.h:358-362 | two writes commute if and only if they agree where they overlap |
| Windows.DisjointWritesCommute | include/OPC-UA-BackendRegisterAccessor.h:358-362 | writes to disjoint windows commute |
| Windows.LostUpdateExactly | include/OPC-UA-BackendRegisterAccessor.h:354-365 | a write that comes between the read and the write of a partial write survives if and only if it changes neither the length of the array nor anything outside the window |
| Windows.WriteOverRangeExactly | src/ManagedTypes.cc:103-108 | with an index range the written value is the intended splice if and only if the range covers the whole array |
| AccessorTransfer.Accessor.constructor | include/OPC-UA-BackendRegisterAccessor.h:268-312 | a new accessor has no value, and is partial if its length differs from the register's |
| AccessorTransfer.Accessor.CopyVariant | src/ManagedTypes.cc:97-115 | afterwards there is a value exactly if the range selects one, and it is a fresh copy of the selected elements |
| AccessorTransfer.Accessor.DoReadTransferSynchronously | include/OPC-UA-BackendRegisterAccessor.h:315-324 | a good read replaces the block by the server's value, a failed one changes nothing |
| AccessorTransfer.Accessor.DoPostRead | include/OPC-UA-BackendRegisterAccessor.h:327-345 | the buffer becomes the converted window of the block, or stays if there is no value |
| AccessorTransfer.Accessor.PutWords | include/OPC-UA-BackendRegisterAccessor.h:358-362 | the loop splices the converted buffer into the block and touches nothing else |
| AccessorTransfer.Accessor.DoWriteTransfer | include/OPC-UA-BackendRegisterAccessor.h:351-378 | for any index range and any length of the server array: a successful write replaces the array by the block just read or left before, with the converted window put in; without a range and with an unchanged length exactly the positions of the window change; any other outcome leaves the array alone |
| AccessorTransfer.WriteThenReadElsewhere | include/OPC-UA-BackendRegisterAccessor.h:327-378 | another accessor with any window reads the array with the write spliced in |
| ManagedValue.MoveAssignConservesExactly | src/ManagedTypes.cc:69-95 | a move assignment neither loses a block nor frees an owned one if and only if both sides own what they hold |
| ManagedValue.AssigningToMovedFromFreesTwice | src/ManagedTypes.cc:69-122 | assigning into a slot that was moved from frees the block of its new owner, which later frees it again |
| ManagedValue.PushOwns | src/SubscriptionManager.cc:182-183 | a push moves the ownership of the copied block into the new slot and frees the block of a replaced one |
| ManagedValue.PopOwns | include/OPC-UA-BackendRegisterAccessor.h:285-292 | a pop moves the ownership into the accessor and frees the accessor's old block |
| ManagedValue.PublishArrives | src/SubscriptionManager.cc:182-183 | a published value goes to the back of the queue as a copy with a block of its own |
| ManagedValue.ReceiveArrives | include/OPC-UA-BackendRegisterAccessor.h:285-292 | a read hands the block at the front to the accessor; a front without a value leaves its block alone |
| ManagedValue.CopiesArrive | src/ManagedTypes.cc:97-115 | a good synchronous read, and the initial value of a newcomer, come with a block of their own |
| ManagedValue.RunSingleOwner | src/ManagedTypes.cc:22-122 | after each complete push, pop or read of any run every allocated block has exactly one owner or was freed exactly once |
| ManagedValue.FreedExactlyOnce | src/ManagedTypes.cc:62-67 | at the end of any run every allocated block has been freed exactly once |
| ManagedValue.ManagedDataValue.CopyOf | src/ManagedTypes.cc:26-34 | a copy has a block of its own and does not own it yet |
| ManagedValue.ManagedDataValue.MovedFrom | src/ManagedTypes.cc:36-60 | the new object takes over the block with the duty to free it |
| ManagedValue.ManagedDataValue.Assign | src/ManagedTypes.cc:69-95 | the whole new state of both objects and the heap, for self-assignment too |
| ManagedValue.ManagedDataValue.CopyFrom | src/ManagedTypes.cc:97-115 | the old block is freed and a new one owned, if copying succeeded |
| ManagedValue.ManagedDataValue.PrepareSelf | src/ManagedTypes.cc:117-122 | a held block is freed whether or not it is owned |
| ManagedValue.ManagedDataValue.Delete | src/ManagedTypes.cc:62-67 | a block is freed exactly if it is held and owned |
| VersionMapper.RunValid | src/VersionMapper.cc:22-29 | in every run the map has at most 2000 entries, and different time stamps have different versions |
| VersionMapper.EvictedExactly | src/VersionMapper.cc:24-27 | a request drops an entry if and only if it brings a new stamp into a full map and the entry is the smallest |
| VersionMapper.StableVersion | include/VersionMapper.h:20-26 | if fewer than 1999 different larger stamps are ever requested, all requests for a stamp return the same version |
| VersionMapper.SameVersionSameStamp | include/VersionMapper.h:20-26 | two requests that return the same version had the same stamp, evictions or not |
| VersionMapper.UnstableAtBound | src/VersionMapper.cc:25 | with 1999 larger stamps, for every stamp, a smaller one makes the version change |
| VersionMapper.TimePointExact | src/VersionMapper.cc:12-20 | the point in time is exact if and only if the distance from 1970 fits into 64-bit nanoseconds |
| VersionMapper.MissingStampWraps | src/VersionMapper.cc:17-18 | stamp 0 does not fit |
| VersionMapper.BoundAndEpoch | src/VersionMapper.cc:12-25 | at most 2000 entries, and time counted in nanoseconds from the first day of 1970 |
| VersionMapper.VersionMap.GetVersion | src/VersionMapper.cc:22-29 | a known stamp gets its stored version, a new one a fresh version, after the smallest stamp of a full map has gone |
| Numbers.PrintParse | src/XmlTools.cc:60-82 | parsing what was printed gives the number back if it fits, and out_of_range if not |
| Numbers.ParsePrint | src/XmlTools.cc:60-82 | printing what was parsed gives the text back if and only if it has no leading zero |
| Numbers.ParsePrefix | src/OPC-UA-Backend.cc:273-287 | white space, signs and trailing text: "12abc" is the number 12, a minus sign wraps around |
| Numbers.Twelve | src/OPC-UA-Backend.cc:273-287 | the base is ten |
| CatalogueCache.AddPropertyKeepsValid | src/RegisterInfo.cc:15-76 | adding a property keeps names distinct and types known |
| CatalogueCache.RegisterCatalogue.AddRegisterProperty | src/RegisterInfo.cc:15-76 | the entry with all its fields is appended, or skipped for an unknown type or a known name |
| CatalogueCache.SaveCatalogue | src/CatalogueCache.cc:74-91 | the loop writes the first server address once and one section for each register, in order |
| CatalogueCache.ParseRegister | src/CatalogueCache.cc:125-185 | fields may come in any order and repeat; a missing text, an unset field, a bad number and a bad node id end in different errors |
| CatalogueCache.FindAddress | src/CatalogueCache.cc:32-51 | the last server address of the general sections, or a missing text |
| CatalogueCache.ReadCatalogue | src/CatalogueCache.cc:27-62 | registers get the address found in a first pass over all sections, wherever it stands; the first error ends the reading |
| CacheRoundTrip.ReadFieldsOf | src/CatalogueCache.cc:125-228 | the fields written for a register are read back one by one, unless its node id is empty |
| CacheRoundTrip.ReadSaved | src/CatalogueCache.cc:27-91 | what reading a saved catalogue gives, for every catalogue |
| CacheRoundTrip.RoundTripExactly | src/CatalogueCache.cc:27-91 | the same registers come back in order, names normalised, if and only if there are any, they share one non-empty address, no node id is empty and the lengths fit into 32 bits |
| CacheRoundTrip.SaveAgain | src/CatalogueCache.cc:74-91 | saving what was read yields the same document |
| CacheRoundTrip.ReadIgnoresLayout | src/CatalogueCache.cc:33-37 | white space between elements and the tag of the root do not matter |
| CacheFormat.KnownTypesExactly | src/RegisterInfo.cc:35-72 | registers are made for the built-in types Boolean to String, and for no other number |
| CacheFormat.SampleDocument | src/CatalogueCache.cc:74-228 | the document of a catalogue with one register, word for word |
| CacheFormat.RegisterReadExactly | src/CatalogueCache.cc:125-185 | a register comes out if and only if the four obligatory fields are there and the id of a numeric node is a number; other fields may be missing or unknown |
| CacheFormat.NumberFieldErrors | src/XmlTools.cc:59-81 | a text that is no number in a number field, and a missing text, end in different errors |
| CacheFormat.NumberFieldValues | src/XmlTools.cc:14-20 | a flag is set by any number but 0; types and lengths are cut to 32 bits, namespaces to 16 |
| CacheFormat.AccessModesExactly | src/XmlTools.cc:22-29 | the access modes are a list of the two known flags or nothing; anything else is an error |
| CacheFormat.BadDocuments | src/XmlTools.cc:40-57 | another namespace is rejected |
| CacheFormat.BadNodeId | src/CatalogueCache.cc:176-179 | a numeric id that is no number ends in an exception of another kind |
| CacheFormat.AddressLast | src/CatalogueCache.cc:32-51 | of all addresses in general sections the last one counts, and one without text makes the result undefined |
| MapFile.LineTokens | src/OPC-UA-Backend.cc:250-264 | a line built from an entry with any tabs and blanks, in front too, splits into exactly its words |
| MapFile.LineMeansExactly | src/OPC-UA-Backend.cc:255-298 | the line of an entry makes the same call as its XML element if and only if something stands in front of its first word, this does not start like a comment or a tag, or both are rejected |
| MapFile.ReadersAgreeExactly | src/OPC-UA-Backend.cc:228-306 | for any list of entries both readers make the same calls in the same order, rejections included, if and only if this holds of every line |
| MapFileMeaning.TextEntry | src/OPC-UA-Backend.cc:285-298 | for both readers: a text that does not start like a number names the node root + text, in the namespace of the entry; for a documented root an unnamed entry gets its own text as register name |
| MapFileMeaning.NumberEntry | src/OPC-UA-Backend.cc:265-275 | for both readers: a printed number is a numeric node, whatever the root, cut to 32 and 16 bits |
| MapFileMeaning.RejectedEntry | src/MapFile.cc:56-79 | both readers reject an entry whose namespace is no number, or with a number beyond 64 bits |
| MapFileMeaning.OtherElements | src/MapFile.cc:32-55 | other elements, and elements without a namespace, make no call; an empty name is none |
| MapFileMeaning.OtherLines | src/OPC-UA-Backend.cc:250-264 | comments, tags, empty lines and lines with another number of words make no call |
| MapFileMeaning.InFileOrder | src/OPC-UA-Backend.cc:234-254 | both readers call from the front of the file to its end |
| MapFile.MapFileReader.ReadElements | src/MapFile.cc:32-80 | the loop with its fallback from numeric to string ids and its rejections |
| MapFile.CallElements | src/OPC-UA-Backend.cc:234-241 | one call for each element, in order; an empty name means none |
| MapFile.CallLines | src/OPC-UA-Backend.cc:254-306 | the loop over lines with its skips, fallback and rejections |
| CatalogueNames.RFind | src/OPC-UA-Backend.cc:374 | the last occurrence, or npos |
| CatalogueNames.EffectiveRootExactly | src/OPC-UA-Backend.cc:372-378 | "Dir" is removed exactly when it ends the root, although npos can equal a wrapped length |
| CatalogueNames.PrefixThenStripExactly | src/OPC-UA-Backend.cc:285-380 | prefixing the root and deriving the name gives the text back if and only if the root does not end in "Dir" and the whole does not start with a slash (or the text is empty) |
| CatalogueNames.PrefixThenStrip | src/MapFile.cc:61 | so for every root of the documented form |
| CatalogueNames.NumericNameExactly | src/OPC-UA-Backend.cc:365-379 | a numeric node keeps its full name if and only if the root is empty or just "Dir" |
| CatalogueNames.NamesDiffer | src/OPC-UA-Backend.cc:359-380 | different string nodes of a map file get different names |
| Browse.BrowseExact | src/OPC-UA-Backend.cc:196-226 | exactly the string-id variables reachable through objects are offered |
| Browse.BrowsedInOrder | src/OPC-UA-Backend.cc:208-222 | depth first, in the order of the references: everything below an object is offered in the place of the object |
| Browse.DepthSuffices | src/OPC-UA-Backend.cc:213-215 | a depth of recursion suffices if and only if no path has more nodes |
| Browse.BrowseTerminatesExactly | src/OPC-UA-Backend.cc:196-226 | browsing ends if and only if no path from the start returns to a node, and then within the number of nodes plus one |
| Browse.Catalogue.BrowseRecursive | src/OPC-UA-Backend.cc:196-226 | the recursion with its loop offers the nodes in the order of the references |

## Left out

- LockCallbacks.DeadlockFree: not for all schedules, because the code can deadlock (LockDeadlock); it assumes that a join completes only while the client lock is free.
- SubscriptionIndex.RunSound: assumes that a creation completes on an item that is still listed and unmonitored, because unsubscribing an item during its creation call and overlapping calls of addMonitoredItems break soundness; RunSoundExactly has the exact condition.
- SubscriptionIndex.RunComplete: assumes that monitored-item ids are never reused, because stale ids are kept (RunCompleteExactly has the exact condition); section 5.12.2 of OPC 10000-4 release 1.04 asks for uniqueness only within one subscription.
- SubscriptionIndex.IndexRefinesSearch: has the exact conditions of RunSoundExactly and RunCompleteExactly as hypotheses.
- SubscriptionDelivery.DeliveredInOrder: has the exact condition of RunOrderedExactly as hypothesis.
- SubscriptionTurns.DeliveredUnlessOvertaken: a push that is overtaken may still find a queue in which it does no harm; RunOrderedExactly has the exact condition, which looks into the queues.
- SubscriptionTurns.DeliveredInTurns: assumes that a handler does not start while another one is between its test and its push. LockHandlers.HandlersTakeTurns shows this of the locks, except for the removal of a left-over subscription by createSubscription (src/SubscriptionManager.cc:197-199).
- SubscriptionReading.ReadersOfValuesExactly: for servers that publish values; ReadersUnrepeatedExactly counts notifications without a value as failures.
- SubscriptionManager.OPCUASubscriptionManager.Deactivate: it and the methods that call it are not for an index with an entry of an erased item, which the loop dereferences; RunListedExactly says when there is none.
- SubscriptionCalls.CallsKeepOneSubscription: for calls made one at a time with successful deletes; OneSubscriptionExactly has the exact condition over all runs.
- AccessorTransfer.Accessor.DoWriteTransfer: not for a window that the block does not contain, which the loop would write out of bounds; AcceptedWindows and WindowOverCutRange say when a window fits.
- LockModel: start() sets the run flag, assigns the thread and is preceded by the test for a missing thread as one step; a second start() over a joinable thread is not part of the model.
- LockModel: a join and the reset of the thread pointer are one step, so two joins at the same time, and what happens between the two, are not modelled.
- LockModel: exceptions out of activateAsyncRead, which is noexcept, are treated like any other exception; Backend.OpcUABackend.ActivateAsyncRead has the termination.
- SubscriptionState: the unlocked look-up in responseHandler and the unlocked search in setExternalError are steps of their own; memory-level data races inside such a step, and the iterator and the reference of addMonitoredItems while the list grows or shrinks, are not modelled.
- SubscriptionState: after an erased item or a missing entry has been used, a run goes on as if nothing had been written; what the program does then is undefined.
- SubscriptionState: an item is identified by a handle that is never reused; what relocation in the deque does to the raw pointers is treated in DequeIdentity alone. Which side of a deque an erasure moves is that of the GNU library.
- SubscriptionState: the front of a queue that holds an error counts as carrying no value for a late subscriber.
- SubscriptionManager: the class runs without interference; the interleaving of its sections with other threads is the subject of runs.
- Stale removal flags: _subscriptionNeedsToBeRemoved stays set when it is raised after the client thread has left its loop; the next client thread then removes the subscription of its time, which is not followed further.
- Converter: source numbers are reals, so the rounding of limits near 2^63 in double precision, NaN, strings, booleans and Void are not modelled.
- Windows: parsing of range strings and ranges of more than one dimension; a range is a pair of numbers.
- ManagedValue: time stamps and status fields of a value, and failing copies of values with data.
- VersionMapper: the version number counter is any counter that other code may advance.
- CatalogueCache: data descriptors, units, the file itself, its temporary name, and XML escaping; a text is stored as it is.
- MapFile: elements without a text, which the XML reader dereferences as null, and the choice of the reader (the older one runs when the XML reader throws).
- CatalogueNames: the answers of the server to the reads of addCatalogueEntry, which only decide whether an entry is added.
- Liveness of the publishing loop, sleeps, publishing intervals, logging, certificates, and the parameters of createInstance.
