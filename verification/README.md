# Clockwork runtime: a verified model

This project models the hard parts of `iod`, the runtime of the Clockwork process-control language, and
proves what they are for. Each module stands for one part of the runtime.

| module | part of the runtime |
|---|---|
| `Predicates` | the compiler of predicate trees into flat prefix lists, and the evaluator of those lists |
| `Timers` | the calculation of the next wake-up of a predicate that tests timers |
| `Bits`, `IoMap` | process images as bits; the mask and index tables of the EtherCAT process image |
| `Collecting`, `ProcessImage`, `Replication` | input: the domain is diffed, the diff is applied to a second image, changed components are notified |
| `Outputs` | output: commands, the update image, the update mask, the merge into the domain |
| `Sdo`, `SdoPolling` | the scheduler of SDO initialisation and update requests |
| `Dispatch` | the queue of packages between producers, dispatcher thread and driver |
| `Triggers` | hand-counted references to triggers, shared by actions and condition handlers |
| `Select` | the select set operation, which removes entries from the list it scans |
| `IntrusiveList` | the circular doubly linked lists of `list.h` |
| `Throttle`, `Echo`, `Monitored`, `Handshake` | channels: throttled updates, echo suppression, the monitored set, the connection handshake |

Code that changes state step by step is a class or a method with its loops, proved against functions on
values; the claims over whole runs are lemmas about those functions, or methods that run any sequence of
events. `dafny verify dfyconfig.toml` checks everything.

## Where the code falls short

In these cases the code does not do what its surroundings promise. The model keeps the code as it is, gives
a case in which it fails, and states exactly when it does not.

- Evaluating a compiled predicate goes wrong when AND or OR takes its shortcut on a value that is still
  dynamic after one evaluation, because the shortcut does not consume the left operand
  (`Predicates.ShortcutExample`; exactly then, `Predicates.CompileCorrect`).
- A clause with the timer on the right and `>` or `<=` is scheduled one tick late, exactly when the timer
  has not reached the operand yet (`Timers.LateClause`, `Timers.RightClauseExact`).
- A command that markChange does not write, such as a value for an output that is not 8, 16 or 32 bits wide,
  still makes the output pending. The send then puts the stale bits of the update image over the output
  (`Outputs.FourBitsIgnored`). In every run the image shows the last command exactly if it is one that the
  component can take (`Outputs.CommandShowsExactly`, and to the domain `Outputs.DomainShowsExactly`).
- Only the first `max_offset - min_offset + 1` bytes of the update are sent, from byte 0, so outputs at the
  end keep their old value in the domain (`Outputs.CutOff`). All pending outputs arrive, the one at the last
  byte among them, exactly when byte 0 is in use (`Outputs.AllSentExactly`); the reading side asserts that it
  is, at `iod/src/ECInterface.cpp:1412`.
- A component with a bit position past its first byte is entered in the component table at the wrong bits, or
  outside it (`IoMap.PastFirstByte`). The table is written in bounds, and at the right bits, exactly for
  components that are placed as the mask builder expects (`IoMap.SizeBoundsIndexExactly`).
- The `just_added` shortcut loses a component that owns a changed masked bit (`ProcessImage.ShortcutMisses`)
  exactly when the first bit that the scan looks at for it does not differ
  (`ProcessImage.ShortcutLosesExactly`). In the runs of the program nobody is lost: the first mask is the
  whole process mask and may well have such bits, but until an image has been kept every component of the
  table is notified through the lists (`ProcessImage.FirstCycleTellsAll`), and every bit of a later mask
  differs (`Replication.DeltaReallyDiffers`); `Replication.RunCycle` puts the two together.
- If the dispatcher is stopped after the driver has answered and before it takes the mutex, it ends without
  sending "done" for the turn it was granted (`Dispatch.TurnLost`), in that case and no other
  (`Dispatch.TurnLostExactly`).
- A FireTriggerAction that is released before it runs, as when the actions of its machine are cleared
  (`iod/src/MachineInstance.cpp:2802-2814`), never releases its pending trigger
  (`Triggers.UnrunFireTriggerLeaks`). Three more operations would lose a reference (setting a trigger that is
  set already, running a FireTriggerAction whose pending trigger is set already, assigning to a condition
  handler that has a trigger), but no caller brings them about: setTrigger is only ever given nothing, a new
  trigger or the pending trigger of a FireTriggerAction, and no code gives a condition handler a trigger.
  Called like that, the release is the only leak (`Triggers.LostAsCalledExactly`).
- A limit of 0 on a select still copies one match (`Select.LimitZeroCopiesOne`); the limit is kept exactly if it
  is at least one or there is nothing to copy (`Select.LimitKeptExactly`). A name that cannot be found is thrown
  as a pointer, at `iod/src/FileOperationAction.cpp:539`, which the handler at line 116 does not catch (the
  outcome Thrown of `Select.DoOperation`, which says exactly when).
- Every full pass over the filters publishes an exporting machine that is in the set already once more
  (`Monitored.PublishedTwice`; no other machine, `Monitored.Channel.SetupFilters`), and a change to a channel's definition is not seen by its time stamps
  (`Monitored.DefinitionChangeMissed`): with a clock that always moves on, the set is what the filters say after
  a call exactly if a filter of the channel itself has changed or there was nothing to change.
- A channel that reports local property changes sends no property message at all; the test at
  `iod/src/Channel.cpp:1626` returns for it. A property that is in the interface and not local is sent exactly by the channels that do not
  (`Throttle.Channel.LocalSilences`).
- A client channel can become ACTIVE more often than UPLOADING (`Handshake.StrayRun`), when the
  acknowledgement of an upload arrives in some other state and every upload has been used up, and in no other
  case (`Handshake.Channel.Step`).

## Model

| member | source | states |
|---|---|---|
| `Predicates.NormaliseIdempotent` | iod/src/Expression.cpp:1089-1113 | rewriting a state test into its normal form a second time changes nothing |
| `Predicates.Prep` | iod/src/Expression.cpp:1089-1158 | the pushes leave the encoding of the rewritten tree in front of what the stack held, and nothing else changes |
| `Predicates.EvalStackLeavesForest` | iod/src/Expression.cpp:969-1078 | for every tree, evaluating its encoding returns a value and leaves the encodings of some skipped subtrees, each smaller than the tree, in front of the trailing list |
| `Predicates.CompileCorrect` | iod/src/Expression.cpp:969-1158 | evaluating the encoding returns the recursive value of the tree and stops exactly at the trailing list if and only if no AND or OR shortcut fires in it |
| `Predicates.UnaryYields` | iod/src/Expression.cpp:1018-1057 | NOT, minus, complement, the float cast and the string cast applied to a compiled list give that operator of the right operand alone |
| `Predicates.BinaryYields` | iod/src/Expression.cpp:1002-1046 | comparisons, AND, OR and arithmetic give that operator of the left and the right operand, in this order, although the right one is evaluated first |
| `Predicates.ValueYields` | iod/src/Expression.cpp:1030-1075 | absolute value negates a negative operand, the integer cast gives 0 for what is no integer, assignment gives the right operand, the empty operator 0 |
| `Predicates.ListTestYields` | iod/src/Expression.cpp:1060-1073 | a match is asked of the operands as evaluated, and any, all, count and includes hand on their left operand |
| `Predicates.LeafYields` | iod/src/Expression.cpp:843-949 | a name or constant that stands for a boolean or an integer is evaluated to it: literals, TRUE, FALSE, DEFAULT on the left, SELF, properties and dynamic values |
| `Predicates.DenotationKept` | iod/src/Expression.cpp:969-1158 | under the usual operators, every well-typed condition over booleans and integers compiles to a list that evaluates to what a typed interpreter of the tree says, and stops at its end |
| `Predicates.DenotationNormal` | iod/src/Expression.cpp:1089-1113 | compiling leaves a well-typed condition as it is |
| `Predicates.NameYields` | iod/src/Expression.cpp:872-883 | a state of the machine itself, or a name that nothing is known about, stands for itself |
| `Predicates.StateTestYields` | iod/src/Expression.cpp:1091-1103 | in a test of a machine for one of its states the machine is compared with the name of the state as text |
| `Predicates.LeftStateTestYields` | iod/src/Expression.cpp:1104-1111 | the same with the state on the left |
| `Predicates.OtherNamesYield` | iod/src/Expression.cpp:1091-1113 | any other two names are compared by what they stand for |
| `Predicates.SettledHasNoShortcut` | iod/src/Expression.cpp:983-988 | if no dynamic value yields another dynamic value, no shortcut fires in any tree |
| `Predicates.ShortcutExample` | iod/src/Expression.cpp:983-988 | a conjunction with a dynamic value that yields a dynamic value leaves its left operand unconsumed |
| `Predicates.Condition.Check` | iod/src/Expression.cpp:1284-1316 | the outcome is whether evaluating the list compiled from the rewritten predicate gives true; that value is the recursive one whenever no shortcut fires, and for a well-typed condition under the usual operators it is what the condition denotes, so that it holds if and only if it denotes true; no predicate never holds |
| `Timers.NoMissedWakeUp` | iod/src/Expression.cpp:296-463 | for any AND/OR/NOT tree over timer clauses, if the recheck flag is not set the value stays the same at every later time before the returned delay, and for ever if there is none |
| `Timers.LateByAtMostOneTick` | iod/src/Expression.cpp:296-463 | with timers on either side the value stays the same until one tick before that delay at the latest |
| `Timers.ScheduleExact` | iod/src/Expression.cpp:296-463 | for any tree, the target is flagged if and only if it was before or some clause changes now or did within the last two ticks, and the delay is the least of the given one and 1000 times the distance to a change ahead, none if and only if there is neither; changes are told by comparing timer values only |
| `Timers.WakeUpNotEarly` | iod/src/Expression.cpp:313-361 | the returned delay of a clause with the timer on the left is the first tick at which the clause has another value than now |
| `Timers.MachineTimer` | iod/src/Expression.cpp:335-345 | the timer read for `machine.TIMER` is that of the machine |
| `Timers.RightClauseExact` | iod/src/Expression.cpp:362-412 | for every operand that yields an integer, a clause with the timer on the right never misses its wake-up if and only if it is not `>` or `<=` with the timer still below the operand |
| `Timers.LateClause` | iod/src/Expression.cpp:362-412 | the clause `10 > timer` with the timer at 3 misses its wake-up |
| `Bits.ReadBack` | iod/src/IOComponent.cpp:1538-1547 | the bits written for a value read back as the value, for every value of that width |
| `IoMap.SizeBoundsIndexExactly` | iod/src/IOComponent.cpp:1423-1499 | every table write for a component is inside the size that its last byte gives and at a bit that it covers if and only if the component is placed as assumed |
| `IoMap.PastFirstByte` | iod/src/IOComponent.cpp:1480-1486 | a one-bit component at bit position 9 is written at entry 17 of a table of 16 |
| `IoMap.MarkComponent` | iod/src/IOComponent.cpp:1212-1248 | sets exactly the mask bits that the component covers and leaves every other bit |
| `IoMap.GenerateProcessMask` | iod/src/IOComponent.cpp:1212-1248 | a bit of the mask is set if and only if some component covers it |
| `IoMap.MeasureOffsets` | iod/src/IOComponent.cpp:1425-1456 | the lowest and highest byte in use, both attained, bounding every component |
| `IoMap.IndexComponents` | iod/src/IOComponent.cpp:1461-1486 | every table entry is the last named component that covers the bit, and all writes are in bounds |
| `IoMap.ListByFirstByte` | iod/src/IOComponent.cpp:1470-1496 | the list of a byte holds the named components that start there, in queue order |
| `IoMap.IOTables.SetupIOMap` | iod/src/IOComponent.cpp:1423-1499 | builds mask, index and lists for the queue in fresh tables as wide as the highest byte needs, with a zero image |
| `IoMap.OwnerCovers` | iod/src/IOComponent.cpp:1474-1486 | an indexed component covers its bit, and among components that do not overlap it is the only one that does |
| `IoMap.IndexExact` | iod/src/IOComponent.cpp:1423-1499 | for components that do not overlap a table entry names a component if and only if it is named and covers the bit, and the mask bit is then set |
| `IoMap.IndexContiguous` | iod/src/IOComponent.cpp:1474-1486 | for components that do not overlap, the table entries of a component follow one another |
| `Collecting.CountIsCardinality` | iod/src/ECInterface.cpp:1413-1458 | the running count of set bits is the cardinality of the set of their positions |
| `Collecting.DiffByte` | iod/src/ECInterface.cpp:1424-1454 | the mask of one byte is its interesting changed bits and the count grows by their number |
| `Collecting.DiffAll` | iod/src/ECInterface.cpp:1413-1458 | the mask is exactly the interesting bits that differ from the last image and the result is how many there are |
| `Collecting.CollectMask` | iod/src/ECInterface.cpp:1413-1470 | the first time every interesting bit is in the mask and the count is the size of the domain; afterwards as above |
| `Collecting.DomainReader.CollectState` | iod/src/ECInterface.cpp:1339-1485 | when ready, data is the domain, mask is the delta against the domain last seen, the count is the number of changed interesting bits after the first pass, and the domain is kept; when not ready nothing changes and the result is 0 |
| `ProcessImage.ApplyByte` | iod/src/IOComponent.cpp:371-430 | masked bits are copied, others kept, and the components found are those of the bit scan with its shortcut |
| `ProcessImage.ApplyMask` | iod/src/IOComponent.cpp:356-434 | the image takes the incoming data on every mask bit and nothing else changes, skipped bytes included; the components found are those of the whole scan |
| `ProcessImage.NotifyListed` | iod/src/IOComponent.cpp:361-366 | the components listed at bytes with a mask bit |
| `ProcessImage.ScanSound` | iod/src/IOComponent.cpp:371-430 | every component that the scan finds owns a masked bit that changed |
| `ProcessImage.ScanExact` | iod/src/IOComponent.cpp:360-434 | if every mask bit really differs, the components found are exactly the owners of masked changed bits, the shortcut notwithstanding |
| `ProcessImage.ScanFindsExactly` | iod/src/IOComponent.cpp:360-430 | a component whose bits follow one another is found if and only if the first of its masked bits in a byte that is not equal differs |
| `ProcessImage.ShortcutLosesExactly` | iod/src/IOComponent.cpp:371-430 | a component that owns a changed masked bit is lost if and only if the first bit looked at for it does not differ |
| `ProcessImage.AllListed` | iod/src/IOComponent.cpp:1180-1205 | every component of the table is listed at a byte with a bit of the process mask |
| `ProcessImage.FirstCycleTellsAll` | iod/src/IOComponent.cpp:361-366 | until an image has been kept, a cycle with the whole process mask notifies every component of the table, whatever the scan loses |
| `ProcessImage.ShortcutMisses` | iod/src/IOComponent.cpp:371-430 | a two-bit component with both bits in the mask, of which only the second changed, is not found |
| `ProcessImage.IOImage.ProcessAll` | iod/src/IOComponent.cpp:317-480 | in preinit the image is replaced and nobody notified; otherwise the image is the merge, the components notified are those of the scan, and the pending outputs are settled |
| `Replication.Replicated` | iod/src/ECInterface.cpp:1413-1484 | after every cycle of every run the IO image equals the domain on every process-mask bit |
| `Replication.CycleSyncs` | iod/src/ECInterface.cpp:1413-1484 | a cycle leaves the IO image equal to the domain on every process-mask bit, the first time or from such a state |
| `Replication.OutsideUnchanged` | iod/src/IOComponent.cpp:346-434 | out of preinit no bit outside the mask changes in any run |
| `Replication.DeltaReallyDiffers` | iod/src/IOComponent.cpp:360-463 | after a first cycle every bit of any later delta mask differs from the IO image |
| `Replication.CycleTells` | iod/src/IOComponent.cpp:360-463 | what a cycle hands on: nothing in preinit, exactly the owners of masked changed bits once an image has been kept, no fewer before, and all that are listed the first time |
| `Replication.ExactNotification` | iod/src/IOComponent.cpp:360-463 | after any run with at least one cycle, the scan of the next finds exactly the components that own a masked bit in which the domain changed |
| `Replication.RunCycle` | iod/src/IOComponent.cpp:317-480 | collecting and applying on the arrays is one step of the two-image model; the count is the number of masked changed bits after the first cycle; the components handed on are none in preinit, exactly the owners of masked changed bits once an image has been kept, no fewer before, and all that are listed the first time |
| `Outputs.ShownValue` | iod/src/IOComponent.cpp:1538-1547 | a component commanded to a value reads back as that value cut to its width |
| `Outputs.CommandedStaysPending` | iod/src/IOComponent.cpp:458-477 | in every run of commands, reads and sends, an output commanded since the last send is pending |
| `Outputs.ImageShowsLastCommand` | iod/src/IOComponent.cpp:1501-1558 | in every run over components that do not overlap, the update image shows each one's last command if it is one that the component can take |
| `Outputs.ImageShowsLastTaken` | iod/src/IOComponent.cpp:1501-1558 | in every such run the bits of a component are those of the last command it could take, or those the image began with |
| `Outputs.CommandShowsExactly` | iod/src/IOComponent.cpp:1511-1547 | a component's last command shows, in every run and from every image, if and only if the component can take it |
| `Outputs.DomainShowsExactly` | iod/src/ECInterface.cpp:1243-1290 | sending makes the domain show a pending output's last command, in every run and from every image and domain, if and only if the component can take it and ends within the bytes that are sent |
| `Outputs.FourBitsIgnored` | iod/src/IOComponent.cpp:1531-1547 | a value for a four-bit output is not written, and sending puts stale update bits over what the domain shows |
| `Outputs.OutputsReachDomain` | iod/src/ECInterface.cpp:1243-1290 | after any run, sending makes the sent domain bits of a pending output its last command if it can take it, otherwise what it last took or the image began with; bits that are not sent and bits outside the mask do not change |
| `Outputs.SentWholeExactly` | iod/src/IOComponent.cpp:1374-1397 | every bit of the pending outputs reaches the domain, whatever update and domain hold, if and only if they all end within the first max - min + 1 bytes |
| `Outputs.AllSentExactly` | iod/src/IOComponent.cpp:1374-1397 | if the last byte in use is a pending output's, every bit of the pending outputs reaches the domain if and only if byte 0 is in use |
| `Outputs.CutOff` | iod/src/IOComponent.cpp:1374-1397 | a 16-bit output at byte 2, alone: sending leaves its domain bits as they were |
| `Outputs.OutputQueue.GetUpdateData` | iod/src/IOComponent.cpp:308-315 | the update image, started from the process image at its first use, with its contents unchanged |
| `Outputs.OutputQueue.MarkChange` | iod/src/IOComponent.cpp:1501-1558 | the update image shows the pending event of the component and is otherwise unchanged |
| `Outputs.OutputQueue.Accept` | iod/src/IOComponent.cpp:1662-1700 | a command makes the output pending and is shown in the update image, as one step of the run model |
| `Outputs.OutputQueue.GenerateUpdateMask` | iod/src/IOComponent.cpp:1322-1372 | a mask bit is set if and only if a pending output covers it; outputs whose owners are all disabled are no longer pending |
| `Outputs.OutputQueue.GetUpdates` | iod/src/IOComponent.cpp:1374-1397 | nothing if no output is pending, otherwise the update image, the mask and the length that is sent |
| `Outputs.OutputQueue.Send` | iod/src/ProcessingThread.cpp:1060-1118 | the domain takes the masked part of the update that is sent, as one step of the run model |
| `Outputs.OutputQueue.Settle` | iod/src/IOComponent.cpp:444-479 | once sent, outputs just read or already shown by the hardware are no longer pending; before that nothing is dropped |
| `Outputs.WriteBit` | iod/src/IOComponent.cpp:1511-1530 | a one-bit command shows in the image at the component's bit and nowhere else |
| `Outputs.WriteValue` | iod/src/IOComponent.cpp:1531-1556 | an 8, 16 or 32 bit command shows in the image, low byte first, and nowhere else |
| `Outputs.DropMatching` | iod/src/IOComponent.cpp:458-477 | drops exactly the outputs whose pending value is the value last read |
| `Outputs.UpdateByte` | iod/src/ECInterface.cpp:1258-1285 | masked bits come from the update, the others stay |
| `Outputs.UpdateDomain` | iod/src/ECInterface.cpp:1243-1290 | the masked bits of the first size bytes come from the update and no other bit of the domain changes |
| `Sdo.TickKeeps` | iod/src/ECInterface.cpp:441-619 | a tick keeps the invariant that cursors are valid and name the request in flight and that entries to be written are queued, so the assert of the update path holds |
| `Sdo.Run` | iod/src/ECInterface.cpp:441-619 | every state of every interleaving of ticks, bus answers and queueing satisfies that invariant |
| `Sdo.OneInFlight` | iod/src/ECInterface.cpp:441-619 | in every run at most one request is in flight, and it is the one the busy state's cursor names |
| `Sdo.NeverNull` | iod/src/ECInterface.cpp:371-375 | a run that queues only entries, as every caller does, never has a null item |
| `Sdo.StepSpendsBudget` | iod/src/ECInterface.cpp:528-619 | without new work no step raises what an entry may still use, and completing an attempt uses some of it |
| `Sdo.AttemptsBounded` | iod/src/ECInterface.cpp:528-619 | in every run without new work an entry completes at most four attempts for each time it is queued, and fewer while it is still queued |
| `Sdo.AttemptCompletes` | iod/src/ECInterface.cpp:573-616 | a completed attempt takes its item out of the list if and only if it succeeded or was the fourth failure, sets the error count to 0 or one higher and the entry back to READ if it leaves, and touches no other entry |
| `Sdo.LeavesAtFourthFailure` | iod/src/ECInterface.cpp:594-613 | in every run in which the attempts for an entry fail, it is still queued if and only if none has been made or its error count is below four |
| `Sdo.InitialisationEnds` | iod/src/ECInterface.cpp:528-619 | with a bus that answers, n queued items are all gone after 8n + 2 ticks, whatever the answers, also if an entry is queued more than once |
| `Sdo.AtMostOneUpdateFirst` | iod/src/ECInterface.cpp:528-619 | while an initialisation is queued at most the one update read under way finishes |
| `Sdo.LeavesByAttempt` | iod/src/ECInterface.cpp:528-619 | a queued initialisation leaves the list only by a completed attempt |
| `Sdo.NullItemStays` | iod/src/ECInterface.cpp:528-619 | what the code would do with a null item, which no caller queues: it is never removed in any run, and no update starts while it is there |
| `SdoPolling.SentOnlyWhenDue` | iod/src/ECInterface.cpp:441-571 | in every run a request goes on the bus only in a tick: either the queued value of the initialisation that is due, or, with none queued, the read of an enabled entry in READ mode |
| `SdoPolling.IdleTick` | iod/src/ECInterface.cpp:441-491 | with nothing queued or in flight, a tick starts the read of the entry it is at if that is enabled; a disabled or null entry is passed over with every request as it was |
| `SdoPolling.BusyTick` | iod/src/ECInterface.cpp:493-525 | a tick changes nothing while a read is busy; once it is answered the error count is 0 or one higher and the next entry is up; a request that the bus does not know is started again |
| `SdoPolling.EveryEntryPolled` | iod/src/ECInterface.cpp:441-526 | with no initialisation queued and a bus that answers, every enabled entry of an update list of n is read from start to finish within any 2n + 1 ticks |
| `Sdo.Scheduler.QueueInitialisationRequest` | iod/src/ECInterface.cpp:371-375 | appends the request, keeping the invariant |
| `Sdo.Scheduler.CheckSDOInitialisation` | iod/src/ECInterface.cpp:528-619 | one tick of the initialisation list, and whether the tick is left to the updates |
| `Sdo.Scheduler.CheckSDOUpdates` | iod/src/ECInterface.cpp:441-526 | one tick of the update list |
| `Sdo.Scheduler.ReceiveState` | iod/src/ECInterface.cpp:1332-1336 | one tick of the model, keeping the invariant |
| `Dispatch.StepKeeps` | iod/src/Dispatcher.cpp:221-371 | every step keeps delivered + queue == accepted, delivery only during a granted turn, a turn exactly from the driver's answer to "done" while the dispatcher lives, and sleep on a non-empty queue only while a notify is owed |
| `Dispatch.ExactlyOnceInOrder` | iod/src/Dispatcher.cpp:221-371 | in every run the delivered packages are a prefix of the accepted ones, and all of them when "done" is sent |
| `Dispatch.AcceptedIsPushed` | iod/src/Dispatcher.cpp:162-169 | the accepted packages are those the producers pushed, in their order |
| `Dispatch.DeliveredIsPrefixOfPushed` | iod/src/Dispatcher.cpp:162-169 | from the start, pushed == delivered + queue in every run |
| `Dispatch.DrainRuns` | iod/src/Dispatcher.cpp:241-370 | draining is a run that delivers everything accepted, empties the queue and ends with "done" |
| `Dispatch.TurnLostExactly` | iod/src/Dispatcher.cpp:222-241 | the driver is left without "done" for a turn if and only if the dispatcher ends between the driver's answer and taking the mutex |
| `Dispatch.TurnLost` | iod/src/Dispatcher.cpp:222-241 | a run from the start in which the dispatcher ends with a turn granted and a package queued |
| `Dispatch.EveryRunDelivers` | iod/src/Dispatcher.cpp:221-371 | every run without new packages and without a stop delivers all that was accepted within one step for each queued package and each notify owed, and six more |
| `Dispatch.NeverStuck` | iod/src/Dispatcher.cpp:221-371 | with packages queued some such step can always be taken |
| `Dispatch.Dispatcher.Deliver` | iod/src/Dispatcher.cpp:162-169 | appending the package under the mutex is the step of the state machine |
| `Dispatch.Dispatcher.Drain` | iod/src/Dispatcher.cpp:241-363 | hands on the whole queue, oldest first, and leaves it empty, as the run of the state machine that drains and sends "done" |
| `Triggers.TriggerHeap.CountIsExact` | iod/src/Action.cpp:97-110 | a trigger's count is its owning pointers plus references in hand and leaked ones; nothing held is deleted; it is deleted if and only if there are none of the three |
| `Triggers.TriggerHeap.Retain` | iod/src/Action.cpp:97-103 | one more reference, in the caller's hands |
| `Triggers.TriggerHeap.Release` | iod/src/Action.cpp:104-110 | one reference less; the trigger was alive, so the count does not go below zero |
| `Triggers.TriggerHeap.Drop` | iod/src/Action.cpp:164-170 | clears one pointer and releases its reference, keeping the accounts |
| `Triggers.TriggerHeap.SetTrigger` | iod/src/Action.cpp:147-162 | the pointer takes over the reference handed in; that reference leaks if and only if the same trigger was set |
| `Triggers.TriggerHeap.FirePending` | iod/src/FireTriggerAction.cpp:53-68 | the pending trigger becomes the action's trigger and is alive when it is fired; a reference leaks if and only if it was set already |
| `Triggers.TriggerHeap.DestroyAction` | iod/src/FireTriggerAction.cpp:42-51 | the trigger is released; the pending trigger's reference leaks if there is one |
| `Triggers.TriggerHeap.ReleaseAction` | iod/src/Action.cpp:237-250 | counts down and at zero destroys the action |
| `Triggers.TriggerHeap.AddAction` | iod/src/Action.cpp:134-140 | a new action has no trigger and one reference, and no pointer of an earlier one is left over |
| `Triggers.TriggerHeap.MakeAction` | iod/src/Action.cpp:134-140 | a new action takes over the reference that comes with its trigger; nothing leaks |
| `Triggers.TriggerHeap.MakeFireTrigger` | iod/src/FireTriggerAction.cpp:30-40 | the new action's pending pointer has a reference of its own |
| `Triggers.TriggerHeap.Share` | iod/src/ConditionHandler.cpp:15-17 | a pointer takes a reference of its own to a live trigger |
| `Triggers.TriggerHeap.CopyHandler` | iod/src/ConditionHandler.cpp:11-18 | the copy owns a reference of its own; nothing leaks |
| `Triggers.TriggerHeap.AssignHandler` | iod/src/ConditionHandler.cpp:26-38 | the handler owns a reference to the other's trigger; the reference it had leaks, self-assignment included |
| `Triggers.TriggerHeap.DeleteHandler` | iod/src/ConditionHandler.cpp:20-24 | the handler's reference is released |
| `Triggers.TriggerHeap.Perform` | iod/src/Action.cpp:97-170 | every operation keeps the accounts and moves pointers, actions, handlers and references exactly as the model's step says, which leaks a reference in four cases and no other |
| `Triggers.TriggerHeap.Run` | iod/src/Action.cpp:97-170 | every sequence of operations keeps the accounts and ends where the model's run of those events ends; the result says exactly whether one of them leaks |
| `Triggers.LostExactly` | iod/src/Action.cpp:97-170 | references are lost in a run if and only if one of its operations leaks |
| `Triggers.LeaksAsCalled` | iod/src/MachineInstance.cpp:2802-2814 | called as the runtime calls them, the operations leak if and only if a release deletes a FireTriggerAction that has not run |
| `Triggers.UsualKept` | iod/src/FireTriggerAction.cpp:53-68 | called like that, a FireTriggerAction has no trigger of its own until it runs and condition handlers have none |
| `Triggers.LostAsCalledExactly` | iod/src/Action.cpp:147-170 | every run of operations as the runtime calls them loses references if and only if it deletes a FireTriggerAction that has not run |
| `Triggers.UnrunFireTriggerLeaks` | iod/src/FireTriggerAction.cpp:42-51 | four events, called as the runtime calls them, after which nothing exists but a reference to a trigger that nothing will release |
| `Select.EndExact` | iod/src/FileOperationAction.cpp:507-582 | the scan ends at the one place behind a window with no unknown name that holds as many matches as there is room for |
| `Select.LimitKeptExactly` | iod/src/FileOperationAction.cpp:561-569 | the matches copied stay within a limit if and only if the limit is at least one or no entry matches between the start and the first unknown name |
| `Select.LimitZeroCopiesOne` | iod/src/FileOperationAction.cpp:561-569 | with a limit of 0 a single entry that matches is copied |
| `Select.LimitAsked` | iod/src/FileOperationAction.cpp:474-489 | the limit that is computed lets through what is asked for: as many as the count, property or positions say, or all up to the first unknown name |
| `Select.ShrunkIsKept` | iod/src/FileOperationAction.cpp:561-569 | removing at the index that does not move on after a removal leaves the list in front of the window, the entries of the window that do not match, and the rest, in order |
| `Select.Partition` | iod/src/FileOperationAction.cpp:507-582 | what the source loses is what matched in the window, each as often as it stood there |
| `Select.AddsOnce` | iod/src/FileOperationAction.cpp:548-553 | the destination keeps its contents in front and gains each copied entry once, if it was not there |
| `Select.AddsInOrder` | iod/src/FileOperationAction.cpp:548-553 | new entries that all differ arrive in order behind the old ones |
| `Select.RefersToLast` | iod/src/FileOperationAction.cpp:554-560 | a reference to at most one machine ends up referring to the last match |
| `Select.ListMachine.Include` | iod/src/FileOperationAction.cpp:89-96 | appends the entry if and only if no parameter equals it |
| `Select.Visit` | iod/src/FileOperationAction.cpp:510-580 | one turn of the loop moves lists and index on by one entry of the original list, also when source and destination are the same list |
| `Select.Scan` | iod/src/FileOperationAction.cpp:507-582 | the loop ends, with lists, index and outcome as the window says |
| `Select.DoOperation` | iod/src/FileOperationAction.cpp:438-612 | no source fails; otherwise the scan starts at the given position, or at 0 for none or -1, and takes the matches up to the first unknown name: at most k for a count or property of k, at most ep - sp + 1 for two positions, else all; source, destination and reference are the closed forms over what was scanned, an unknown name that is reached throws, and everything is as it was beyond; a list selected into itself only loses the matches |
| `IntrusiveList.Insert` | iod/linux/list.h:79-87 | the entry is linked between its neighbours, both ways |
| `IntrusiveList.Add` | iod/linux/list.h:97-100 | the ring reads as before with the entry right after the head |
| `IntrusiveList.AddTail` | iod/linux/list.h:110-113 | the ring reads as before with the entry at the end |
| `IntrusiveList.Unlink` | iod/linux/list.h:123-128 | the ring reads as before without the entry, wherever it stood |
| `IntrusiveList.Join` | iod/linux/list.h:186-198 | the ring reads as the head, the spliced entries, then the old contents |
| `IntrusiveList.Splice` | iod/linux/list.h:205-209 | the same, also for an empty list, which stays a list |
| `IntrusiveList.IsEmpty` | iod/linux/list.h:181-184 | true if and only if the ring is the head alone |
| `IntrusiveList.Rotate` | iod/linux/list.h:60-62 | a ring may be read from any of its nodes |
| `IntrusiveList.Init` | iod/linux/list.h:69-71 | the node is an empty list; every other list is as it was |
| `IntrusiveList.AddTo` | iod/linux/list.h:97-100 | among any number of disjoint lists, one gains the entry right behind its head, every other reads as before and all stay rings |
| `IntrusiveList.AddTailTo` | iod/linux/list.h:110-113 | among any number of disjoint lists, one reads as before with the entry at the end, every other as before, and all stay rings |
| `IntrusiveList.UnlinkFrom` | iod/linux/list.h:123-128 | one list reads as before without the entry, every other as before, and all stay rings |
| `IntrusiveList.SpliceTo` | iod/linux/list.h:205-209 | one list gains the entries of another in front; an emptied head is in no list |
| `IntrusiveList.Del` | iod/linux/list.h:135-140 | as unlinking, with the entry's pointers poisoned |
| `IntrusiveList.DelInit` | iod/linux/list.h:148-152 | as unlinking, with the entry a list of its own |
| `IntrusiveList.Move` | iod/linux/list.h:159-163 | the list that the head names reads as the entry, then what it did without the entry; the list it was in loses it, every other reads as before |
| `IntrusiveList.MoveTail` | iod/linux/list.h:170-175 | the list that the head names reads as it did without the entry, then the entry; the list it was in loses it, every other reads as before |
| `IntrusiveList.SpliceInit` | iod/linux/list.h:218-225 | as splicing, with the emptied head a list of its own |
| `IntrusiveList.MoveKeeps` | iod/linux/list.h:159-163 | a move keeps the elements of the two lists together and every other list as it was |
| `IntrusiveList.SpliceReads` | iod/linux/list.h:186-198 | the contents afterwards are the spliced contents followed by the old ones |
| `IntrusiveList.NextReads` | iod/linux/list.h:79-225 | for each operation, the contents of every list afterwards are those of the operation on plain sequences: in front, at the end, without the entry, or in front of another's |
| `IntrusiveList.Perform` | iod/linux/list.h:79-225 | every operation does to the pointers what it does to the rings of the model, and to the contents of all lists what it means for plain sequences |
| `IntrusiveList.RunAll` | iod/linux/list.h:79-225 | after any sequence of operations the pointers are disjoint rings, and the lists read as the same operations on plain sequences leave them |
| `Throttle.Channel.SendPropertyChangeMessage` | iod/src/Channel.cpp:1624-1694 | a message goes out if and only if the link is up, the channel does not report local changes, and the property is not local and is in the interface; a machine needs no state machine for it |
| `Throttle.Channel.LocalSilences` | iod/src/Channel.cpp:1624-1629 | a property in the interface that is not local passes the callers' test, and is sent if and only if the channel does not report local changes |
| `Throttle.Channel.Keep` | iod/src/Channel.cpp:1720-1727 | the value replaces one kept for the property, and what the other side will see follows the unthrottled channel |
| `Throttle.Channel.Report` | iod/src/Channel.cpp:1728-1735 | a change of a machine that is not throttled is sent at once, and what the other side sees follows |
| `Throttle.Channel.SendPropertyChange` | iod/src/Channel.cpp:1696-1741 | with the link up each property has its latest value kept or sent; without throttling exactly the reported changes are sent |
| `Throttle.Channel.Flush` | iod/src/Channel.cpp:1759-1777 | sends one message for each kept, reported property of a machine, with its value |
| `Throttle.Channel.FlushAll` | iod/src/Channel.cpp:1755-1800 | sends every kept, reported value of every machine once and empties the map; the assert of the code holds |
| `Throttle.Channel.FlushedSees` | iod/src/Channel.cpp:1755-1800 | sending the kept values gives the other side what it was due to see |
| `Throttle.Channel.SendThrottledUpdates` | iod/src/Channel.cpp:1745-1801 | on an active, connected channel every kept value is sent once, none is left, and the other side has what an unthrottled channel would have given it; otherwise nothing happens |
| `Throttle.Channel.SendPropertyChanges` | iod/src/Channel.cpp:1804-1858 | the same for one machine, unless the channel is disconnected |
| `Throttle.SideBySide` | iod/src/Channel.cpp:1696-1801 | given the same changes, with flushes at any points, the unthrottled channel sends every change that is to be reported, in order, and after its last flush the throttled one has left the other side with the last of those values |
| `Echo.End.SendPropertyChangeMessage` | iod/src/Channel.cpp:1633-1656 | nothing is sent for a property that is local or not in the interface; a shadow does not reflect an authorised change; the owner's messages carry its authority and the shadow's none |
| `Echo.End.SetValue` | iod/src/MachineInstance.cpp:4219-4324 | a shadow passes an unauthorised change on and keeps its value; any other change is made, and reported if the value differs |
| `Echo.End.Receive` | iod/src/IODCommands.cpp:433-495 | an authorised message is refused by the owner and obeyed without an answer by a shadow; an unauthorised one is obeyed by the owner and reported if it changes the value |
| `Echo.Exchange.Step` | iod/src/Channel.cpp:1633-1656 | each event, as the two ends perform it, is the step of the state machine |
| `Echo.StepKeeps` | iod/src/Channel.cpp:1633-1656 | every event keeps messages within one a change and two a request, keeps what the shadow has or will have last equal to the owner's value, and a delivery brings the exchange nearer to its end |
| `Echo.NoStorm` | iod/src/Channel.cpp:1633-1656 | in every run the changes and requests are those of the events, and the messages never exceed one a change and two a request |
| `Echo.Exchange.Run` | iod/src/Channel.cpp:1633-1656 | any run of the two ends ends where the state machine's run of those events ends, within the bound on messages |
| `Echo.Exchange.Settle` | iod/src/Channel.cpp:1633-1656 | with no further changes the exchange stops in a bounded number of deliveries, in any order, with the last request made and the shadow at the owner's value |
| `Echo.Exchange.SingleChange` | iod/src/Channel.cpp:1633-1656 | one change at either end reaches both ends and leads to at most two messages |
| `Monitored.Channel.IncludeExporters` | iod/src/Channel.cpp:2733-2743 | adds the exporters, and publishes again those that were in the set |
| `Monitored.Channel.IncludeSelected` | iod/src/Channel.cpp:2745-2812 | adds exactly the machines that some item selects, publishing each that was not in the set once |
| `Monitored.Channel.ProcessIgnoresPatternList` | iod/src/Channel.cpp:2855-2887 | removes exactly the machines that some pattern matches, unpublishing each that was in the set once |
| `Monitored.Channel.IncludeNamed` | iod/src/Channel.cpp:2818-2841 | adds exactly the named machines that exist |
| `Monitored.Channel.ApplyFilters` | iod/src/Channel.cpp:2733-2841 | the set becomes the layered add, ignore, name, ignore, name expression |
| `Monitored.LayeredIdempotent` | iod/src/Channel.cpp:2733-2841 | applying the expression again changes nothing |
| `Monitored.StaleStays` | iod/src/Channel.cpp:2733-2841 | a machine in the set that nothing ignores stays in it, even if no filter selects it any more |
| `Monitored.Channel.SetupFilters` | iod/src/Channel.cpp:2728-2853 | a full pass computes the expression and leaves nothing for another to do; with a clock that does not run backwards it is skipped only if no filter of the channel has changed, with one that always moves on exactly then; published counts follow the set but for exporters in it already |
| `Monitored.Channel.Modified` | iod/src/Channel.cpp:1422-1424 | a change is stamped so that it is seen by the next pass |
| `Monitored.Channel.AddMonitor` | iod/src/Channel.cpp:2279-2291 | the name is monitored and its own ignore pattern gone, and the change is seen |
| `Monitored.Channel.RemoveMonitor` | iod/src/Channel.cpp:2302-2317 | a monitored name is removed, any other gets an ignore pattern, and the change is seen |
| `Monitored.Channel.AddIgnorePattern` | iod/src/Channel.cpp:2292-2296 | the pattern is ignored and the change is seen |
| `Monitored.Channel.RemoveIgnorePattern` | iod/src/Channel.cpp:2297-2301 | the pattern is not ignored and the change is seen |
| `Monitored.Channel.SetMonitorExports` | iod/src/Channel.cpp:2337-2348 | exports are monitored or not, and only a real change counts as one |
| `Monitored.DefinitionChangeMissed` | iod/src/Channel.cpp:2728-2731 | a run in which a change to the definition is skipped and a machine that it names is not monitored |
| `Monitored.PublishedTwice` | iod/src/Channel.cpp:2733-2743 | two full passes over one exporting machine leave it in the set once and published twice |
| `Handshake.EnteredKeeps` | iod/src/Channel.cpp:355-465 | a state change in its place keeps uploads <= downloads <= status messages, the cover of entries into ACTIVE by uploads and strays, and their order |
| `Handshake.StrayKeeps` | iod/src/SyncRemoteStatesAction.cpp:184-188 | a stray change to ACTIVE keeps the rest, and keeps actives <= uploads if and only if an upload was left over |
| `Handshake.Channel.SetState` | iod/src/Channel.cpp:355-465 | refused if and only if there is neither a connection nor a working subscription; otherwise the state, the queued follow-up and the status message, also when the state stays the same |
| `Handshake.Channel.Connect` | iod/src/Channel.cpp:542-598 | the first connection of a client queues CONNECTED |
| `Handshake.Channel.Disconnect` | iod/src/Channel.cpp:600-623 | DISCONNECTED is queued if and only if no connection is left |
| `Handshake.Channel.CheckComms` | iod/src/Channel.cpp:2669-2712 | the change that the state of the communications asks for, or none; it keeps the order of states and messages and queues no disconnect |
| `Handshake.Channel.CheckEvent` | iod/src/Channel.cpp:863-893 | after a look at the communications if disconnected, DOWNLOADING goes to UPLOADING and UPLOADING to ACTIVE, keeping the order |
| `Handshake.Channel.RunSetTo` | iod/src/Channel.cpp:355-465 | a queued change that gets its turn keeps the order of ACTIVE and UPLOADING if and only if it is not a stray change with every upload used up |
| `Handshake.Channel.EndSync` | iod/src/SyncRemoteStatesAction.cpp:169-193 | an acknowledged upload queues ACTIVE, whatever the state is then |
| `Handshake.Channel.Step` | iod/src/Channel.cpp:355-465 | every event is a step of the state machine and keeps uploads <= downloads <= status messages, breaks actives <= uploads exactly by a stray change with every upload used up, and queues a disconnect exactly when the last connection goes |
| `Handshake.Channel.Run` | iod/src/Channel.cpp:355-465 | every run is one of the state machine, with uploads <= downloads <= status messages and actives <= uploads + strays, strays being no more than uploads; the result says exactly whether there was a stray change, and without one actives <= uploads |
| `Handshake.UsualRun` | iod/src/Channel.cpp:863-893 | the events of the usual handshake lead to ACTIVE with one download, one upload and one entry into ACTIVE |
| `Handshake.Reconnects` | iod/src/Channel.cpp:2669-2712 | from any state of the world with the subscription up and the channel not connected, two checks and two messages lead to ACTIVE with one status message, one download and one upload more |
| `Handshake.MessageConnects` | iod/src/Channel.cpp:863-893 | a message to a disconnected channel with the subscription up connects it |
| `Handshake.LosesSubscription` | iod/src/Channel.cpp:2683-2689 | a check with the setup connection down leaves the channel DISCONNECTED and everything else, the queue too, as it was |
| `Handshake.WaitsForSubscriber` | iod/src/Channel.cpp:2690-2698 | a check with only the subscriber down changes the state to CONNECTING if the setup waits to connect and there is a connection, and otherwise nothing |
| `Handshake.StrayRun` | iod/src/SyncRemoteStatesAction.cpp:169-193 | the events of the usual handshake, the loss of the subscription and a late acknowledgement lead to one upload and two entries into ACTIVE; every queued action that runs is the first of the queue |

## Left out

- Values: their operators are functions that the model is given, the usual ones on booleans and on integers that fit where `Predicates.DenotationKept` needs them; conversions, floating point and the caches of name lookup are not modelled.
- Timers: names with more than one dot, arithmetic on timers, and overflow of 64-bit timer arithmetic are not modelled.
- Process image: default values of outputs, `handleChange` of input components, message packaging and floating-point filters are not modelled; a byte is eight bits, and values are unsigned 32-bit.
- Outputs.OutputQueue.Send: the exchange between the processing thread and the EtherCAT thread is one step; a send that the other side is not ready for is not modelled.
- Sdo: preparation of modules happens before the first tick; the values read are not modelled.
- Dispatch: which receiver a package goes to, and the sockets between the threads, are not modelled; the mutex and the condition variable are steps of a state machine.
- Triggers: references owned by stable states and scheduled items count as references in hand; the callbacks of a trigger that fires, its seen and active flags, and the sets of holders kept for debugging are not modelled.
- Select.DoOperation: selecting from a REFERENCE into itself is not modelled; nor is it for `Select.Scan` and `Select.Visit`.
- Select: the condition is a fixed predicate of the entry, the temporary ITEM local of the source list is not modelled, and a count derived from the two positions is not remembered for the next run. The other set operations would only add easier members.
- IntrusiveList: poisoned pointers are null; the iteration macros are not modelled.
- Throttle.Channel.SendPropertyChangeMessage: a channel without a communications manager sends through its message interface without the interface test; that branch is not modelled.
- Throttle: shadow machines, modbus updates and a channel that is not active are outside the claim; updates in those cases are skipped or lost by the code.
- Echo: both channels are active with their links up, and one property of one machine is modelled; the kinds of values are a number, a string and a symbol.
- Echo.End.SetValue: properties of other machines, global variables and constants, the special properties and plugin filters are not modelled.
- Monitored: regular expressions are given as the sets of machines they match; the filters of a channel itself that `setupFilters` does not read (patterns, properties, linked machines) are not modelled.
- Handshake: servers and publishers, shadows that are enabled and disabled, and the contents of the upload are not modelled; a state change that `setState` allows always succeeds; queued actions may run in any order, which includes the order of the runtime.
- Sockets, threads, clocks and the EtherCAT master appear as events or parameters. Everything else in the repository (parser, user interfaces, plugins, most commands, JSON and logging) is not part of this model.
