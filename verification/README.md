# OCPP simulator: verified model

A Dafny model of the stateful parts of the OCPP 1.6J simulator and proofs of what they keep over
every run:

- the **simulated charge point** of the web client: registration, heartbeat, transactions, meter,
  deferred tasks, timers, connector buttons (`ChargePointTypes`, `ChargePointModel`, `ChargePoint`
  and the property modules around them);
- the **session registry** of the gateway under arbitrary interleaving (`GatewayProtocol`,
  `GatewayDisconnect`, `GatewayDelivery`) and one call at a time (`Gateway`);
- the **bounded log store**, its counter and the connector records of the browser database
  (`LogOrder`, `LogInterleaving`, `LogStore`, `Connectors`, `ConnectorInterleaving`,
  `CascadeInterleaving`);
- **transaction identity** in the core: the numeric counter with roll-back over a uniquely indexed
  table (`TransactionTable`, `TransactionIds`, `TransactionRollback`, `TransactionService`);
- the path of a frame through the backend: **topics, envelope codec, processor** (`Topics`,
  `Codec`, `Processor`) and back to the charge point (`ProcessorAnswers`).

`dafny verify dfyconfig.toml` checks all of it.

## How it is built

Every function of the charge point store that changes the runtime has a function on values in
`ChargePointModel`, and a method of the class `ChargePoint` that does the same in place and is
proved equal to it. What each event achieves is said a second time, without the steps of its handler
and in literal values: the frames sent, the row and connector they concern, the tasks and timers, and
that nothing else moves (`MeterReading`, `StoreEffects`, `SampleEffects`, `CommandEffects`,
`ReplyEffects`, `EventEffects`); the methods of `ChargePoint` promise that too. A run is a
sequence of events (`Apply`): socket open and close, inbound frames, deferred tasks, timer ticks,
buttons and other calls of the store, time passing. What is sent is a trace. `Moves` breaks every
event into a handful of elementary moves and `MovesCover` proves that nothing else ever happens, so
an invariant kept by the moves is kept by every run (`MovesCover.KeptByRun`).

Regimes narrow the runs a property speaks of, each by no more than that property needs. *Calm*
runs do not set a connector to Suspended while a stop is pending there. `STOPS_ON_TIME` lets no
stop timeout fire late, `Timed(i)` lets the heartbeat timer not fire late and fixes the interval;
both leave every other timer and everything asynchronous (the connector fetch after an accepted
boot, for one) as late as it likes. A *disciplined* run (`Discipline.Disciplined`) puts conditions
on replies, buttons, unlock and reset; `DisciplineLimits` shows, for each event it restricts, the
exact case in which that event does harm.

The trace of the model carries one thing the wire does not: the `meterStart` of the table row a
frame was built from (`session`), which names the transaction for good: no two StartTransactions
of a run carry the same one (`SessionHistory.SessionsAreUnique`).

Overlapping operations are state machines whose steps are the points between which other work can
run: put / snapshot / delete for log appends, subscribe / swap / close for gateway sessions, take /
insert / roll back for transaction ids. Beside each stands a class whose
methods run the same operation without interruption, as the source does in place.

## Results that are not what one might expect

- Documentation says every message re-arms the heartbeat timer. Only CALLs do; responses merely move
  `lastMessageSentAt`. So silence is bounded by twice the interval, not once, which
  `AlmostTwoIntervals` shows to be tight; `IdleSilenceExactly` says when it exceeds one.
- After an accepted boot every connector is reported Available, whatever is stored
  (`BootReportRightExactly`, `ChargingReportedAvailable`).
- A stopped transaction can send MeterValues: setting its connector to Suspended while the stop is
  pending puts it back under the sampling timer (`OverrideIsHarmlessExactly`, `SampleAfterStop`). No
  button passes Suspended or Charging; only the store's exported `setConnectorStatus` accepts
  them, and nothing in the repository calls it so.
- The log counter is wrong, and stays so until another load, after a load that counts rows while an append is between
  announcement and put, or during which one is announced (`LoadIsRightExactly`; runs:
  `LoadDuringPut`, `AnnounceDuringLoad`).
- Overlapping Starts, one of which fails, can leave a charge point unable to start another transaction
  (`OverlappingFailureBlocks`) or store an id twice (`RollbackIsSafeExactly`). So does, with
  Starts one at a time, an insert that is carried out but whose answer is lost (`LostAckBlocksExactly`).
- A message can be delivered to a registered session twice, exactly as long as some thread holds a
  session of the id it has not unsubscribed, before the swap of a replacement or after
  (`DeliveredTwiceExactly`; runs: `ReplacementDeliversTwice`). A handler that returns late ends its successor's session
  (`DeferredDisconnectExactly`).
- Overlapping connector creates can take the same number, or store a count that misses one
  (`TwoNumbersExactly`, `TwoCountsExactly`; runs from any tables: `CreatesCollide`, `StaleCountStored`).
  A create that overlaps the deletion of its charge point can leave a row that outlives it, or bring
  back a stale record (`RaceEndsExactly`; runs: `RowMayOutlive`, `RecordMayReturnStale`).

## Model

| member | source | states |
|---|---|---|
| ChargePointRuntime.ChargePoint.Dispatch | apps/web/src/stores/chargePointStore.ts:240-1158 | one event, carried out in place by the class, gives exactly the state the functional model gives, so every run property below holds of the class; and while both tables list each key once, which it keeps, it does what `EventEffects.Does` says of the event |
| StoreEffects.FrameEffect | apps/web/src/stores/chargePointStore.ts:342-424 | a CALL on an open socket is answered by exactly one response under its own id, as the last thing it causes; a reply takes its call off the pending ones, an unknown one changes nothing, and neither is ever responded to (also the contract of `ChargePoint.HandleOCPPFrame`) |
| StoreEffects.StopEffect | apps/web/src/stores/chargePointStore.ts:960-1012 | nothing without an id, with a stop pending or on a closed socket; otherwise the StopTransaction is the last call on the wire, with the row's own id and tag and a register above all it has read, the row stays pending for 15 s, and no other row or connector moves (also the contract of `ChargePoint.StopConnectorTransaction`) |
| StoreEffects.FinishEffect | apps/web/src/stores/chargePointStore.ts:1014-1036 | the row is gone and no other moves, the sampling timer runs on if and only if another row charges, and a connector due to become inoperative is Unavailable and reported so (also the contract of `ChargePoint.FinishStoppedTransaction`) |
| StoreEffects.StartReplyEffect | apps/web/src/stores/chargePointStore.ts:776-797 | the answer goes to the oldest row without an id, which gets it and charges, or whose connector is freed; nothing happens without one (also the contract of `ChargePoint.HandleStartTransactionResponse`) |
| ChargePointRuntime.ChargePoint.HandleReset | apps/web/src/stores/chargePointStore.ts:489-512 | without a type nothing, Rejected; with one, on an open socket, every row with an id and no stop pending is stopped in table order with HardReset or SoftReset: each one's Finishing status and StopTransaction are sent, its 15 s timeout is set, all other rows and connectors stay, and the rest is deferred by 500 ms (`CommandEffects.Resets`) |
| StoreEffects.SendEffect | apps/web/src/stores/chargePointStore.ts:864-881 | nothing on a closed socket; on an open one the call is on the wire under a new id, pending as what it is, and a running interval starts over; rows, connectors and deferred work stay (also the contract of `ChargePoint.SendFrame`) |
| EventEffects.RunsDo | apps/web/src/stores/chargePointStore.ts:240-1158 | every event of every run does what is said of it: socket, frames, tasks, timers and buttons, case by case, in literal frames, rows, connectors and delays |
| EventEffects.StatusButtonEffect | apps/web/src/stores/chargePointStore.ts:1123-1147 | a status set by hand: stored and reported with its fault, which Faulted sets and Available clears with the cable; Faulted first stops what may be stopped, as EmergencyStop; a suspension marks the row as charging; nothing unless accepted (also the contract of `ChargePoint.SetConnectorStatus`) |
| EventEffects.UnplugEffect | apps/web/src/stores/chargePointStore.ts:1082-1101 | Preparing and Finishing are freed and reported Available, Charging is stopped as EVDisconnected, all else stays (also the contract of `ChargePoint.UnplugConnector`) |
| EventEffects.InitialStatusEffect | apps/web/src/stores/chargePointStore.ts:657-674 | controller 0 and each connector fetched, in order, are reported Available and known from now on; none is other than it was shown |
| EventEffects.HeartbeatTimerEffect | apps/web/src/stores/chargePointStore.ts:939-958 | a Heartbeat exactly when nothing was sent for a whole interval, accepted and open; the timer starts over if it is to run at all |
| CommandEffects.RemoteStartEffect | apps/web/src/stores/chargePointStore.ts:426-455 | Accepted exactly with a tag and for an Available or Preparing connector, which keeps the tag; the start is due at once; a command without connector falls back to the first known one |
| CommandEffects.RunRemoteStartEffect | apps/web/src/stores/chargePointStore.ts:440-453 | the deferred start: an Available connector is plugged in and reported Preparing, and then asks to authorize with the tag of the command, pending for it |
| CommandEffects.RemoteStopEffect | apps/web/src/stores/chargePointStore.ts:457-470 | Accepted if and only if some row has that very id, and then exactly the stop of the first such row is due; otherwise nothing changes (also the contract of `ChargePoint.HandleRemoteStop`) |
| CommandEffects.RemoteStopStopsIt | apps/web/src/stores/chargePointStore.ts:457-470 | running it sends, last, the StopTransaction of that id, with reason Remote |
| CommandEffects.UnlockEffect | apps/web/src/stores/chargePointStore.ts:472-487 | Preparing and Finishing connectors are freed, their rows gone, answered Unlocked; Charging and unknown ones answer UnlockFailed and nothing moves |
| CommandEffects.StopAllEffect | apps/web/src/stores/chargePointStore.ts:494-498 | of any table, all rows that may be stopped are, and the calls sent are, in table order, each one's status and StopTransaction and no other |
| CommandEffects.RunResetEffect | apps/web/src/stores/chargePointStore.ts:499-510 | the deferred half: every connector but the Unavailable ones is Available with its cable out and reported so in order, then a BootNotification; no row moves |
| CommandEffects.ChangeAvailabilityEffect | apps/web/src/stores/chargePointStore.ts:514-544 | Scheduled if and only if some connector addressed is in use and was to become inoperative; Rejected without connector or type; each connector in turn set, or only noted, and reported |
| CommandEffects.RunTriggerEffect | apps/web/src/stores/chargePointStore.ts:546-569 | what each message asked for sends: boot, heartbeat, the status and fault stored, a sample of a live transaction, or nothing |
| CommandEffects.InboundCallEffect | apps/web/src/stores/chargePointStore.ts:374-424 | each command is carried out and then answered with its own status under the id of the CALL |
| ReplyEffects.CallResultEffect | apps/web/src/stores/chargePointStore.ts:574-596 | a reply goes where the pending call says, and nowhere without one (also the contract of `ChargePoint.HandleCallResult`) |
| ReplyEffects.BootEffect | apps/web/src/stores/chargePointStore.ts:618-641 | interval 300 by default; Accepted starts the heartbeat and makes the first statuses due, Rejected makes a retry due after the interval; no row or connector moves |
| ReplyEffects.AuthorizeEffect | apps/web/src/stores/chargePointStore.ts:728-774 | accepted: a new row 100 Wh above the last register, 20 %, 400 V, for the tag asked about or DEADBEEF, and a StartTransaction that carries them; refused: the connector is Available |
| ReplyEffects.StopReplyEffect | apps/web/src/stores/chargePointStore.ts:799-803 | the oldest row whose stop is pending finishes; nothing without one |
| ReplyEffects.CallErrorEffect | apps/web/src/stores/chargePointStore.ts:598-614 | the connector that asked to authorize or start loses its row and is Available with its cable out; any other call is only taken off |
| SampleEffects.SampleEffect | apps/web/src/stores/chargePointStore.ts:818-845 | accepted and open, the row is read ten seconds on and the one call sent carries its own energy, power, current, voltage and charge, each in its place; otherwise nothing (also the contract of `ChargePoint.SendMeterValuesForTransaction`) |
| SampleEffects.TickEffect | apps/web/src/stores/chargePointStore.ts:805-816 | one such call per charging row with an id, in table order, and no other; the timer runs on by 10 s (also the contract of `ChargePoint.OnMeterTimer`) |
| SampleEffects.SamplesArePlausible | apps/web/src/stores/chargePointStore.ts:818-860 | every MeterValues of every run: charge in [21, 95], power in [18000, 90000], voltage times current within 25.2 W of the power beside it |
| MeterReading.MeterEffect | apps/web/src/stores/chargePointStore.ts:847-860 | one percent up to 95, power by the curve of the charge, voltage by the charge, current and energy the nearest roundings, at least 1 Wh; nothing else of the row moves |
| MovesCover.StepIsMoves | apps/web/src/stores/chargePointStore.ts:240-1158 | every event is a sequence of elementary moves: nothing else can happen to the state |
| MovesCover.KeptByRun | apps/web/src/stores/chargePointStore.ts:240-1158 | what every elementary move keeps, every run keeps |
| ChargingInvariant.ChargingMeansLiveTransaction | apps/web/src/stores/chargePointStore.ts:457-512 | in every run without a forced Charging: a connector shows Charging only while it holds a transaction whose stop is not pending; keys equal connector ids; a pending stop has id, meterStop and reason |
| ChargingInvariant.ForcedChargingExactly | apps/web/src/stores/chargePointStore.ts:1123-1147 | the excluded call, `setConnectorStatus` with Charging (no button makes it), keeps this if and only if the connector holds such a transaction (or the charge point is not accepted) |
| RegistrationGate.NothingGatedBeforeAcceptance | apps/web/src/stores/chargePointStore.ts:618-686 | across any reconnects, every Heartbeat, StatusNotification and MeterValues has an Accepted boot reply before it on the same connection |
| BootReport.BootReportRightExactly | apps/web/src/stores/chargePointStore.ts:657-674 | the report after an accepted boot tells Available for every connector, and is right if and only if all of them are stored as Available |
| BootReport.ChargingReportedAvailable | apps/web/src/stores/chargePointStore.ts:657-674 | a reachable state in which a charging connector is reported Available |
| SessionHistory.SessionsAreWellFormed | apps/web/src/stores/chargePointStore.ts:805-860 | over every calm run: at most one StopTransaction per transaction, nothing metered after it, energy strictly rising from meterStart, meterStop above every sample, ids and connectors constant |
| SessionHistory.SessionsAreUnique | apps/web/src/stores/chargePointStore.ts:728-774 | over every run no two StartTransactions share the meterStart their transaction is known by |
| OverrideAftermath.OverrideIsHarmlessExactly | apps/web/src/stores/chargePointStore.ts:1123-1147 | after `setConnectorStatus` with a Suspended status (no button makes it) every calm continuation keeps its frames in order if and only if no stop was pending on the connector; otherwise, from every such state, some continuation sends MeterValues after the StopTransaction of its session |
| OverrideAftermath.NextTickShowsExactly | apps/web/src/stores/chargePointStore.ts:1123-1147 | with an open socket and the timer running, the trace after the very next tick is in order if and only if no stop was pending |
| OverrideScenario.SampleAfterStop | apps/web/src/stores/chargePointStore.ts:1133-1139 | a reachable state in which MeterValues follow the StopTransaction of the same transaction |
| StopDeadline.ChargingIsSampled | apps/web/src/stores/chargePointStore.ts:799-816 | over every calm run a charging transaction with an id is covered by a running sampling timer |
| StopDeadline.NoStopWaitsLonger | apps/web/src/stores/chargePointStore.ts:1001-1036 | with stop timeouts on time, whatever else is late and whatever replies or errors come, no transaction is stop-pending more than 15 s after its StopTransaction |
| HeartbeatBound.SilenceIsBounded | apps/web/src/stores/chargePointStore.ts:864-958 | with the heartbeat timer on time, whatever else is late: accepted and open, silence stays below 2·I, and at most I when the last frame was a CALL |
| HeartbeatBound.AutomaticHeartbeatsAreSpaced | apps/web/src/stores/chargePointStore.ts:939-958 | an automatic heartbeat comes at least I after the previous frame, and is one frame |
| HeartbeatBound.IdleSilenceExactly | apps/web/src/stores/chargePointStore.ts:939-958 | when a charge point left alone sends its next heartbeat, and that it has then been silent for more than one interval if and only if its timer was not armed when the silence began and is not due at that moment |
| HeartbeatBound.AlmostTwoIntervals | apps/web/src/stores/chargePointStore.ts:883-891 | for every interval, a reachable state one millisecond short of the bound: it is tight |
| Discipline.BindsExactlyInOrder | apps/web/src/stores/chargePointStore.ts:776-797 | a reply reaches the connector that asked if and only if it answers the oldest outstanding StartTransaction |
| Discipline.DisciplineHolds | apps/web/src/stores/chargePointStore.ts:598-614 | in every disciplined run the rows without an id are, in table order, the askers of the outstanding StartTransactions in sending order, and a live transaction is Charging |
| Discipline.RepliesReachTheirAsker | apps/web/src/stores/chargePointStore.ts:598-614 | so each reply, rejection or CALLERROR lands on the connector that asked: its row gets the id and charges, or leaves and frees the connector, and every other row and connector is unchanged |
| Discipline.LeavesOnlyStopped | apps/web/src/stores/chargePointStore.ts:960-1036 | a transaction with an id leaves the table only after exactly one StopTransaction for it |
| DisciplineLimits.ResetKeepsChargingExactly | apps/web/src/stores/chargePointStore.ts:499-510 | the deferred half of a Reset keeps live transactions Charging if and only if there are none |
| DisciplineLimits.AuthorizeKeepsLiveExactly | apps/web/src/stores/chargePointStore.ts:728-774 | an accepted Authorize loses no live transaction if and only if its connector has none |
| DisciplineLimits.UnlockKeepsBindingExactly | apps/web/src/stores/chargePointStore.ts:472-487 | an unlock keeps the order of askers if and only if it drops no row that is waiting for its id |
| DisciplineLimits.StatusKeepsChargingExactly | apps/web/src/stores/chargePointStore.ts:1123-1147 | a status set by hand agrees with the table if and only if nothing is live there, or it is Charging, or Faulted with an open socket |
| Drain.StepShrinks | apps/web/src/stores/chargePointStore.ts:342-641 | with no new input, every step of charge point, processor and deferred tasks makes the weight of outstanding traffic strictly smaller |
| Drain.ExchangesDrain | apps/message-processor/internal/processor/handler.go:79-151 | no exchange is longer than the weight it starts with |
| DrainRuns.RunsAreOk | apps/web/src/stores/chargePointStore.ts:342-641 | every state of every run over a fixed connector set, with any of its frames unread and any answers and commands under way, is one from which the exchange drains |
| DrainRuns.RunsDrain | apps/web/src/stores/chargePointStore.ts:342-641 | so from any point of any run the exchange is over within the weight of what is outstanding |
| DrainRuns.ResetDrains | apps/web/src/stores/chargePointStore.ts:489-512 | a Reset under way is over within 11 steps a connector, 2 a stored one and 9, besides what was deferred |
| DrainRuns.AuthorizeDrains | apps/web/src/stores/chargePointStore.ts:721-803 | an Authorize just sent leads to at most six steps, besides what was deferred |
| Drain.StuckMeansDrained | apps/web/src/stores/chargePointStore.ts:342-641 | when no step is left, nothing is unread, in flight or deferred |
| MeterArithmetic.WholeSession | apps/web/src/stores/chargePointStore.ts:847-860 | after n samples and the stop sample: soc in [20, 95] and not falling, power in [18000, 90000], energy in [50n+25, 250n+125], rounding drift at most (n+1)/2 Wh |
| MeterArithmetic.FullBattery | apps/web/src/stores/chargePointStore.ts:847-860 | from the 75th sample on each adds exactly 50 Wh |
| MeterArithmetic.NotYetFull | apps/web/src/stores/chargePointStore.ts:847-860 | the 74th adds more |
| MeterArithmetic.VoltageTimesCurrent | apps/web/src/stores/chargePointStore.ts:847-860 | a reading's V·I is within 25.2 W of its power; that the frames carry both unmixed is `SampleEffects.SamplesArePlausible` |
| MeteredRuns.RegistersInRange | apps/web/src/stores/chargePointStore.ts:805-860 | on the wire, over every calm run: the register of each frame lies in the bounds its place in the session gives |
| LogInterleaving.NewestSurvive | apps/web/src/db/browserDb.ts:202-216 | in every interleaving of overlapping appends no row among the newest 1000 of its charge point is deleted |
| LogInterleaving.SettledStoreIsNewest | apps/web/src/db/browserDb.ts:202-216 | when its appends have finished the store holds exactly the newest min(1000, n) rows of a charge point |
| LogInterleaving.FoundIsRightExactly | apps/web/src/db/browserDb.ts:223-226 | a count is the eventual one if and only if no put is outstanding or the store is full |
| LogInterleaving.LoadIsRightExactly | apps/web/src/stores/realtimeStore.ts:28-35 | a load leaves the counter right if and only if no append was outstanding at, or announced during, the load, or 1000 rows were found |
| LogScenario.LoadDuringPut | apps/web/src/stores/realtimeStore.ts:28-35 | the run announce, count, set, put leaves, when all has settled, one row and a counter of 0 |
| LogScenario.AnnounceDuringLoad | apps/web/src/stores/realtimeStore.ts:28-35 | so does count, announce, set, put |
| LogInterleaving.SettledCounterCountsRows | apps/web/src/stores/realtimeStore.ts:11-35 | a right counter stays right over any appends and, when they have settled, is the number of rows (but for an oversized store nobody appended to) |
| LogStore.OcppLogStore.AppendOcppLog | apps/web/src/db/browserDb.ts:202-216 | put, sort, cut and delete row by row leave the newest 1000 of this charge point and every other row |
| LogStore.PrunedKeepsLatest | apps/web/src/db/browserDb.ts:202-216 | which are at most 1000 of its rows and the event, each later than any that went |
| LogStore.OcppLogStore.ListOcppLogs | apps/web/src/db/browserDb.ts:218-221 | the newest `limit` rows, oldest first; all of them for a limit of 0 |
| LogStore.SortOldestFirst | apps/web/src/db/browserDb.ts:211-211 | sorted by timestamp, ties by id, and the same rows |
| LogStore.TailIsNewest | apps/web/src/db/browserDb.ts:211-213 | what `slice` cuts off is exactly what is outranked by 1000 others |
| LogOrder.NewestSize | apps/web/src/db/browserDb.ts:213-213 | the newest k of n rows are min(k, n) rows |
| LogStore.RealtimeStore.AppendEvent | apps/web/src/stores/realtimeStore.ts:11-26 | the event list, the counter and the table together; a counter equal to the row count stays equal |
| LogStore.RealtimeStore.LoadEventsForChargePoint | apps/web/src/stores/realtimeStore.ts:28-35 | the list is the other charge points' events then the newest 100; the counter equals the rows if and only if there are at most 1000 |
| LogStore.Listed | apps/web/src/stores/realtimeStore.ts:12-16 | an append drops at most one event, so a list a load made longer than 100 never gets shorter by fresh events |
| LogStore.ListedReplaces | apps/web/src/stores/realtimeStore.ts:12-16 | an event of a listed id takes the listed one out, keeps the order of the rest and is the last |
| LogStore.OthersJoin | apps/web/src/stores/realtimeStore.ts:28-35 | a load keeps the other charge points' events in their order |
| Connectors.TablesStayConsistent | apps/web/src/db/browserDb.ts:127-189 | over any sequence of creates and deletes: numbers positive and distinct, connectorCount equals the rows, no row outlives its charge point |
| Connectors.BrowserDb.NextConnectorNumber | apps/web/src/db/browserDb.ts:150-154 | the search ends, at the least free number, at most one above the count |
| Connectors.InUse | apps/web/src/db/browserDb.ts:152-154 | pigeonhole: n consecutive numbers in use are n rows |
| Connectors.BrowserDb.NewConnector | apps/web/src/db/browserDb.ts:144-172 | the new row, its number and the count; an error if and only if there is no such charge point |
| Connectors.BrowserDb.DeleteConnectorRecord | apps/web/src/db/browserDb.ts:174-189 | the row of that number goes and the count follows; nothing happens without one |
| Connectors.BrowserDb.DeleteChargePointCascade | apps/web/src/db/browserDb.ts:127-136 | the charge point and exactly its connectors and its logs go |
| Connectors.BrowserDb.NewChargePoint | apps/web/src/api/chargePointsApi.ts:30-53 | a new record with all its fields, defaults for empty ones; an error if and only if the id exists |
| Connectors.DeletedNumberReturns | apps/web/src/db/browserDb.ts:150-154 | after a delete the next number is the deleted one or the one due before, whichever is smaller |
| ConnectorInterleaving.TwoNumbersExactly | apps/web/src/db/browserDb.ts:144-172 | of two creates interleaved in any way the numbers are equal if and only if both listed before either added |
| ConnectorInterleaving.TwoCountsExactly | apps/web/src/db/browserDb.ts:144-172 | and the stored count is right if and only if the create that stored it last had listed after the other added |
| ConnectorInterleaving.NumbersCollideExactly | apps/web/src/db/browserDb.ts:148-154 | among any number of creates, two of a charge point collide if and only if no create that either of them saw took the number of either |
| ConnectorInterleaving.CountRightExactly | apps/web/src/db/browserDb.ts:165-170 | after any number of creates the stored count is right if and only if the last to store it saw all others |
| ConnectorInterleaving.SawExactly | apps/web/src/db/browserDb.ts:148-148 | a create saw another if and only if that one added before this one listed |
| ConnectorInterleaving.SawsChain | apps/web/src/db/browserDb.ts:148-148 | of two creates that have listed, one saw all that the other did |
| ConnectorScenario.CreatesCollide | apps/web/src/db/browserDb.ts:144-172 | from any tables, a run of two creates with equal numbers and a count one short |
| ConnectorScenario.StaleCountStored | apps/web/src/db/browserDb.ts:144-172 | from any tables, a run of two creates with different numbers and still a count one short |
| CascadeInterleaving.RaceEndsExactly | apps/web/src/db/browserDb.ts:127-172 | a create interleaved in any way with the cascade: a row outlives its charge point if and only if it was added after the cascade listed and the record put before it was deleted; a stale record is back if and only if it was put after, unless the row escaped and none had been found |
| CascadeInterleaving.RowMayOutlive | apps/web/src/db/browserDb.ts:127-172 | from any tables, a run that leaves such a row |
| CascadeInterleaving.RecordMayReturnStale | apps/web/src/db/browserDb.ts:127-172 | from any tables with connectors, a run that leaves such a record |
| GatewayProtocol.RegisteredSessionsAreOpen | apps/ocpp-gateway/internal/gateway/registry.go:38-92 | in every interleaving a registered session has its channels, is keyed by its own id, is open and subscribed |
| GatewayProtocol.ClosedAtMostOnce | apps/ocpp-gateway/internal/gateway/registry.go:54-61 | unsubscribe and close run at most once per session, in that order |
| GatewayProtocol.OnceIsNeverContended | apps/ocpp-gateway/internal/gateway/registry.go:86-91 | whoever reaches CloseOnce is the first |
| GatewayProtocol.LeftSessionsAreOwned | apps/ocpp-gateway/internal/gateway/registry.go:38-92 | a session that left the map is closed, or exactly one thread is about to close it |
| GatewayProtocol.LiveSubscriptionsExactly | apps/ocpp-gateway/internal/gateway/gateway.go:57-81 | the live subscriptions on an out topic are those of its sessions not yet unsubscribed |
| GatewayProtocol.QuietMeansOneSubscription | apps/ocpp-gateway/internal/gateway/gateway.go:57-81 | with no call in progress that is the registered session's, and no other |
| GatewayProtocol.QueuesHoldTheirOwn | apps/ocpp-gateway/internal/gateway/gateway.go:62-71 | a payload published for one id enters no queue of another |
| GatewayDelivery.OneSubscriptionExactly | apps/ocpp-gateway/internal/gateway/gateway.go:57-81 | in every reachable state the registered session's subscription is the only live one on its out topic if and only if every thread that holds a session of the id has unsubscribed it |
| GatewayDelivery.DeliveredTwiceExactly | apps/ocpp-gateway/internal/gateway/gateway.go:57-81 | with room in its queue, one message can reach the registered session twice if and only if some thread holds a session of the id it has not unsubscribed, before its swap or after |
| GatewayDelivery.ReplacementDeliversTwice | apps/ocpp-gateway/internal/gateway/gateway.go:57-81 | reachable states before and after the second swap in which it does |
| GatewayDisconnect.DeferredDisconnectExactly | apps/ocpp-gateway/internal/gateway/ws.go:54-54 | in every reachable state the deferred Disconnect of a returning handler takes another session out if and only if its id is registered to another session at that moment, and goes on to close that one |
| GatewayDisconnect.LateDisconnectEndsSuccessor | apps/ocpp-gateway/internal/gateway/ws.go:54-54 | connect, connect again, and the first handler returns: the second session is closed while its handler still reads |
| Gateway.Gate.Register | apps/ocpp-gateway/internal/gateway/registry.go:38-62 | the new session is in, the one it replaces closed and detached, all others untouched |
| Gateway.Gate.Disconnect | apps/ocpp-gateway/internal/gateway/registry.go:76-92 | removes, closes and detaches exactly the current session; a no-op without one |
| Gateway.Gate.Connect | apps/ocpp-gateway/internal/gateway/gateway.go:57-81 | a fresh registered session, or nothing changed when the subscription fails |
| Gateway.Gate.PublishInbound | apps/ocpp-gateway/internal/gateway/gateway.go:86-91 | one publication on the in topic, if and only if the id is registered and the broker takes it |
| Gateway.Gate.Delivered | apps/ocpp-gateway/internal/gateway/gateway.go:62-71 | a delivery appends to the queue of the subscription's own id only |
| TransactionIds.NumbersAreUnique | apps/ocpp-core/internal/db/migrations/001_transactions.sql:20-22 | in every interleaving of Starts, failures, roll-backs, assignments and restarts no two rows of a charge point share a number |
| TransactionIds.IdsResolveForEver | apps/ocpp-core/internal/api/server.go:228-239 | every id returned by a Start resolves at every later moment to the row that Start inserted |
| TransactionRollback.RollbackIsSafeExactly | apps/ocpp-core/internal/transaction/service.go:83-91 | after a roll-back no orderly continuation ever stores an id in two rows if and only if no later Start had taken an id; otherwise one does, whether that Start has stored its row, is about to, or has failed |
| TransactionRollback.OrderlyRunsAreDistinct | apps/ocpp-core/internal/transaction/service.go:67-97 | over orderly runs (safe roll-backs, no lost answers) no number above the counter's floor is in two rows, of whatever charge points |
| TransactionIds.GrantedIdsAreDistinct | apps/ocpp-core/internal/transaction/service.go:67-97 | while every roll-back is of that kind, so in particular if no insert fails, returned ids are distinct over all charge points and restarts |
| TransactionIds.GrantedIdsAreNew | apps/ocpp-core/internal/transaction/service.go:28-41 | and above everything stored when the counter was initialised, and an insert fails only for an unreachable database or a taken UUID |
| TransactionIds.SerialStartExactly | apps/ocpp-core/internal/transaction/service.go:67-97 | a Start alone succeeds unless the database is out of reach or the charge point has a row with the counter's id, and otherwise changes nothing |
| TransactionIds.SerialIdsAreConsecutive | apps/ocpp-core/internal/transaction/service.go:31-97 | one Start at a time, restarts at any point, also inside a Start: the numbers stored are the old ones and then consecutive ones, and between Starts the counter is the highest stored + 1 |
| TransactionIds.RestartIsUnobservable | apps/ocpp-core/internal/transaction/service.go:31-41 | a restart between Starts, after an id was taken, after a failed or a successful insert leaves what a Start that failed would leave |
| TransactionIds.FloorIsUnobservable | apps/ocpp-core/internal/transaction/service.go:31-41 | and no step ever reads the one history field in which the two differ |
| TransactionIds.OverlappingFailureBlocks | apps/ocpp-core/internal/transaction/service.go:83-91 | an interleaving after which every Start of the charge point fails and changes nothing |
| TransactionIds.LostAckBlocksExactly | apps/ocpp-core/internal/transaction/service.go:83-91 | a lone Start whose insert's answer is lost blocks its charge point if and only if the insert was carried out; then its further Starts fail, another charge point stores the id again, and a restart mends it |
| TransactionIds.LostAckKeepsApartExactly | apps/ocpp-core/internal/transaction/service.go:83-91 | among concurrent Starts a lost answer keeps ids apart if and only if the insert was not carried out |
| TransactionService.Service.Start | apps/ocpp-core/internal/transaction/service.go:67-97 | in place, the serial Start of the model; the id returned resolves to the row inserted |
| TransactionService.Service.InitCounter | apps/ocpp-core/internal/transaction/service.go:31-41 | the counter is one above the highest stored id, or unchanged with an error when the database does not answer |
| TransactionService.Server.FindTransactionByNumericID | apps/ocpp-core/internal/api/server.go:228-239 | the scan of the list finds what the table lookup finds; an error when the list cannot be read or has no such row |
| TransactionService.Server.HandleStopTransaction | apps/ocpp-core/internal/api/server.go:193-226 | exactly when it answers 400, 404, 500 and 200; on 200 that one row has status stopped, the stop register and the reason of the request and is otherwise as before, and no other row changes; on any other answer nothing does |
| TransactionTable.FindIsTheRow | apps/ocpp-core/internal/api/server.go:228-239 | the first match is the only one, whatever the order |
| TransactionTable.InsertKeepsExactly | apps/ocpp-core/internal/db/migrations/001_transactions.sql:20-22 | an insert keeps the index if and only if it is admitted |
| TransactionTable.TransactionRepo.Create | apps/ocpp-core/internal/db/transaction_repo.go:36-52 | a row is added if and only if the database is reached and key and index admit it |
| TransactionTable.TransactionRepo.AssignNumericID | apps/ocpp-core/internal/db/transaction_repo.go:61-76 | succeeds if and only if the row exists without a number and the index admits it; then that row has the number and status, and nothing else changes |
| TransactionTable.TransactionRepo.Stop | apps/ocpp-core/internal/db/transaction_repo.go:84-91 | the row of that id has status stopped, that stop register and that reason; its other fields and all other rows stay |
| TransactionTable.TransactionRepo.MaxNumericID | apps/ocpp-core/internal/db/transaction_repo.go:137-144 | the highest number stored, or 0 without any |
| TransactionTable.TransactionRepo.ListByChargePoint | apps/ocpp-core/internal/db/transaction_repo.go:111-131 | the list of the charge point |
| TransactionTable.OfChargePointNewestFirst | apps/ocpp-core/internal/db/transaction_repo.go:111-131 | which is all its rows, each at its position, last one first |
| Topics.ParsesExactly | apps/message-processor/internal/processor/processor.go:72-81 | a topic parses to an id if and only if it is that id's in or out topic and the id has no '/' |
| Topics.RoundTripsExactly | apps/ocpp-gateway/internal/gateway/gateway.go:20-29 | printing then parsing gives the id back if and only if it has no '/' |
| Topics.TopicsAreInjective | apps/ocpp-gateway/internal/gateway/gateway.go:20-29 | topics of different ids, and in and out topics, differ |
| Topics.ExtractsExactly | apps/ocpp-gateway/internal/gateway/ws.go:65-77 | the ids a path can carry are the non-empty ones without '/', '+' and '#' |
| Topics.SubscriptionSeesExactly | apps/message-processor/internal/processor/processor.go:26-32 | the wildcard subscription receives the in topic of an id if and only if it has no '/' |
| Codec.DecodesExactly | packages/ocpp-protocol/pkg/codec/codec.go:39-97 | a frame decodes if and only if it is an array of the length its kind asks for with text (or null) before the payload: 2 with four elements, 3 with three, 4 with five; each element is the field of the message it stands for and no other field is set |
| Codec.EncodesExactly | packages/ocpp-protocol/pkg/codec/codec.go:20-37 | which messages can be written and each element of what is written |
| Codec.MessageRoundTripsExactly | packages/ocpp-protocol/pkg/codec/codec.go:20-97 | decode after encode returns the message if and only if it is canonical; kind and unique id always survive |
| Codec.FrameRoundTripsExactly | packages/ocpp-protocol/pkg/codec/codec.go:39-97 | encode after decode returns the frame if and only if no text element was null and a CALL has an action |
| Codec.BuiltMessagesArrive | packages/ocpp-protocol/pkg/codec/codec.go:99-142 | built messages arrive as built; only a CALL without action cannot be sent |
| Processor.Handler.Handle | apps/message-processor/internal/processor/handler.go:54-98 | every CALL causes exactly one publish attempt, on its out topic, under its unique id, of a frame said literally: a boot is Accepted with the clock and 300, a heartbeat gets the clock, a status or sample an empty object, Authorize, Start and Stop the payload of the core's body, any other action NotImplemented, and what fails or the schema refuses GenericError; replies and undecodable frames cause none; the audit log says which |
| Processor.Handler.RespondToCall | apps/message-processor/internal/processor/handler.go:104-151 | the frame says what `Processor.Says` spells out for the action, the core's reply and the schema |
| Processor.SaysTheAnswer | apps/message-processor/internal/processor/handler.go:104-151 | and such a frame decodes to the one right answer |
| Processor.Handler.PublishResult | apps/message-processor/internal/processor/handler.go:155-197 | the result, or GenericError if the schema refuses it |
| Processor.Handler.PublishError | apps/message-processor/internal/processor/handler.go:202-243 | the CALLERROR as given |
| Processor.Inbound.Dispatch | apps/message-processor/internal/processor/processor.go:44-51 | end to end: for every id the gateway accepts, a CALL on its in topic is answered once on its out topic, with what `Processor.Says` spells out |
| ProcessorAnswers.NothingIsRefused | apps/message-processor/internal/processor/handler.go:104-151 | whatever the processor answers to whichever call, the charge point reads no refusal in it, as `Drain` takes for granted |
| ProcessorAnswers.AnsweredBootRegisters | apps/message-processor/internal/processor/handler.go:259-272 | a boot answered with a result registers the charge point that sent it, with a heartbeat every 300 s |

## Left out

- Numbers: JavaScript doubles are exact integers, voltage and current in tenths; `Math.round` rounds halves up. Frames' unique ids are increasing numbers.
- Time: one integer clock in milliseconds; timestamps are keys of a total order. Delays above 2^31 ms, at which `setTimeout` fires at once, are not modelled.
- Aliasing: connector states and transactions are values replaced in their maps, not shared objects, so a callback still holding an object that has left its map is not modelled. Loops over a map that is being changed follow the keys taken at the start, which is the same set because no handler adds a key inside such a loop.
- Runtime replacement for one charge point: one runtime per charge point; closures over an older one are not modelled.
- Connection status shown in the UI, selection, settings, event messages, `startedAt`, `connectAll` and the other wrappers: they decide nothing here.
- Reachability of connector lists: the lists fetched or selected in the UI are parameters of the events.
- Drain.StepShrinks: takes it that boot replies are never Rejected, which `ProcessorAnswers.NothingIsRefused` proves of the processor; a Rejected boot is retried after the suggested interval, for ever.
- MeterArithmetic.WholeSession: a session is n periodic samples and the stop sample; samples triggered by command or button count like periodic ones.
- LogInterleaving: deleting a charge point's logs and importing a database while appends run are not steps; database failures are not modelled there.
- Connectors.BrowserDb.ListConnectors: rows come in key order; the sort by number that follows in the source changes no result used here.
- GatewayProtocol: uses subscriptions with identities of their own, as the `Broker` interface promises. `PahoBroker` keys them by topic, so there the unsubscribe of a replaced session also detaches its successor.
- WebSocket pumps, MQTT and HTTP transport, SQL and IndexedDB internals: tables are maps with atomic operations, the broker a set of subscriptions and a publication log.
- ConnectorInterleaving: deletes of single connectors while creates run, and updates of the charge point's other fields, are not steps; a cascade is covered against one create.
- GatewayDisconnect: a handler may return at any time after its session was registered, even before its Connect has closed the session it replaced.
- TransactionIds: an insert still under way when the process dies is taken as lost; a Start cut off by a restart after its insert counts as granted though its caller got no answer. The order of rows with equal `created_at` is that of insertion.
- TransactionTable: `started_at`, `stopped_at` and the other time columns, `evse_id`, `ocpp_version`, `UpdateStatus` and `GetByID` are left out.
- JSON text and JSON Schema: the codec works on JSON values, schema validity is an arbitrary predicate, and invalid UTF-8 is not modelled.
- Processor.Inbound.Start: the errors for a missing broker or handler are left out.
- `v16` and `v201` payloads, CSMS command builders, pending-call bookkeeping of the backend, random ids: straight-line code.
