# Verified model of the MES backend and IoT collector

This Dafny project models the stateful cores of a manufacturing execution system and proves what they
promise over every input, every run and every interleaving. `dafny verify dfyconfig.toml` checks it.

## What is modelled

**Work orders and the completion saga.** `WorkOrderStateMachine`, `WorkOrders` and
`WorkOrderTransactions` give the transition table, the rows and the committed effect of create, update,
transit and report; `WorkOrderService` carries them out statement by statement. `CircuitBreaker.dfy` has
the breaker and the retry loop of outgoing calls; `CompletionSaga` and `IntegrationService` the saga that
completes an order (T1), reports to ERP (T2), stocks in at WMS (T3) and compensates. `PlantRuns` lets any
number of callers and sagas interleave committed steps. `PlantAccounts` and `SagaAccounts` keep accounts
over such runs, `SagaQuantities` follows the quantity that is sent, and `PlantFutures` asks what can still
happen. `BreakerCalls` and `SagaOutcomes` work out what a call's own retries do to its breaker, and what
that does to the saga.

**Transactional outbox.** `OutboxDispatcher` is one tick of one instance; `OutboxRuns` interleaves the
ticks of any number of instances, with publishing outside the transaction and roll-backs anywhere;
`OutboxDrain` proves how fast the table drains, and `OutboxHistory` tells status and retry count of a row by
the committed ticks that took it.

**Modbus collection.** `ModbusClient.dfy` is the frame codec and the client (section 3.1.3 of the MODBUS
Messaging on TCP/IP Implementation Guide v1.0b; sections 6.3 and 7 of the MODBUS Application Protocol
V1.1b3). `SensorFrames` and `DevicePoller` merge sensors into frames and slice the replies;
`PollingRefinement` proves that this agrees with reading every sensor alone, also over the wire.

**Ingest.** `IngestMessages` and `AlertRules` hold the rules of retry and alert suppression,
`IngestQueues` the steps between arrival and settlement, `DataIngestHandler` the consumer itself;
`IngestRuns` interleaves it with the database callbacks and `IngestSettlement` draws the conclusions.

**Smaller pieces.** `RbacService` and `FlightRuns` (single-flight permission loading), `AuthService` (the
cache of password checks), `Captcha` (base64, constant-time comparison) and `UrlEncoding`.

Each object whose methods update it in the program is a class; every method is tied by its `ensures` to a
specification function, and the lemmas are about runs of those functions. A run is any list of events; an
event that does not apply leaves the state as it is, so every theorem quantifies over all interleavings.

## What the code does differently from what one would expect

- The commit result of T1 is not looked at (mes-backend/src/services/IntegrationService.cc:317). A second
  stock-in of the order can follow if and only if that commit was lost
  (`PlantFutures.T1LeadsToTwoStockInsIffLost`); one lost commit is enough (`OneLostCommitStocksInTwice`).
- `update` takes any new plan (mes-backend/src/services/WorkOrderService.cc:293-294):
  `WorkOrderTransactions.UpdateKeepsStoreOk` holds exactly for a positive one, and
  `PlantAccounts.UnsoundPlanIsReached` is a run with another.
- `requireConfig` can throw after T1 without compensation
  (mes-backend/src/services/IntegrationService.cc:331, 342): `CompletionSaga.ConfigurationDecides`. A
  configuration that cannot be loaded counts as missing.
- Compensation has no status guard, so Closed is not terminal after all
  (mes-backend/src/models/WorkOrderStateMachine.hh:76-79): a closed order can be reopened if and only if
  one of its sagas is calling ERP or WMS, cancelling, or about to undo T1
  (`PlantFutures.ClosedCanBeReopenedIff`), and `ClosedOrderIsReopened` is a run in which it is. The stop
  message is not taken back.
- The saga sends the quantity it read before T1 (lines 292 and 333-348 of the same service). It is that of
  the order at T1 if and only if no report was accepted in between
  (`SagaQuantities.SentIsCompletedIffNoReportBetween`); `TooSmallAQuantityIsSent` is a run with one.
- A success does not close an open breaker (mes-backend/src/utils/CircuitBreaker.hh:37-42). When failed
  attempts of T2 open the ERP breaker and the last attempt succeeds, a cancellation after a failed stock-in
  is refused without being sent (mes-backend/src/services/IntegrationService.cc:352-357): T1 is undone and
  ERP keeps the report (`SagaOutcomes.RefusedCancellationLeavesTheReport`). Within the breaker's window this
  is excluded for all answers of ERP and WMS if and only if T2 has one attempt, or the breaker is CLOSED
  with failureCount + retryCount - 1 below the threshold (`SafeForAllRepliesIff`).
- An alert's key is noted before the alert is published (mes-backend/src/mq/DataIngestHandler.cc:245, 264).
  When the publish throws, the redelivered sample finds its key and the alert is lost
  (`AlertRules.RedeliveredAlertIsSuppressed`); the rule of 30 s holds if and only if that did not happen
  within them (`RuleHoldsIffNothingLost`).
- An exception reply with code 0, or without a code, reads as Ok with no registers, and an odd byte count
  is accepted with one byte too many: `ModbusFrames.OkMeansRegisters`, `AcceptsExactlyItsReplies`. The poller then
  reads past the end of the reply; `DevicePoller.PollOnce` ends there.
- The comment on alert suppression (mes-backend/src/mq/DataIngestHandler.cc:124) speaks of sensor and
  direction; the key (line 240) also holds the level, and the model follows the key. Sensor ids of a
  million and more collide: `AlertRules.SharedKeySwallowsAlert`.

## Assumptions

- Each SQL statement, publish or callback is one atomic step with an outcome chosen by the environment. A
  throw before the commit rolls back, as the code states
  (mes-backend/src/services/WorkOrderService.cc:371, mes-backend/src/mq/OutboxDispatcher.cc:46), although
  the second of these comments also says that the destructor commits.
- Within a channel's lifetime no call on the channel throws; one that does ends the lifetime. The
  suppression of alerts is modelled across lifetimes.
- Callbacks of permission requests do not throw: one that did would drop the waiters behind it
  (mes-backend/src/services/RbacService.cc:56-61).
- A call that does not end in 2xx was not applied by its peer, and a publish that returns false left no
  copy at the broker.
- Quantities do not exceed the range of int, and suppression keys not that of int64.
- Rows of the outbox have distinct created_at where the drain bound needs an order of age.
- Sensor addresses lie in 40001 to 105536 with the width of the sensor where values are compared with the
  bank; sorting yields some ascending permutation of the indexes.
- Digests are collision-free hexadecimal strings and stored hashes hold no bar, where the cache is
  concerned. Clocks are monotone where a lemma says so.

## Model

| member | source | states |
|---|---|---|
| `WorkOrderStateMachine.FindNext` | mes-backend/src/models/WorkOrderStateMachine.hh:57-63 | The search through the table finds the target of the one matching row, or nothing; it equals the match-based Next. |
| `WorkOrderStateMachine.TableRows` | mes-backend/src/models/WorkOrderStateMachine.hh:42-54 | Next allows a step exactly if the table holds its row. |
| `WorkOrderStateMachine.TableKeysAreDistinct` | mes-backend/src/models/WorkOrderStateMachine.hh:42-54 | No two of the rows share status and action. |
| `WorkOrderStateMachine.EdgesOf` | mes-backend/src/models/WorkOrderStateMachine.hh:42-54 | The successors of every status, spelled out in both directions. |
| `WorkOrderStateMachine.TerminalMeansNoExit` | mes-backend/src/models/WorkOrderStateMachine.hh:77-79 | A status is terminal (Closed, Cancelled) exactly if no action leads out of it. |
| `WorkOrders.NewOrderTotals` | mes-backend/src/services/WorkOrderService.cc:256-273 | A new order has nothing completed, totals that match, and for each step one operation with the plan of the order. |
| `WorkOrders.NewOrderOk` | mes-backend/src/services/WorkOrderService.cc:225-273 | A new order satisfies the order invariant exactly if its plan is positive, its route is not empty and its steps are distinct. |
| `WorkOrders.WithPlanKeepsOrderOk` | mes-backend/src/services/WorkOrderService.cc:293-313 | Replacing the plan of an order that has not started keeps the invariant if and only if the new plan is positive. |
| `WorkOrders.SumOfUpdate` | mes-backend/src/services/WorkOrderService.cc:394-412 | Changing one operation changes the sum over all operations by the difference at that operation. |
| `WorkOrders.SumBoundsEachPart` | mes-backend/src/services/WorkOrderService.cc:394-412 | Each part of a sum of non-negative quantities is at most the sum. |
| `WorkOrders.ReportKeepsTotals` | mes-backend/src/services/WorkOrderService.cc:394-413 | A report keeps each of the four order totals equal to the sum over the operations. |
| `WorkOrders.ReportKeepsOrderOk` | mes-backend/src/services/WorkOrderService.cc:393-413 | A report that hits keeps the whole order invariant, among it the bound of twice the plan. |
| `WorkOrders.SingleOperationStaysWithinPlan` | mes-backend/src/services/WorkOrderService.cc:398-402 | An order with one operation never exceeds its plan. |
| `WorkOrders.EdgeKeepsOrderOk` | mes-backend/src/services/WorkOrderService.cc:341-343 | A step of the table keeps the order invariant. |
| `WorkOrders.UnwindingMustRollBack` | mes-backend/src/services/WorkOrderService.cc:371-433 | If the inner update of the combined statement stayed in force while the outer one matched nothing, the totals would no longer agree: the throw must roll back. |
| `WorkOrderTransactions.CreateKeepsStoreOk` | mes-backend/src/services/WorkOrderService.cc:225-278 | Whatever the request and the route, create keeps every order sound and its id below the sequence. |
| `WorkOrderTransactions.UpdateKeepsStoreOk` | mes-backend/src/services/WorkOrderService.cc:281-317 | update keeps the store sound exactly if it is refused, writes no plan, or writes a positive one. |
| `WorkOrderTransactions.TransitKeepsStoreOk` | mes-backend/src/services/WorkOrderService.cc:320-348 | Manual status steps keep every order sound. |
| `WorkOrderTransactions.ReportKeepsStoreOk` | mes-backend/src/services/WorkOrderService.cc:351-457 | Reports keep every order sound. |
| `WorkOrderTransactions.ReportFollowsTheRules` | mes-backend/src/services/WorkOrderService.cc:351-457 | The single-statement report is accepted exactly if step and quantities are valid, quality control does not apply or an inspection is on file, the order is in progress, the step exists, the plain over-report rule allows it and the commit succeeds, and changes nothing otherwise; accepted, it adds good, defect, scrap and their sum to that operation and to the order only, and completes the order with one stop row exactly if the plain reaches-plan rule says so. |
| `WorkOrderTransactions.ReportRefusals` | mes-backend/src/services/WorkOrderService.cc:356-433 | A report is refused for the first of these reasons and changes nothing: invalid numbers (400), quality control without an inspection (409), order unknown (404), not in progress (409), step unknown (404), plan exceeded (409), commit failed (500). |
| `WorkOrderTransactions.CreateFollowsTheRequest` | mes-backend/src/services/WorkOrderService.cc:225-278 | When create is accepted, what it adds, and which error it answers otherwise, in terms of product, plan, route and commit. |
| `WorkOrderTransactions.UpdateFollowsTheRequest` | mes-backend/src/services/WorkOrderService.cc:281-317 | update is accepted before release only, writes the new plan into the order and exactly its waiting operations, and answers the error of the first check that fails. |
| `WorkOrderTransactions.TransitFollowsTheNames` | mes-backend/src/services/WorkOrderService.cc:320-348 | transit by action names and statuses alone: the ten steps, the new status and nothing else, and the error of each refusal. |
| `WorkOrderTransactions.NamesLead` | mes-backend/src/services/WorkOrderService.cc:137-153 | The seven action names are known, no other is, and each leads exactly along its steps. |
| `WorkOrderService.Service.constructor` | mes-backend/src/services/WorkOrderService.cc:225-278 | An empty table. |
| `WorkOrderService.Service.Create` | mes-backend/src/services/WorkOrderService.cc:225-278 | Carried out row by row, create has the committed effect and the error of its specification. |
| `WorkOrderService.Service.Update` | mes-backend/src/services/WorkOrderService.cc:281-317 | Same for update, including the roll-back of a failed commit. |
| `WorkOrderService.Service.Transit` | mes-backend/src/services/WorkOrderService.cc:320-348 | Same for transit: action name, existence, table, commit. |
| `WorkOrderService.Service.Report` | mes-backend/src/services/WorkOrderService.cc:351-457 | Same for report: inner update, outer update, diagnosis, stop row and commit in the order of the code. |
| `Breakers.ConfigurationIsFixed` | mes-backend/src/utils/CircuitBreaker.hh:16-17 | Threshold and window never change. |
| `Breakers.ClosedCountsTheStreak` | mes-backend/src/utils/CircuitBreaker.hh:37-53 | In every run, while CLOSED, the failure count is the number of failures since the last success and below the threshold. |
| `Breakers.OpensAtTheThreshold` | mes-backend/src/utils/CircuitBreaker.hh:44-53 | In CLOSED a failure opens the breaker exactly if the streak reaches the threshold. |
| `Breakers.OpenUntilAdmitted` | mes-backend/src/utils/CircuitBreaker.hh:20-35 | An opened breaker stays open until a request is admitted after the window. |
| `Breakers.NothingAdmittedInsideTheWindow` | mes-backend/src/utils/CircuitBreaker.hh:20-53 | With a monotone clock, no request is admitted within the window after the failure that opened the breaker, whatever other callers record meanwhile. |
| `Breakers.WindowDecides` | mes-backend/src/utils/CircuitBreaker.hh:24-30 | The next request after the opening failure, with no failure between, turns the breaker HALF_OPEN if and only if the window has passed, and leaves it OPEN otherwise. |
| `Breakers.ProbeDecides` | mes-backend/src/utils/CircuitBreaker.hh:37-48 | In HALF_OPEN success closes with a clean count, failure opens from that moment on. |
| `Breakers.OutcomeIsCounted` | mes-backend/src/utils/CircuitBreaker.hh:37-53 | In the other modes success clears the count only; a failure counts, and opens from that moment on exactly if the count has reached the threshold. |
| `Breakers.CircuitBreaker.constructor` | mes-backend/src/utils/CircuitBreaker.hh:16-17 | A new breaker is closed with no failures. |
| `Breakers.CircuitBreaker.AllowRequest` | mes-backend/src/utils/CircuitBreaker.hh:20-35 | OPEN admits and turns HALF_OPEN exactly if the window since openedAt_ has passed; the other modes admit and stay. |
| `Breakers.CircuitBreaker.RecordSuccess` | mes-backend/src/utils/CircuitBreaker.hh:37-42 | Success resets the count and closes a half-open breaker. |
| `Breakers.CircuitBreaker.RecordFailure` | mes-backend/src/utils/CircuitBreaker.hh:44-53 | Failure reopens a half-open breaker and otherwise counts up to the threshold. |
| `ExternalCalls.Attempts` | mes-backend/src/services/IntegrationService.cc:129-168 | At least one and at most the budgeted number of attempts. |
| `ExternalCalls.AttemptsStopAtFirstAccepted` | mes-backend/src/services/IntegrationService.cc:129-168 | Every attempt before the last was not accepted; stopping early means that the last one was. |
| `ExternalCalls.AppliedOnceOrNever` | mes-backend/src/services/IntegrationService.cc:117-170 | For every retry budget and admission, a call reporting success was applied once by its peer, one reporting failure never. |
| `ExternalCalls.CallByStatusCodes` | mes-backend/src/services/IntegrationService.cc:129-168 | Told by status codes: at least one attempt and at most max(1, retryCount), none after the first 2xx, and Ok if and only if the breaker admits and one attempt of the budget is answered 2xx. |
| `ExternalCalls.CallExternal` | mes-backend/src/services/IntegrationService.cc:117-170 | Asks the breaker once, makes at most max(1, retryCount) attempts, records exactly one outcome per attempt, and succeeds as the script of answers says. |
| `CompletionSaga.StepKeepsTally` | mes-backend/src/services/IntegrationService.cc:296-378 | Each step keeps the account of what a healthy saga has reached a function of its stage. |
| `CompletionSaga.ConfigurationDecides` | mes-backend/src/services/IntegrationService.cc:279-378 | With database steps that succeed, the saga is all-or-nothing if and only if ERP is configured and, unless it fails, WMS is configured too (requireConfig throws after T1 without compensation) and either takes the order in or leaves a cancellation that goes through. |
| `CompletionSaga.WhatOneRunLeaves` | mes-backend/src/services/IntegrationService.cc:279-378 | In every world, how one run ends and everything it leaves: T1, ERP net, stock-in, inventory row, failure log, and the success logs for ERP and then WMS. |
| `CompletionSaga.StepKeepsRefusal` | mes-backend/src/services/IntegrationService.cc:352-361 | Only a saga whose stock-in failed can have its cancellation refused. |
| `BreakerCalls.FailuresCount` | mes-backend/src/utils/CircuitBreaker.hh:44-53 | The state after a request and n failed attempts, and which attempt opened the breaker. |
| `BreakerCalls.SuccessfulCallLeavesOpenIff` | mes-backend/src/utils/CircuitBreaker.hh:37-42 | A successful call leaves the breaker open if and only if its own failed attempts reached the threshold from CLOSED, or there were any from HALF_OPEN: a success does not close an open breaker. |
| `BreakerCalls.FailedCallLeavesOpenIff` | mes-backend/src/utils/CircuitBreaker.hh:44-53 | The same for a call that fails in every attempt. |
| `BreakerCalls.RetriesAreSafeIff` | mes-backend/src/services/IntegrationService.cc:129-168 | Over all answers of the peer, a successful call cannot leave its breaker open if and only if it has one attempt, or the breaker is CLOSED with failureCount + retryCount - 1 below the threshold. |
| `BreakerCalls.ReachableIsBelowThreshold` | mes-backend/src/utils/CircuitBreaker.hh:44-53 | Every reachable breaker is below its threshold while CLOSED. |
| `BreakerCalls.LateSuccess` | mes-backend/src/services/IntegrationService.cc:129-168 | A peer can accept at the last attempt of any budget. |
| `SagaOutcomes.OutcomeIsDecidedByTheBreaker` | mes-backend/src/services/IntegrationService.cc:334-361 | For every state of both breakers and every answer of ERP and WMS, where ERP accepts a cancellation that it gets: all-or-nothing if and only if ERP is configured and fails, or WMS is configured and succeeds, or the ERP breaker after T2 admits the cancellation. |
| `SagaOutcomes.SafeRetriesKeepItSafe` | mes-backend/src/services/IntegrationService.cc:334-361 | With both configured and retries of T2 that cannot open the ERP breaker, the saga is all-or-nothing. |
| `SagaOutcomes.UnsafeRetriesBreakIt` | mes-backend/src/services/IntegrationService.cc:334-361 | Otherwise, within the window, an ERP that accepts late and a WMS that is down break it. |
| `SagaOutcomes.SafeForAllRepliesIff` | mes-backend/src/services/IntegrationService.cc:334-361 | Hence, before the saga starts: it is all-or-nothing for all answers if and only if the retries of T2 cannot open the ERP breaker. |
| `SagaOutcomes.FourFailures` | mes-backend/src/utils/CircuitBreaker.hh:44-53 | Four failures bring the configured breaker next to its threshold. |
| `SagaOutcomes.RefusedCancellationLeavesTheReport` | mes-backend/src/services/IntegrationService.cc:352-357 | From there: T2 answered 500 and then 200, WMS down, ERP ready to accept the cancellation. It is never sent; T1 is undone and ERP keeps the report. |
| `CompletionSaga.CompensationRestoresTheOrders` | mes-backend/src/services/IntegrationService.cc:319-361 | A compensated run leaves the work orders exactly as before; the stop message stays. |
| `CompletionSaga.StepsMakeTheNetEffect` | mes-backend/src/services/IntegrationService.cc:279-378 | The single steps of an uninterrupted saga add up to its closed-form net effect, for every world. |
| `CompletionSaga.FinishCompensation` | mes-backend/src/services/IntegrationService.cc:319-339 | T1 undone and failure logged, or what of it the database allowed. |
| `CompletionSaga.FinishRecords` | mes-backend/src/services/IntegrationService.cc:363-378 | Inventory row and both log rows. |
| `CompletionSaga.FinishFromWms` | mes-backend/src/services/IntegrationService.cc:349-361 | A failed stock-in cancels the ERP report, then undoes T1, then logs. |
| `IntegrationService.Integration.CompleteLocally` | mes-backend/src/services/IntegrationService.cc:296-317 | T1: status and stop row together or not at all; refusal when the order moved on. |
| `IntegrationService.Integration.Compensate` | mes-backend/src/services/IntegrationService.cc:319-340 | rollbackT1 without a status guard, then the failure log. |
| `IntegrationService.Integration.ReportToErp` | mes-backend/src/services/IntegrationService.cc:330-334 | T2 adds what ERP applied, with the quantity sent, and leaves the breaker as one request and the outcome of every attempt leave it. |
| `IntegrationService.Integration.StockIn` | mes-backend/src/services/IntegrationService.cc:341-349 | T3 does the same with WMS and its breaker. |
| `IntegrationService.Integration.CancelReport` | mes-backend/src/services/IntegrationService.cc:352-357 | The report is cancelled or the failure noted, and the ERP breaker told of every attempt. |
| `IntegrationService.Integration.TryErp` | mes-backend/src/services/IntegrationService.cc:330-339 | T2 and, when it fails, its compensation. |
| `IntegrationService.Integration.Record` | mes-backend/src/services/IntegrationService.cc:363-372 | T4: inventory row, then the two success logs, as far as the database goes along. |
| `IntegrationService.Integration.FinishAtWms` | mes-backend/src/services/IntegrationService.cc:341-372 | T3, its compensations and T4, with both breakers afterwards. |
| `IntegrationService.Integration.FinishAtErp` | mes-backend/src/services/IntegrationService.cc:330-372 | T2 to T4, with both breakers afterwards. |
| `IntegrationService.ErpThenWms` | mes-backend/src/services/IntegrationService.cc:334-361 | An applied report followed by T3 makes up the specified whole. |
| `IntegrationService.Integration.ReportCompletionSaga` | mes-backend/src/services/IntegrationService.cc:279-378 | The saga, await by await with real breakers and retries, has exactly the net effect for the scripted world, with the verdict of each breaker in the state it is in when asked: the cancellation meets the ERP breaker that T2 left behind; and both breakers end as the calls made leave them. |
| `PlantRuns.ApplyKeepsPlantOk` | mes-backend/src/services/IntegrationService.cc:279-378 | Every committed step of any caller or saga keeps the invariant over orders, sagas and external accounts. |
| `PlantRuns.EveryRunIsOk` | mes-backend/src/services/IntegrationService.cc:279-378 | Hence it holds in every reachable state of every interleaving. |
| `PlantRuns.QuantitiesAreConserved` | mes-backend/src/services/WorkOrderService.cc:351-457 | In every run: balance and totals of each order and operation, operation within plan and finished exactly when full, order below twice its plan (within it for one operation), in progress only below plan. |
| `PlantRuns.OneSagaPerOrder` | mes-backend/src/services/IntegrationService.cc:296-361 | At most one saga per order is past T1 and unfinished, and while it is the order is Completed or Closed. |
| `PlantRuns.StockedInAtMostOnce` | mes-backend/src/services/IntegrationService.cc:341-367 | No order is stocked in more than once, nor entered in the inventory more often than stocked in; open ERP reports are zero or one. |
| `PlantRuns.TalliesFit` | mes-backend/src/services/IntegrationService.cc:279-378 | Even without trusting commits, every saga account fits its stage. |
| `PlantRuns.HealthySagasAreAllOrNothing` | mes-backend/src/services/IntegrationService.cc:279-378 | In any interleaving and for every breaker and retry history, a finished saga that met no fault of database, configuration or ERP did everything once, or has T1 undone and one failure log, or was refused untouched; in the second case its tally is all-or-nothing if and only if the ERP breaker did not refuse its cancellation, which leaves one report at ERP. |
| `PlantRuns.TallyIsTheChange` | mes-backend/src/services/IntegrationService.cc:296-378 | A step changes the tally of its saga by exactly what it changes in the accounts of its order, and touches the accounts of no other order. |
| `PlantRuns.T1IsTheChange` | mes-backend/src/services/IntegrationService.cc:299-323 | T1 comes onto the tally and leaves it with its effect on the order. |
| `SagaAccounts.AccountsAreTheSumOfTallies` | mes-backend/src/services/IntegrationService.cc:279-378 | In every run, trusted or not, ERP net, stock-ins, inventory rows and failure logs of an order are the sums over the tallies of its sagas. |
| `SagaAccounts.StepKeepsAccounts` | mes-backend/src/services/IntegrationService.cc:279-378 | Each step keeps that match. |
| `SagaAccounts.SumOfUpdate` | mes-backend/src/services/IntegrationService.cc:279-378 | Changing one saga changes the sum by its difference. |
| `SagaAccounts.UndoneOnlyPastUndo` | mes-backend/src/services/IntegrationService.cc:319-361 | Only a saga past its UndoT1 has carried out its compensation. |
| `SagaAccounts.ReopeningCompensates` | mes-backend/src/services/IntegrationService.cc:319-323 | A reopening is the compensation of a saga that had not compensated before. |
| `SagaAccounts.ReopeningsAreCompensations` | mes-backend/src/services/IntegrationService.cc:319-323 | In every run an order is reopened at most once for each of its compensated sagas. |
| `SagaAccounts.StopRowsAreBounded` | mes-backend/src/services/WorkOrderService.cc:393-450 | In every run the stop rows of an order equal its automatic completions and are at most one more than its compensated sagas. |
| `PlantRuns.StatusesFollowTheTable` | mes-backend/src/models/WorkOrderStateMachine.hh:42-54 | Every status change in a run is an edge of the table or the compensation; Cancelled is never left, Closed only by compensation. |
| `PlantRuns.StepMovesAlongAnEdge` | mes-backend/src/services/IntegrationService.cc:319-323 | The same for a single step from any state. |
| `PlantRuns.InProgressMeansNoHolder` | mes-backend/src/services/IntegrationService.cc:296-305 | An order in progress has no saga past T1, no open ERP report and no stock-in. |
| `PlantRuns.StepIsLegal` | mes-backend/src/services/IntegrationService.cc:279-378 | A saga step touches only its own order and its own claims. |
| `PlantRuns.TransitAdvances` | mes-backend/src/services/WorkOrderService.cc:320-348 | Manual steps never leave the finished states nor change quantities. |
| `PlantAccounts.StopRowMeansCompletion` | mes-backend/src/services/WorkOrderService.cc:437-447 | A step writes a stop row for an order exactly if it takes it from 3 to 5 by report or saga. |
| `PlantAccounts.StopRowsMatchCompletions` | mes-backend/src/services/WorkOrderService.cc:393-450 | In every run the stop rows of an order equal its automatic completions, and exceed its reopenings by at most one. |
| `PlantAccounts.ReopeningIsCompensation` | mes-backend/src/services/IntegrationService.cc:319-323 | Only compensation reopens a finished order. |
| `PlantAccounts.IdsAreBelowTheSequence` | mes-backend/src/services/WorkOrderService.cc:254-263 | Ids in use are below the sequence. |
| `PlantAccounts.QuantityBoundIsTight` | mes-backend/src/services/WorkOrderService.cc:393-413 | For every plan of at least 2 there is a run that ends at twice the plan minus one. |
| `PlantAccounts.UnsoundPlanIsReached` | mes-backend/src/services/WorkOrderService.cc:293-294 | Create and one update take the empty plant to an order with any plan that is not positive. |
| `PlantAccounts.T1NeedsItsCommit` | mes-backend/src/services/IntegrationService.cc:317 | T1 keeps the plant invariant if and only if its unchecked commit was not lost. |
| `PlantFutures.ClosedIsLeftExactlyByUndo` | mes-backend/src/services/IntegrationService.cc:319-323 | One event takes an order out of Closed exactly if it is the successful undo of T1 by a saga of that order; trust is not needed. |
| `PlantFutures.ClosedCanBeReopenedIff` | mes-backend/src/models/WorkOrderStateMachine.hh:76-79 | A closed order can still leave its terminal state if and only if one of its sagas is calling ERP or WMS, cancelling, or about to undo T1. |
| `PlantFutures.SealedForever` | mes-backend/src/models/WorkOrderStateMachine.hh:76-79 | Without such a saga it stays closed in every future. |
| `PlantFutures.UndoIsReachable` | mes-backend/src/services/IntegrationService.cc:335-358 | With such a saga there is a trusted future that reopens it. |
| `PlantFutures.ClosedOrderIsReopened` | mes-backend/src/services/IntegrationService.cc:319-340 | A trusted run from the empty plant that does so: create, start, T1, close by hand, ERP down, undo. |
| `PlantFutures.T1LeadsToTwoStockInsIffLost` | mes-backend/src/services/IntegrationService.cc:317-349 | A T1 step of a sound plant can be followed, by trusted events only, by a second stock-in of its order if and only if its commit was lost. |
| `PlantFutures.LostCommitStocksInTwice` | mes-backend/src/services/IntegrationService.cc:317-349 | After one lost commit, its own saga and a second one both stock the order in. |
| `PlantFutures.OneLostCommitStocksInTwice` | mes-backend/src/services/IntegrationService.cc:317-349 | A run from the empty plant with one lost commit and otherwise trusted events that ends with two stock-ins. |
| `SagaQuantities.CompletedMovesByReports` | mes-backend/src/services/WorkOrderService.cc:393-413 | Accepted reports raise the completed quantity of their order by what they report; no other event moves it. |
| `SagaQuantities.TellingSendsTheQuantityRead` | mes-backend/src/services/IntegrationService.cc:333-348 | ERP and WMS are told exactly the quantity the saga has read. |
| `SagaQuantities.NothingElseIsSent` | mes-backend/src/services/IntegrationService.cc:333-348 | Nothing else adds to what they were told. |
| `SagaQuantities.UnchangedIffNoneAccepted` | mes-backend/src/services/WorkOrderService.cc:393-413 | Over any stretch of a run the completed quantity is unchanged if and only if no report on the order was accepted, and never falls. |
| `SagaQuantities.SentIsCompletedIffNoReportBetween` | mes-backend/src/services/IntegrationService.cc:281-349 | In every run, what a saga sends to ERP or WMS equals the completed quantity of its order at T1 if and only if no report on the order was accepted between its start and its T1; otherwise it is too small. |
| `SagaQuantities.TooSmallAQuantityIsSent` | mes-backend/src/services/IntegrationService.cc:281-349 | For every plan of at least 2, a trusted run with a report in between that does not finish the order: ERP and WMS are told 0 while 1 is completed. |
| `OutboxRows.MarkedIsOk` | mes-backend/src/mq/OutboxPolicy.hh:15-17 | An attempt keeps status and retry count of a row consistent, and leaves it pending only with its count raised by one. |
| `OutboxRows.MarkedIsAttempted` | mes-backend/src/mq/OutboxDispatcher.cc:82-102 | One attempt: sent with the count unchanged, or one failure more, dead exactly with the fifth. |
| `OutboxRows.BatchIsAttempted` | mes-backend/src/mq/OutboxDispatcher.cc:72-103 | Each row of a batch has one such attempt with its own answer, no other row is touched. |
| `OutboxRows.MarkFirstRows` | mes-backend/src/mq/OutboxDispatcher.cc:72-103 | Marking the first n rows of a batch changes each of them once, by its own publish result, and no other row. |
| `OutboxRows.CommitKeepsTableOk` | mes-backend/src/mq/OutboxDispatcher.cc:72-104 | Committing a batch keeps status and retry count consistent in every row. |
| `OutboxDispatcher.Dispatcher.MarkRow` | mes-backend/src/mq/OutboxDispatcher.cc:82-102 | A published row becomes sent with its count unchanged; another one has its count raised by one and is dead if that is 5, failed below. |
| `OutboxDispatcher.Dispatcher.Dispatch` | mes-backend/src/mq/OutboxDispatcher.cc:72-103 | The loop publishes the rows in order and marks each by its result; an exception part-way leaves a published prefix. |
| `OutboxDispatcher.Dispatcher.Tick` | mes-backend/src/mq/OutboxDispatcher.cc:47-108 | One tick: skipped while another runs or the lock is taken, committed, or rolled back after an exception, and the running flag is always reset; a committed batch has one attempt for each of its rows and leaves the others alone. |
| `OutboxRuns.EveryRunIsOk` | mes-backend/src/mq/OutboxDispatcher.cc:47-108 | The outbox invariant holds in every interleaving of ticks of any number of instances with enqueues, crashes and roll-backs. |
| `OutboxRuns.AtMostOneDispatches` | mes-backend/src/mq/OutboxDispatcher.cc:59-62 | At most one tick is dispatching. |
| `OutboxRuns.StatusesAgreeWithRetries` | mes-backend/src/mq/OutboxPolicy.hh:11-17 | Status 2 means 1 to 4 retries, status 3 exactly 5, in every committed row of every run. |
| `OutboxRuns.SettledIsForever` | mes-backend/src/mq/OutboxDispatcher.cc:65-70 | Rows sent or dead are never changed again. |
| `OutboxRuns.CopiesAreAccountedFor` | mes-backend/src/mq/OutboxDispatcher.cc:78-104 | Copies of a row at the broker = one if sent + one per rolled-back tick that had published it + those of the tick at work. |
| `OutboxRuns.SentRowsAreDelivered` | mes-backend/src/mq/OutboxDispatcher.cc:78-104 | A sent row has at least one copy and at most one plus the number of rolled-back ticks that published it. |
| `OutboxHistory.RetriesAreFailedPublishes` | mes-backend/src/mq/OutboxDispatcher.cc:82-104 | In every run the retry count of a row is the number of committed ticks that failed to publish it; it is dead exactly with five of them, failed with one to four and no committed publish, sent exactly if a committed tick published it, pending if no committed tick took it. |
| `OutboxHistory.EventKeepsHistory` | mes-backend/src/mq/OutboxDispatcher.cc:72-104 | Each event keeps that count. |
| `OutboxHistory.CommitMarksRow` | mes-backend/src/mq/OutboxDispatcher.cc:72-104 | A commit marks each row of its batch by its one answer and no other row. |
| `OutboxHistory.CommittedTickIsARun` | mes-backend/src/mq/OutboxDispatcher.cc:47-104 | A tick that commits is a run of the interleaved model that locks, selects, publishes and marks row by row, and commits. |
| `OutboxHistory.FailedTickIsARun` | mes-backend/src/mq/OutboxDispatcher.cc:72-107 | A tick that throws between a publish and its update is such a run that rolls back: the rows are as before, the copies are not. |
| `OutboxDrain.RowIsInTheBatch` | mes-backend/src/mq/OutboxDispatcher.cc:65-70 | Once the older blocks of fifty are settled, a pending row is in every selected batch. |
| `OutboxDrain.RowDrains` | mes-backend/src/mq/OutboxDispatcher.cc:65-102 | With distinct ages, a row with j older pending rows is sent or dead after 5 * (j / 50 + 1) committed ticks, whatever the broker answers and whatever is enqueued later. |
| `OutboxDrain.OutboxDrains` | mes-backend/src/mq/OutboxDispatcher.cc:65-102 | With k pending rows and none added, 5 * ceil(k / 50) committed ticks settle every row. |
| `OutboxDrain.EveryTickUsesAttempts` | mes-backend/src/mq/OutboxDispatcher.cc:65-102 | Marking a selected batch lowers the sum of 5 - retry_count over pending rows by at least its size, which is 50 or everything pending. |
| `OutboxDrain.EveryCommitUsesAttempts` | mes-backend/src/mq/OutboxDispatcher.cc:65-104 | In every run without new rows, each tick that commits does so, by its own batch: the rows it had selected are still those to select. |
| `OutboxDrain.RunKeepsSelection` | mes-backend/src/mq/OutboxDispatcher.cc:59-70 | While no row is added, the batch of a tick at work stays what the query would answer. |
| `ModbusFrames.ReplyRoundTrip` | mes-iot/src/modbus/ModbusClient.cc:133-203 | For every transaction, unit and list of up to 125 registers, the encoded reply followed by anything is decoded to the same list. |
| `ModbusFrames.AcceptsExactlyItsReplies` | mes-iot/src/modbus/ModbusClient.cc:141-203 | A non-exception stream is accepted exactly if it starts with a reply of matching transaction and unit, protocol 0, function 0x03 and the requested number of registers, and then yields those registers. |
| `ModbusFrames.AcceptedIsAReply` | mes-iot/src/modbus/ModbusClient.cc:141-203 | What was accepted can be rebuilt byte for byte from the registers returned. |
| `ModbusFrames.OkMeansRegisters` | mes-iot/src/modbus/ModbusClient.cc:172-179 | An Ok result carries the requested registers if and only if the stream is no exception reply. |
| `ModbusFrames.ExceptionCodeZeroReadsAsOk` | mes-iot/src/modbus/ModbusClient.cc:173-178 | The exception reply with code 0 reads as Ok with no registers. |
| `ModbusFrames.RequestRoundTrip` | mes-iot/src/modbus/ModbusClient.cc:112-123 | A slave reads back transaction, unit, start and quantity, and the header length counts the bytes behind it. |
| `ModbusFrames.RequestBytes` | mes-iot/src/modbus/ModbusClient.cc:112-123 | The request byte by byte, high byte first: transaction, protocol 0, length 6, unit, function 3, start, quantity. |
| `ModbusFrames.ReplyBytes` | mes-iot/src/modbus/ModbusClient.cc:133-200 | The reply byte by byte, its registers high byte first. |
| `ModbusFrames.IncompleteIsRefused` | mes-iot/src/modbus/ModbusClient.cc:133-170 | Too few bytes are a time-out and drop the connection; a wrong transaction, protocol, unit or length is refused with its own code and keeps it. |
| `ModbusFrames.ExceptionIsRead` | mes-iot/src/modbus/ModbusClient.cc:172-179 | Every exception reply is read as its code without registers, with the connection kept. |
| `ModbusFrames.ExceptionCodeIsRead` | mes-iot/src/modbus/ModbusClient.cc:172-179 | For every transaction, unit, function byte from 128 on, code and trailing bytes; Ok if and only if the code is 0. |
| `ModbusFrames.RegistersAreRead` | mes-iot/src/modbus/ModbusClient.cc:181-200 | Any other complete answer is accepted exactly with function 3, a fitting byte count and length, and then yields the words behind the count. |
| `ModbusFrames.PayloadRoundTrip` | mes-iot/src/modbus/ModbusClient.cc:196-200 | Register bytes read back as the registers, with or without an odd byte behind. |
| `ModbusFrames.RegistersRoundTrip` | mes-iot/src/modbus/ModbusClient.cc:196-200 | Registers read from bytes encode to the same bytes. |
| `ModbusClient.Client.constructor` | mes-iot/src/modbus/ModbusClient.cc:41-43 | Not connected, transaction 1 next. |
| `ModbusClient.Client.ExtractRegisters` | mes-iot/src/modbus/ModbusClient.cc:196-200 | The loop yields the big-endian words of the data. |
| `ModbusClient.Client.Receive` | mes-iot/src/modbus/ModbusClient.cc:133-203 | Result and connection are those of the parser, check by check. |
| `ModbusClient.Client.Encode` | mes-iot/src/modbus/ModbusClient.cc:112-123 | The bytes pushed form the request. |
| `ModbusClient.Client.ReadHoldingRegisters` | mes-iot/src/modbus/ModbusClient.cc:100-203 | Quantity and connection checks, one fresh transaction number with 16-bit wrap-around, and then request and parser; the connection is dropped exactly on send failures and time-outs. |
| `SensorFrames.OffsetInPiece` | mes-iot/src/collector/DevicePoller.cc:78-107 | Within a run of adjacent sensors each sensor sits where the widths before it add up, modulo 2^16. |
| `SensorFrames.GreedyStaysAhead` | mes-iot/src/collector/DevicePoller.cc:78-110 | The c-th cut of a maximal cutting is never before the c-th cut of any other. |
| `SensorFrames.GreedyIsOptimal` | mes-iot/src/collector/DevicePoller.cc:78-110 | No other cutting of the order into exactly adjacent runs of at most 125 registers has fewer frames. |
| `SensorFrames.MergedFramesAreFewest` | mes-iot/src/collector/DevicePoller.cc:60-115 | Merged frames are at most as many as the pieces of any cutting. |
| `DevicePoller.AddSensor` | mes-iot/src/collector/DevicePoller.cc:94-107 | One step of the loop keeps the saved frames full and the open one mergeable. |
| `DevicePoller.MergeFrames` | mes-iot/src/collector/DevicePoller.cc:60-115 | The loop returns the frames of a cutting of the order into adjacent runs of at most 125 registers, in which no frame could have taken the next sensor. |
| `DevicePoller.ExtendPiece` | mes-iot/src/collector/DevicePoller.cc:95-106 | The test of the code (next address equals 16-bit frame end, at most 125 registers) decides exactly whether the run stays mergeable. |
| `PollingRefinement.FramesPartitionTheSensors` | mes-iot/src/collector/DevicePoller.cc:60-115 | Joined, the frames are the sorted order; each asks for 1 to 125 registers, those of its sensors. |
| `SensorValues.SignedIsTwosComplement` | mes-iot/src/collector/DevicePoller.cc:125-133 | Signed values are the two's complement reading of the register bits. |
| `SensorValues.ExtractsOwnRegisters` | mes-iot/src/collector/DevicePoller.cc:117-146 | extractValue at an offset depends on the sensor's own one or two registers only, and is their decoding. |
| `SensorValues.DirectInNumbers` | mes-iot/src/collector/DevicePoller.cc:117-146 | The value of each data type in the numbers of the bank: register 40001 first, two registers high word first for 32-bit types, two's complement for signed ones, a plain word for unknown types. |
| `DevicePoller.FrameValues` | mes-iot/src/collector/DevicePoller.cc:200-225 | One message per sensor of the frame. |
| `DevicePoller.CoveredIs` | mes-iot/src/collector/DevicePoller.cc:200-212 | The first sensor whose registers lie past the end of the reply ends what is published. |
| `DevicePoller.PublishFrame` | mes-iot/src/collector/DevicePoller.cc:200-225 | The inner loop publishes for each sensor the value at the sum of the widths before it, up to the first sensor whose registers the reply lacks; complete exactly if the reply holds all registers. |
| `DevicePoller.PollOnce` | mes-iot/src/collector/DevicePoller.cc:184-226 | A round publishes all frames before the first one not read; it ends with all read, at a reply that is not Ok, or at one taken for Ok whose registers are missing. |
| `PollingRefinement.PieceIsContiguous` | mes-iot/src/collector/DevicePoller.cc:78-107 | With addresses in range and ascending, a run never wraps around the register bank. |
| `PollingRefinement.FramesCover` | mes-iot/src/collector/DevicePoller.cc:60-115 | Every merged frame lies within the bank and reads exactly the registers of its sensors. |
| `PollingRefinement.FramesAreDirect` | mes-iot/src/collector/DevicePoller.cc:188-226 | Frame after frame, batched reading publishes the directly read values. |
| `PollingRefinement.OneValuePerSensor` | mes-iot/src/collector/DevicePoller.cc:60-226 | An error-free round publishes, as a multiset, exactly one message per configured sensor, each equal to decoding that sensor's own registers read alone. |
| `PollingRefinement.FrameReadOverTheWire` | mes-iot/src/modbus/ModbusClient.cc:100-203 | The client decodes a slave's answer to its own request as the registers the bank holds. |
| `PollingRefinement.TooShortMeansException` | mes-iot/src/modbus/ModbusClient.cc:172-179 | An Ok reply lacks registers exactly if the answer was an exception, and then has none. |
| `PollingRefinement.RefusedFrameIsUnreadable` | mes-iot/src/collector/DevicePoller.cc:188-198 | A frame outside the bank is read as exception 2, a bad quantity as 3; neither counts as read, so the round ends there. |
| `PollingRefinement.PollingOverTheWire` | mes-iot/src/collector/DevicePoller.cc:60-226 | The same refinement through merging, request bytes, slave, reply bytes, decoding and slicing. |
| `AlertRules.LevelsGradeTheValue` | mes-backend/src/mq/DataIngestHandler.cc:216-235 | With nested limits, an alert is raised exactly outside the inner ones and has level 3 exactly beyond the outer ones. |
| `AlertRules.FirstCrossedLimitCounts` | mes-backend/src/mq/DataIngestHandler.cc:216-235 | Whichever limits are set, the first one crossed in the order very high, high, very low, low gives side, level and threshold; a value on a limit has crossed it. |
| `AlertRules.AlertFromTheSnapshot` | mes-backend/src/mq/DataIngestHandler.cc:208-240 | A reading has an alert exactly if it is a number, the snapshot has limits under device * 1000000 + sensor, and one of them is crossed. |
| `AlertRules.AlertOf` | mes-backend/src/mq/DataIngestHandler.cc:208-240 | An alert concerns the sensor of its reading and has level 2 or 3. |
| `AlertRules.KeysAgree` | mes-backend/src/mq/DataIngestHandler.cc:238-240 | Suppression keys agree exactly if side, level and sensor key do. |
| `AlertRules.KeysAreDistinct` | mes-backend/src/mq/DataIngestHandler.cc:66-68 | For sensor ids below a million, keys agree exactly if the alerts do. |
| `AlertRules.IdsBelowAMillionAreSeparate` | mes-backend/src/mq/DataIngestHandler.cc:66-68 | Such ids keep the sensors of a run apart. |
| `AlertRules.TableHoldsLatest` | mes-backend/src/mq/DataIngestHandler.cc:242-245 | The suppression table holds for each key the time at which it was last noted, published or not. |
| `AlertRules.PublishedIffNoneNotedWithin` | mes-backend/src/mq/DataIngestHandler.cc:237-264 | An alert is published if and only if the broker takes it and none was noted under its key in the 30 s before. |
| `AlertRules.NotesAreSpaced` | mes-backend/src/mq/DataIngestHandler.cc:242-245 | Alerts noted under one key are at least 30 s apart. |
| `AlertRules.AlertsAreSpaced` | mes-backend/src/mq/DataIngestHandler.cc:237-245 | In every run, two published alerts of the same device, sensor, side and level are at least 30 s apart. |
| `AlertRules.PublishesExactlyWhatIsDue` | mes-backend/src/mq/DataIngestHandler.cc:208-265 | While sensor keys tell the sensors apart, an alert is published if and only if it was not published within the 30 s before, the broker takes it, and it was not noted and lost within those 30 s. |
| `AlertRules.RuleHoldsIffNothingLost` | mes-backend/src/mq/DataIngestHandler.cc:245-264 | Where the broker takes it, published is the same as due if and only if the same alert was not lost within the 30 s before. |
| `AlertRules.AfterLossItIsDue` | mes-backend/src/mq/DataIngestHandler.cc:245-264 | An alert whose like was lost within the 30 s before is due. |
| `AlertRules.RedeliveredAlertIsSuppressed` | mes-backend/src/mq/DataIngestHandler.cc:245-264 | For every sensor: a publish that fails and a redelivery within 30 s leave a due alert unpublished. |
| `AlertRules.SharedKeySwallowsAlert` | mes-backend/src/mq/DataIngestHandler.cc:66-68 | For every two sensors with one key there is a run in which the second loses a due alert; sensor 1000000 of device 0 and sensor 0 of device 1 are such a pair. |
| `IngestMessages.RetryCount` | mes-backend/src/mq/DataIngestHandler.cc:175-183 | The count is a 32-bit integer: the header where it fits, zero without it. |
| `IngestMessages.Int32Wraps` | mes-backend/src/mq/DataIngestHandler.cc:182 | A header outside 32 bits wraps around. |
| `IngestMessages.InvalidMessagesTerminate` | mes-backend/src/mq/DataIngestHandler.cc:187-205 | An invalid message with r retries is republished max(0, 3 - r) times with the same body and counts r + 1 to 3, and dead-lettered at exactly the last handling. |
| `IngestMessages.FreshMessageIsRetriedThreeTimes` | mes-backend/src/mq/DataIngestHandler.cc:187-205 | A fresh one is handled four times, with counts 0, 1, 2, 3. |
| `IngestMessages.RowsAreControlled` | mes-backend/src/mq/DataIngestHandler.cc:165-173 | Rows have a controlled time stamp and text cut at 256 characters. |
| `IngestMessages.RowIsTheSample` | mes-backend/src/mq/DataIngestHandler.cc:359-396 | A delivery becomes a row if and only if it parsed and its time stamp has 19 to 32 characters out of digits and -T:.Z; the row then has every field of the sample, of a text the first 256 characters. |
| `IngestQueues.RegisteredMany` | mes-backend/src/mq/DataIngestHandler.cc:299-354 | Registering the next n deliveries of a batch removes exactly them from it. |
| `DataIngestHandler.Consumer.constructor` | mes-backend/src/mq/DataIngestHandler.cc:409-415 | Everything empty. |
| `DataIngestHandler.Consumer.DrainAcks` | mes-backend/src/mq/DataIngestHandler.cc:427-441 | The swapped-out queue is answered entry by entry, in order. |
| `DataIngestHandler.Consumer.HandleInvalid` | mes-backend/src/mq/DataIngestHandler.cc:187-205 | Republish with the count raised and ack, or reject without requeueing. |
| `DataIngestHandler.Consumer.CheckThreshold` | mes-backend/src/mq/DataIngestHandler.cc:208-265 | The key is noted before the publish; the table and the alerts published follow the alert rules, and a publish that throws is reported. |
| `DataIngestHandler.Consumer.HandleMessage` | mes-backend/src/mq/DataIngestHandler.cc:359-397 | An invalid delivery is settled at once; a valid one is checked and buffered, its sample field by field together with its tag, unless the publish of its alert throws: then it is neither buffered nor settled. Alerts name the device and sensor of the sample. |
| `DataIngestHandler.Consumer.FlushBatch` | mes-backend/src/mq/DataIngestHandler.cc:268-358 | The buffer becomes one batch and is emptied. |
| `DataIngestHandler.Consumer.Round` | mes-backend/src/mq/DataIngestHandler.cc:417-453 | One loop round: drain, receive, flush when full or idle; cut short exactly if the publish of an alert throws. |
| `DataIngestHandler.Consumer.OnInserted` | mes-backend/src/mq/DataIngestHandler.cc:299-301 | All deliveries of the batch are registered for an ack, in order. |
| `DataIngestHandler.Consumer.OnFailed` | mes-backend/src/mq/DataIngestHandler.cc:348-354 | All deliveries of the batch are registered for requeueing, in order. |
| `DataIngestHandler.Consumer.RegisterAll` | mes-backend/src/mq/DataIngestHandler.cc:300-301 | The loop of either callback. |
| `IngestRuns.ApplyKeepsTag` | mes-backend/src/mq/DataIngestHandler.cc:417-453 | Each step of consumer or callback keeps every delivery in exactly one of buffer, batch, ack queue and settled, with its row stored exactly if that place says so. |
| `IngestRuns.ApplyKeepsPlaced` | mes-backend/src/mq/DataIngestHandler.cc:268-397 | Each step keeps rows aligned with delivery tags and verdicts with messages. |
| `IngestRuns.EveryRunIsOk` | mes-backend/src/mq/DataIngestHandler.cc:417-453 | Both hold in every interleaving, with at most 500 buffered rows, fewer outside the flush check. |
| `IngestRuns.FlushedWhenFullOrIdle` | mes-backend/src/mq/DataIngestHandler.cc:447-453 | In every run the flush check hands over the whole buffer as one batch exactly if it holds 500 rows, or is not empty, the window has elapsed and nothing arrived; otherwise it keeps all. |
| `IngestSettlement.SettledAtMostOnce` | mes-backend/src/mq/DataIngestHandler.cc:427-441 | No delivery is answered twice. |
| `IngestSettlement.SettledIsElsewhereNoMore` | mes-backend/src/mq/DataIngestHandler.cc:427-441 | An answered delivery is in no buffer, batch or queue. |
| `IngestSettlement.SettlementIsFinal` | mes-backend/src/mq/DataIngestHandler.cc:427-441 | Answers are never taken back. |
| `IngestSettlement.AckedMeansStored` | mes-backend/src/mq/DataIngestHandler.cc:299-301 | An acked delivery was valid and the table holds its sample, field by field, exactly once. |
| `IngestSettlement.StoredRowsAreSamples` | mes-backend/src/mq/DataIngestHandler.cc:268-301 | Every row of the table is the sample of a valid delivery. |
| `IngestSettlement.OtherwiseNotStored` | mes-backend/src/mq/DataIngestHandler.cc:348-354 | A delivery requeued, republished or dead-lettered has no row in the table. |
| `IngestSettlement.StoredAtMostOnce` | mes-backend/src/mq/DataIngestHandler.cc:268-301 | No delivery is stored twice. |
| `IngestSettlement.QuietMeansSettled` | mes-backend/src/mq/DataIngestHandler.cc:417-453 | When nothing is under way every delivery has its answer, an ack exactly if it is stored. |
| `IngestSettlement.VerdictFollowsTheMessage` | mes-backend/src/mq/DataIngestHandler.cc:187-205 | Valid messages are acked or requeued; dead-lettered are exactly the invalid ones with no retry left. |
| `SingleFlight.LatestLoad` | mes-backend/src/services/RbacService.cc:113-126 | The load found is one of the user's. |
| `SingleFlight.CalledMany` | mes-backend/src/services/RbacService.cc:56-61 | Calling n waiters removes exactly them from the delivery. |
| `RbacService.Permissions.constructor` | mes-backend/src/services/RbacService.cc:40-42 | Nobody waits. |
| `RbacService.Permissions.LoadFromDb` | mes-backend/src/services/RbacService.cc:113-126 | The first waiter of a slot adds one running query, the others add none; the request is appended to the slot. |
| `RbacService.Permissions.DoLoadFromDb` | mes-backend/src/services/RbacService.cc:65-111 | The claimed load is handed to the database. |
| `RbacService.Permissions.OnAnswer` | mes-backend/src/services/RbacService.cc:73-109 | The answer goes to every waiter of the slot, in order. |
| `RbacService.Permissions.ForwardResult` | mes-backend/src/services/RbacService.cc:44-62 | The slot is removed before its waiters are called with the outcome. |
| `RbacService.Permissions.CallWaiters` | mes-backend/src/services/RbacService.cc:56-61 | The loop calls each waiter once. |
| `FlightRuns.EveryRunIsMatched` | mes-backend/src/services/RbacService.cc:44-126 | Slots, loads, deliveries and calls match in every interleaving. |
| `FlightRuns.OneLoadPerUser` | mes-backend/src/services/RbacService.cc:113-126 | At most one query per user is unfinished. |
| `FlightRuns.SlotExactlyWhilePending` | mes-backend/src/services/RbacService.cc:44-126 | A user has a slot exactly while a query of theirs is unfinished, and then somebody waits in it. |
| `FlightRuns.EveryRequestIsInOnePlace` | mes-backend/src/services/RbacService.cc:44-62 | Each registered callback pair is in exactly one place: waiting, about to be called, called. |
| `FlightRuns.CalledAtMostOnce` | mes-backend/src/services/RbacService.cc:56-61 | No callback pair is called twice. |
| `FlightRuns.QuietMeansAllCalled` | mes-backend/src/services/RbacService.cc:44-62 | When all loads are finished and deliveries made, every pair has been called once. |
| `FlightRuns.LoadRunsToItsEnd` | mes-backend/src/services/RbacService.cc:44-111 | A claimed query can always be issued, answered and taken; then the slot is gone and exactly its waiters, in their order, are due for the outcome. |
| `FlightRuns.NextWaiterIsCalled` | mes-backend/src/services/RbacService.cc:56-61 | A delivery under way can always call its first waiter, with the outcome of its load. |
| `FlightRuns.JoinedLoadIsPending` | mes-backend/src/services/RbacService.cc:113-126 | The load joined is the user's and unfinished at registration; a new one exactly for the leader. |
| `FlightRuns.CallAnswersAPendingLoad` | mes-backend/src/services/RbacService.cc:44-126 | Every call carries the outcome of a load of that user that was still unfinished when the callback registered. |
| `FlightRuns.HistoryStays` | mes-backend/src/services/RbacService.cc:44-126 | Requests and finished loads never change. |
| `VerifyCache.LastBarSeparates` | mes-backend/src/services/AuthService.cc:204-205 | Behind the last bar the parts of a key are unambiguous. |
| `VerifyCache.KeyDeterminesCredentials` | mes-backend/src/services/AuthService.cc:204-205 | With collision-free digests and no bar in hashes, equal keys mean equal password and equal stored hash, whatever user names and addresses contain. |
| `VerifyCache.BarInHashConfusesKeys` | mes-backend/src/services/AuthService.cc:204-205 | With a bar in a stored hash, any two passwords can share a key. |
| `VerifyCache.NeverAboveCapacity` | mes-backend/src/services/AuthService.cc:45-51 | In every run at most 10000 entries. |
| `VerifyCache.StepStaysWithinCapacity` | mes-backend/src/services/AuthService.cc:45-51 | No lookup or store exceeds them. |
| `VerifyCache.EntriesHaveASource` | mes-backend/src/services/AuthService.cc:33-51 | Each entry stems from a successful check of its key and expires 60 s after it. |
| `VerifyCache.HitsAreTransparent` | mes-backend/src/services/AuthService.cc:200-220 | In every run of interleaved logins, a hit implies that the uncached check would succeed, and that the same password was checked against the same hash at most 60 s before. |
| `VerifyCache.HitMeansVerified` | mes-backend/src/services/AuthService.cc:207-210 | The same for any cache all of whose keys stem from successful checks. |
| `VerifyCache.RecentSuccessIsHit` | mes-backend/src/services/AuthService.cc:33-51 | A credential whose check succeeded is hit for 60 s, the last instant included, unless the cache has filled up meanwhile. |
| `VerifyCache.KeyDeterminesTheAttempt` | mes-backend/src/services/AuthService.cc:204-205 | For addresses and hashes without a bar, keys agree exactly if user, address, password and hash do. |
| `AuthService.Verifier.constructor` | mes-backend/src/services/AuthService.cc:28-29 | An empty cache. |
| `AuthService.Verifier.CacheGet` | mes-backend/src/services/AuthService.cc:33-43 | Hit exactly if present and not expired; an expired entry is erased. |
| `AuthService.Verifier.CachePut` | mes-backend/src/services/AuthService.cc:45-51 | A full cache is cleared first; the entry lives 60 s. |
| `AuthService.Verifier.CheckPassword` | mes-backend/src/services/AuthService.cc:200-221 | With or without a hit, the answer is that of the uncached check, and the cache stays sound. |
| `Base64.Base64Encode` | mes-backend/src/utils/Captcha.hh:42-72 | The loop computes the encoding; the decoder of section 4 of RFC 4648 gives back the input, and the length is 4 * ceil(n / 3). |
| `Base64.DecodingUndoesEncoding` | mes-backend/src/utils/Captcha.hh:42-72 | Round trip for every byte string, padding included. |
| `Base64.LengthIsFourThirds` | mes-backend/src/utils/Captcha.hh:44-45 | Length of the output. |
| `Base64.SymbolsAreRead` | mes-backend/src/utils/Captcha.hh:48-54 | Four symbols of any 24-bit group are read back as its three bytes. |
| `Base64.AlphabetByCodePoints` | mes-backend/src/utils/Captcha.hh:43 | The alphabet by code points: A to Z, a to z, digits, plus, slash. |
| `Captcha.ConstTimeEq` | mes-backend/src/utils/Captcha.hh:88-95 | The accumulated difference is zero exactly for equal strings. |
| `UrlEncoding.UrlEncode` | mes-backend/src/services/IntegrationService.cc:39-53 | The result is the encoding; a decoder after section 2.1 of RFC 3986 gives back the input, and the output holds unreserved characters and %XX triples only. |
| `UrlEncoding.EncodeAll` | mes-backend/src/services/IntegrationService.cc:43-51 | The loop computes the encoding. |
| `UrlEncoding.UnreservedAreTheseCharacters` | mes-backend/src/services/IntegrationService.cc:44 | Letters, digits, hyphen, underscore, dot and tilde are kept, no other byte is. |
| `UrlEncoding.OnlyReservedGrow` | mes-backend/src/services/IntegrationService.cc:43-51 | Exactly the reserved bytes are escaped, with three characters each. |
| `UrlEncoding.DecodingUndoesEncoding` | mes-backend/src/services/IntegrationService.cc:39-53 | Round trip for every byte string. |
| `UrlEncoding.OutputIsWellFormed` | mes-backend/src/services/IntegrationService.cc:39-53 | Only unreserved characters and triples of % and two upper-case digits. |
| `UrlEncoding.EncodingIsInjective` | mes-backend/src/services/IntegrationService.cc:39-53 | Different parameters are encoded differently. |

## Left out

- HTTP controllers, token signing, bcrypt, SHA-256, random codes, SVG rendering, JSON parsing and schema checks, Redis and AMQP clients, sockets and thread scheduling: they appear as parameters or outcomes, or not at all.
- Numbers: conversion of integers and of 32-bit float patterns to double, and multiplication by the scale factor, are uninterpreted; thresholds are compared over the reals.
- CRUD, listing, pagination, statistics, ERP order synchronisation and conversion: thin SQL with easy members only.
- Priorities, lines, remarks, timestamps and work-order numbers of orders: no modelled rule reads them. Log and inventory rows are modelled without their texts, times and material.
- canTransition, statusName, mergeDataScope and the scope cache: easy members only.
- Liveness beyond the outbox: that the consumer, the poller or the peers go on running is not claimed; of the poller one round is modelled, without reconnecting and back-off.
- Ingest across a reconnect: the buffer then keeps delivery tags of the old channel (mes-backend/src/mq/DataIngestHandler.cc:454-459), so settlement is claimed within one channel lifetime.
- The Redis side of permission loading, including its path that drops the success callback (mes-backend/src/services/RbacService.cc:147-150): the claims start at loadFromDb.
- StopCollectionHandler, CmdConsumer, device pausing and the realtime leader lease: their claims do not hold or need timing assumptions.
- ExternalCalls.CallExternal: other callers do not use the breaker between two attempts of one modelled call; the theorems of Breakers cover every interleaving of the breaker's own methods.
- DevicePoller.PollOnce: nothing is said of what the program does once it has read past the end of a reply, which C++ leaves undefined.
- SensorFrames.GreedyIsOptimal: speaks of cuttings of one ascending order, the one that sorting produced.
- IntegrationService.Integration.ReportCompletionSaga: runs uninterrupted; interleaving is the subject of PlantRuns, and StepsMakeTheNetEffect connects the two.
- IngestMessages.InvalidMessagesTerminate: takes it that the retry queue hands back what it was sent; a retry header that is no integer would end the channel's lifetime.
