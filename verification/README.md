# Order ledger and trading protocols: a Dafny model

This project models how the trading platform turns signals and testnet submissions into stored
orders, and the protocols around that: the order state machine with its numbered transition log,
the emergency stop, the risk check, the testnet order window, exchange events that arrive late,
twice or out of order, the position book, the fixed-window rate limiter, position reconciliation
and its repair proposals, the bounded user-stream consumer, multi-factor login and the account
snapshots pushed by the exchanges.

## How it is laid out

| file | content |
|---|---|
| `Common.dfy`, `Text.dfy` | small types, sequence facts, the ASCII part of the string operations |
| `OrderStateMachine.dfy` | statuses, transition graph, the transition log, and a session that flushes, commits and rolls back |
| `OrderLifecycle.dfy`, `Redelivery.dfy` | stream and REST events applied to stored rows, and exactly when their order cannot matter |
| `Ledger.dfy` | the durable state between two calls, and what each service call makes of it |
| `LedgerService.dfy` | the same services as methods that update fields in place, each proved equal to its `Ledger` function |
| `LedgerInvariants.dfy`, `Positions.dfy`, `Interlocks.dfy`, `Symbols.dfy` | what holds over every run of calls |
| `Outcomes.dfy`, `Isolation.dfy` | what each call answers and leaves behind, in terms of rows and request alone, and whose rows it may touch |
| `RateLimit.dfy`, `RateLimitRedis.dfy`, `Admission.dfy` | the two window stores, the multi-rule acquire on each, the sliding bound, the refinement, and who is let through |
| `Reconciliation.dfy`, `Repair.dfy` | the three-way comparison and the convergence of its proposals |
| `StreamConsumer.dfy` | the reconnecting receive loop |
| `Mfa.dfy` | one-time codes (section 5.2 of RFC 6238), recovery codes and token revocation |
| `AccountSync.dfy`, `SyncedValues.dfy` | balance and position snapshots, and the worth of what is stored |

A run is a list of whole service calls from the empty database; each call reads the rows the one
before it committed. Rows refer to each other by their position in their table. Decimals are reals,
except in `AccountSync`, where they are exact integers in units of 10^-10 and the 28-digit rounding
of a sum is modelled. Clocks, transports, code generators and hashes are arguments, so every
theorem holds for all of them.

## What the proofs found

- A transition on a row that has not been flushed yet raises only after the new status was assigned:
  `Misuse` lists this and the two other uses that leave a log that does not replay, and
  `ReplayKeptExactlyWithoutMisuse` proves that there is no fourth.
- REJECTED is not allowed after PARTIALLY_FILLED, so an execution that sees both statuses ends
  differently depending on which comes first. `OrderIndependentIffCompatible` gives the exact
  condition under which the order of delivery cannot matter.
- An event that carries only the exchange order id finds its row only after an event with both ids has
  moved it. If it comes earlier it is dropped, and unless the same word comes again the row stays
  ACCEPTED although FILLED was delivered (`LateWordIsLost`). `RowOrderIndependentIff` says exactly when
  order matters to a stored row, for any events.
- The risk flag can be switched on only while its account is in SIMULATION, and an approval is
  recorded only with the flag off. So every testnet order comes after an excursion of its account
  out of TESTNET between the approval and the order (`OrderFollowsApproval`).
- If the EXPIRE after a first INCR is lost, the Redis counter never resets and its key is refused for
  good once past the limit (`WithoutExpiryNeverResets`). From any point on, the two stores go on
  agreeing exactly if the next acquire does not open a counter and lose its EXPIRE
  (`AgreementNeedsExpire`).
- A Binance total is a sum rounded to 28 digits. It can fall short of its two parts and it can reach
  2 * 10^18 although both parts are below 10^18 (`BinanceTotalCanFallShort`,
  `BinanceTotalReachesBound`); `BinanceTotalCoversIff` and `BinanceTotalBelowBoundIff` say exactly when.
  Both need a total of at least 10^18, which the NUMERIC(28, 10) column
  cannot hold; every smaller total covers its parts.
- One repair round is not always enough: exactly when some symbol has both its exchange quantity off
  target and its database quantity out of tolerance (`OneRoundMatchesIff`). Two always are.
- An execution's symbol is upper-cased but not stripped, while the approval is compared with the stripped
  one. The two are the same exactly if the request needs no stripping (`StoredSymbolIsApprovedIff`). An
  order for " BTC" passes a window for BTC, and then the blocked list, which is compared with the
  unstripped symbol, misses BTC (`BlankPassesBlockedSymbol`). A symbol can slip past its blocked form
  exactly if it is not stripped (`SlipsPastIffUnstripped`).
- Retry-After from Redis is the server's TTL. If the server rounds that down, the wait of every rule with
  a window longer than a second can be too short (`TtlRoundingSufficesIff`).
- The 1025th reconnect delay raises instead of being slept, because 2 ** 1024 does not fit a float; the
  reconnect budget is not checked against that (`GivesUp`).
- A recovery code that is all digits once its dashes are dropped is refused if it is typed without them: it
  is taken for a one-time code. `RecoveryPassesIff` carries exactly that exception.
- A transport whose opening raises anything but a RuntimeError is never closed: the exception leaves
  `consume` before the close. `Accounted` says so; every other transport is closed exactly once.

## Model

| member | source | states |
|---|---|---|
| `OrderStateMachine.AllowedEdgesClimb` | backend/app/services/order_state_machine.py:20-64 | every edge of the transition table climbs in rank except the PARTIALLY_FILLED self-loop, and none leaves a terminal status |
| `OrderStateMachine.AllowedByTarget` | backend/app/services/order_state_machine.py:20-64 | the table read by target: from which statuses each one can be reached, and no other edge |
| `OrderStateMachine.NumberedLogMaximum` | backend/app/services/order_state_machine.py:137-152 | a log numbered 1..n has maximum n, so max + 1 continues it without a gap |
| `OrderStateMachine.NextNumberIsNextSequence` | backend/app/services/order_state_machine.py:137-152 | the number computed from persisted and unsent rows separately is the next number of the whole log |
| `OrderStateMachine.MoveAdvances` | backend/app/services/order_state_machine.py:88-134 | an allowed transition of a row with an id succeeds, changes that row's status only, and appends exactly one log row |
| `OrderStateMachine.CreationInserts` | backend/app/services/order_state_machine.py:71-85 | add, flush and the initial entry together store one row whose log is None -> CREATED, number 1 |
| `OrderStateMachine.ReplayKeptExactlyWithoutMisuse` | backend/app/services/order_state_machine.py:71-152 | from any good session a call keeps "every log replays to its row, durable rows included" if and only if it is not one of three misuses; this covers calls that raise, flush, commit and rollback |
| `OrderStateMachine.LogReplaysOnEveryRun` | backend/app/services/order_state_machine.py:71-152 | log replay (numbered 1..n, starts None -> CREATED, linked, allowed edges only, ends at the row's status) under every interleaving of adds, transitions, flushes, commits and rollbacks |
| `OrderStateMachine.CreationIsDisciplined` | backend/app/services/testnet_order_persistence.py:98-150 | add, flush, initial entry, transition is free of misuse from any good session |
| `OrderStateMachine.ClimbingLogIsShort` | backend/app/services/order_state_machine.py:20-64 | entry i of a climbing log has rank at least i and at most 5, so such a log has at most six entries |
| `OrderStateMachine.OrderSession.MaxNumber` | backend/app/services/order_state_machine.py:137-152 | the loop over log rows finds the largest number of the execution, 0 if there is none |
| `OrderStateMachine.OrderSession.AddTransitionRow` | backend/app/services/order_state_machine.py:113-134 | refuses a row without an id, otherwise leaves one pending row with the next number |
| `OrderStateMachine.OrderSession.RecordInitialState` | backend/app/services/order_state_machine.py:71-85 | the whole new session state, and that only a CREATED row with an id is accepted |
| `OrderStateMachine.OrderSession.TransitionExecution` | backend/app/services/order_state_machine.py:88-110 | the whole new session state, also when it raises after assigning the status; on a saved row an allowed move is one advance of the ledger |
| `OrderStateMachine.SessionCallSucceedsIff` | backend/app/services/order_state_machine.py:71-134 | exactly when a call succeeds, and that one that fails leaves everything as it was but for the status assigned to a row without an id |
| `OrderStateMachine.OnlyCommitIsDurable` | backend/app/services/order_state_machine.py:71-134 | only a commit changes what is durable, and it makes exactly what is visible durable; a flush changes nothing visible |
| `OrderStateMachine.RollbackRestores` | backend/app/services/order_state_machine.py:71-134 | after any calls without a commit, a rollback returns rows and log to the last commit |
| `OrderLifecycle.FindExecution` | backend/app/services/testnet_order_lifecycle.py:122-140 | returns a row of this user, account and exchange that carries either identifier, and nothing only if no row does; `Isolation.EventStaysHome` says so without its predicate |
| `OrderLifecycle.Apply` | backend/app/services/testnet_order_lifecycle.py:69-120 | the live session after one event: unknown, duplicate and stale events change nothing, any other moves exactly the found row, names it only if it had no exchange id, and is committed; `Isolation.EventStaysHome` and `Isolation.ReconcileOutcome` say which rows that can be |
| `OrderLifecycle.CompatibleReachesHighest` | backend/app/services/testnet_order_lifecycle.py:87-109 | a compatible list of statuses ends in the highest-ranked status among the start and the list |
| `OrderLifecycle.DeliveryOrderIrrelevant` | backend/app/services/testnet_order_lifecycle.py:87-109 | two lists with the same members, whatever their order and duplication, end in the same, highest status |
| `OrderLifecycle.OrderIndependentIffCompatible` | backend/app/services/testnet_order_lifecycle.py:87-109 | for a row waiting on the exchange, every reordering ends the same if and only if at most one terminal status counts and REJECTED does not come with PARTIALLY_FILLED |
| `OrderLifecycle.IncompatibleDependsOnOrder` | backend/app/services/testnet_order_lifecycle.py:87-109 | the other direction: an incompatible list has a reordering that ends differently |
| `OrderLifecycle.OkxOrderMattersIff` | backend/app/services/testnet_order_lifecycle.py:219-282 | with the statuses OKX reports, order matters only if an order is reported both filled and cancelled, and then it does |
| `OrderLifecycle.MappedIffWorded` | backend/app/services/testnet_order_lifecycle.py:172-282 | the three status tables read by status: a word is read as a status if and only if it is listed there for it, and every other word is refused |
| `Redelivery.DeliveredFollows` | backend/app/services/testnet_order_lifecycle.py:69-140 | delivering any events at all moves a stored row's status, and gives it a name, exactly as the fold over the events that can find it says: by client order id always, by exchange order id only once the row has it |
| `Redelivery.RedeliveryConverges` | backend/app/services/testnet_order_lifecycle.py:69-140 | whichever of the two ids its events carry, a stored row ends in the same, highest status for any two deliveries of the same words in any order and multiplicity, under the condition of the next row |
| `Redelivery.RowOrderIndependentIff` | backend/app/services/testnet_order_lifecycle.py:69-140 | for a waiting row and any events at all, of which those with the client order id bring no second exchange id: their order cannot matter if and only if, for a row whose exchange id is stored, all their statuses are compatible, and for any other row those that came by client order id are and no status that came by exchange order id only diverts the row from the end of those, right after an event with both ids has moved it |
| `Redelivery.CompatibleWordsDivertByRank` | backend/app/services/testnet_order_lifecycle.py:87-109 | among compatible statuses, late ones divert a row only by outranking: if none ranks above where the client order id events lead, order cannot matter |
| `Redelivery.LateWordIsLost` | backend/app/services/testnet_order_lifecycle.py:122-140 | a concrete pair of events that ends ACCEPTED in one order and FILLED in the other, because the first event could not find the row yet |
| `Ledger.CalculateDelta` | backend/app/services/position_engine.py:46-64 | moving the position by the signed delta lands exactly on the target, and there is no side exactly when it is there already |
| `Ledger.CheckOrderRisk` | backend/app/services/risk_engine.py:80-105 | no reason is given if and only if mode, both flags, symbol, quantity bounds and notional bound all allow the order, a missing or zero price counting as 1 |
| `Ledger.ApprovalReasons` | backend/app/services/testnet_order_window_approval.py:198-234 | nothing blocks an approval if and only if the role is an admin's, the account is an active TESTNET account with an API key, every switch is off, and the window is 1 to 10 minutes |
| `Ledger.LatestApproval` | backend/app/services/testnet_order_window_approval.py:133-155 | the newest entry of this user and account, and none only if there is none |
| `Ledger.GateReasons` | backend/app/services/testnet_order_gate.py:23-50 | the gate approves if and only if exchange, mode, adapters, both flags, API key and confirmation are all in order |
| `Ledger.WindowReasons` | backend/app/services/testnet_order_window_approval.py:133-195 | the window authorises the order if and only if the latest approval covers its symbol, side, quantity and notional and is not expired |
| `LedgerInvariants.StepKeeps` | backend/app/services/order_engine.py:34-159 | every call of the ledger keeps the invariant (logs replay and climb, ids late, keys unique, rows settled and referring properly) and only evolves rows: fixed content, rank never falls, terminal rows and set ids never change |
| `LedgerInvariants.ReachableInv` | backend/app/services/order_engine.py:34-159 | that invariant holds in every state of every run |
| `LedgerInvariants.ReachableHistories` | backend/app/services/order_state_machine.py:71-152 | on every run each log replays, its ranks strictly increase, so it has at most 6 entries and no repeated status, and a row below ACCEPTED has no exchange id |
| `LedgerInvariants.RowsOverRuns` | backend/app/services/testnet_order_persistence.py:161-207 | over any part of a run an exchange id is written once, a terminal row never changes again, and a log only grows at its end |
| `LedgerInvariants.ReachableKeysUnique` | backend/app/services/order_engine.py:45-52 | on every run a client order id names one execution, and so does a (signal, account) pair |
| `LedgerInvariants.ExecuteSignalOrders` | backend/app/services/order_engine.py:34-159 | the engine adds one row with keys no stored row has, for exactly this signal, account and user, or leaves all orders alone |
| `LedgerInvariants.SubmitShape` | backend/app/services/testnet_order_api.py:38-111 | a submission that adds a row found the stop off, the gate open and an approval that covers it; it adds one signal and one row with a new client order id, and otherwise changes neither |
| `Positions.ResolvedMoves` | backend/app/services/order_engine.py:188-209 | the resolved side and quantity make of the position exactly what the signal means: its target, or its own signed quantity added; the quantity of a target order is zero exactly when the position is there already, and no stored quantity changes; the row that side and quantity become is in `Outcomes.QuantitySignalOutcome` and `Outcomes.TargetSignalOutcome` |
| `Positions.PlacedOrder` | backend/app/services/order_engine.py:83-159 | an order either fails its row and moves nothing, or fills it under the mock id and moves exactly one position by the signed quantity |
| `Positions.StepStaysConserved` | backend/app/services/position_engine.py:67-88 | every call keeps the conservation law of an account in SIMULATION |
| `Positions.PositionsConserved` | backend/app/services/position_engine.py:46-88 | over every run of an account that stays in SIMULATION each position is the sum of the signed quantities of its FILLED executions, and the fold over the filled signals in which a target sets and a quantity adds the signal's own signed amount |
| `Interlocks.AccountSwitchedOn` | backend/app/services/exchange_accounts.py:37-53 | the account flag goes from off to on only in the owner's own update that asks for it |
| `Interlocks.RiskSwitchedOn` | backend/app/api/v1/risk_settings.py:35-60 | the risk flag goes from off to on only in the owner's own patch, with the account in SIMULATION |
| `Interlocks.NoExecutionWhileStopped` | backend/app/services/emergency_stop.py:38-41 | over any part of a run during which the stop stays on, no execution is created; `Outcomes.NothingCreatedAfterStop` says the same from the call that activates it |
| `Interlocks.PassingNeedsBothFlags` | backend/app/services/risk_engine.py:80-105 | in any call, a row newly reaching RISK_PASSED belongs to an account whose two flags were on when the call began |
| `Interlocks.StopForcesBothSwitches` | backend/app/services/emergency_stop.py:44-98 | after an activation, a row of an account that existed then reaches RISK_PASSED only after both its flags were switched on again since that activation |
| `Interlocks.ApprovalWasRecorded` | backend/app/services/testnet_order_window_approval.py:50-130 | every stored approval was recorded earlier in the run by an admin, for a TESTNET account, with the adapters and both flags off |
| `Interlocks.SubmittedRowApproved` | backend/app/services/testnet_order_window_approval.py:133-195 | a row a submission creates is allowed by the latest approval: same user, account, side and normalised symbol, within both bounds, at most ten minutes old; adapters and flags are on |
| `Interlocks.OrderFollowsApproval` | backend/app/services/testnet_order_window_approval.py:133-234 | on every run each new testnet execution has an earlier approval that allows it, and strictly in between the adapters, the account flag and the risk flag were each switched on |
| `Interlocks.ApprovedOrderIsReachable` | backend/app/services/testnet_order_window_approval.py:50-234 | the interlock is not empty: for every symbol, window that covers it and blocked list without its stored form, a run of nine calls from the empty database opens the window, goes through SIMULATION to switch the risk flag on, and submits an order |
| `Symbols.StoredSymbolIsApprovedIff` | backend/app/services/testnet_order_window_approval.py:163-180 | the stored symbol is the one the approval was compared with if and only if the requested one needs no stripping |
| `Symbols.PassingNeedsUnblockedSymbol` | backend/app/services/risk_engine.py:80-105 | in any call, a row newly reaching RISK_PASSED carries a symbol its account's settings did not block when the call began |
| `Symbols.StrippedSubmissionIsUnblocked` | backend/app/services/testnet_order_persistence.py:98-150 | a submission whose symbol needs no stripping never reaches RISK_PASSED under a symbol whose normal form is blocked |
| `Symbols.SlipsPastIffUnstripped` | backend/app/services/testnet_order_persistence.py:84-150 | some run from the empty database ends with a submission for this symbol that reaches RISK_PASSED although its normal form is blocked, if and only if the symbol is not stripped |
| `Symbols.BlankPassesBlockedSymbol` | backend/app/services/testnet_order_persistence.py:84-150 | the instance " BTC": at the end of a nine-call run it is covered by a window for BTC and SUBMITTED although BTC is blocked |
| `Outcomes.QuantitySignalOutcome` | backend/app/services/order_engine.py:34-209 | a signal with a plain quantity that nothing stands in the way of adds one row with its own side, symbol, price and quantity, FILLED if and only if the account is simulated, both flags are on, the quantity is positive, the symbol is not blocked and the three limits allow it, and FAILED otherwise; the position moves by the signed quantity if it is filled and no other position moves |
| `Outcomes.TargetSignalOutcome` | backend/app/services/order_engine.py:34-209 | a signal with a target adds one row over the distance to it, bought below and sold above, filled under the same conditions, and then the position is the target; at the target already the row fails |
| `Outcomes.ExecuteRefusals` | backend/app/services/order_engine.py:34-159 | every other call leaves orders, settings and positions as they are: it is refused, or it answers with the row this signal and account already have, and exactly when |
| `Outcomes.AdmittedIff` | backend/app/services/testnet_order_api.py:38-111 | gate and window together, written out: the switches and the newest approval a submission needs |
| `Outcomes.SubmitRefused` | backend/app/services/testnet_order_api.py:38-111 | a submission that is not admitted stores no order and no signal, and is refused for the stop, for an account that is not the user's, or for what blocks it, and exactly when |
| `Outcomes.SubmitReplay` | backend/app/services/testnet_order_persistence.py:62-96 | of the callers who reuse a client order id only the same user, on the same account and exchange, gets the row back; anybody else gets a conflict, and nothing is stored |
| `Outcomes.SubmitNew` | backend/app/services/testnet_order_persistence.py:84-158 | a new client order id stores one signal and one row with what was asked for, SUBMITTED if and only if the limits allow it and REJECTED otherwise, and nothing else |
| `Outcomes.ApproveOutcome` | backend/app/services/testnet_order_window_approval.py:50-130 | an approval is appended if and only if all conditions hold; a refusal changes nothing |
| `Outcomes.AnswerOutcome` | backend/app/services/testnet_order_persistence.py:161-207 | an accepting reply moves a SUBMITTED row to ACCEPTED under the name it brings, a failure moves one to FAILED, each with one log row; every other row stays |
| `Outcomes.PatchOutcome` | backend/app/services/risk_engine.py:58-77 | each field of the settings has the value the patch names for it, or else its old one; only the owner's simulated account is patched |
| `Outcomes.AccountOutcome` | backend/app/services/exchange_accounts.py:37-53 | the owner's update sets what it names on one account and leaves every other field and account |
| `Outcomes.StopOutcome` | backend/app/services/emergency_stop.py:44-98 | an activation turns the stop on and every account and risk flag off, a release turns only the stop off, and nothing else changes |
| `Outcomes.StopIsLastSet` | backend/app/services/emergency_stop.py:44-98 | on every run the stop is on if and only if the last call that set it activated it |
| `Outcomes.NothingCreatedAfterStop` | backend/app/services/emergency_stop.py:38-98 | from an activation until a release no execution is created, whatever is called |
| `Isolation.EventStaysHome` | backend/app/services/testnet_order_lifecycle.py:69-140 | a row keeps its content and its log under every event that is not for its user, account and exchange, or names neither of its ids |
| `Isolation.EventOutcome` | backend/app/services/testnet_order_lifecycle.py:69-120 | an event whose row is found is a duplicate, is stale, or moves that row with one log entry and names it if it had no exchange id, and exactly when |
| `Isolation.EventsStayHome` | backend/app/services/testnet_order_lifecycle.py:122-140 | a delivery or a reconciliation for one user and account leaves every row of another user, account or exchange as it is, log included, and everything that is not an order |
| `Isolation.ReconcileOutcome` | backend/app/services/testnet_order_reconciliation.py:51-158 | each row of the account that waits on the exchange is moved by its own answer if that is allowed, every other row stays; nothing happens unless the account is the user's, active, on TESTNET, switched off and has an API key |
| `Isolation.TenantIsolation` | backend/app/services/order_engine.py:34-60 | over every call: none made by one user changes an account of another, its key, settings, approvals, positions, orders or logs, nor adds an order to it |
| `LedgerService.LiveLedger.ApplyFill` | backend/app/services/position_engine.py:67-88 | exactly one position moves, by the signed quantity |
| `LedgerService.LiveLedger.GetOrCreatePosition` | backend/app/services/position_engine.py:19-43 | a missing row appears with quantity 0 and is committed; nothing else changes |
| `LedgerService.LiveLedger.ResolveSideAndQuantity` | backend/app/services/order_engine.py:188-209 | the in-place version computes the side and quantity of the ledger function, and creates at most a position row; what they become is stated by `Outcomes.QuantitySignalOutcome` and `Outcomes.TargetSignalOutcome` |
| `LedgerService.LiveLedger.ExecuteSignalForAccount` | backend/app/services/order_engine.py:34-159 | the commits and transitions, one by one, leave exactly the state and the result of the ledger call, with nothing pending; when that fills, fails or refuses is stated by the first three `Outcomes` rows |
| `LedgerService.LiveLedger.RecordWindowApproval` | backend/app/services/testnet_order_window_approval.py:50-130 | appends one audit entry or changes nothing, as the ledger call |
| `LedgerService.LiveLedger.CreateOrGetSubmission` | backend/app/services/testnet_order_persistence.py:62-158 | replay, conflict, rejection and submission each leave exactly the state of the ledger call |
| `LedgerService.LiveLedger.SubmitTestnetOrder` | backend/app/api/v1/orders.py:190-210 | stop, account, gate, window and row in the order of the route, refining the ledger call |
| `LedgerService.LiveLedger.RecordSubmissionAccepted` | backend/app/services/testnet_order_persistence.py:161-186 | accepts only a SUBMITTED row whose reply is no rejection, naming it if the reply does |
| `LedgerService.LiveLedger.RecordSubmissionFailure` | backend/app/services/testnet_order_persistence.py:189-207 | fails a row that is still SUBMITTED and leaves every other alone |
| `LedgerService.LiveLedger.ReconcilePendingOrders` | backend/app/services/testnet_order_reconciliation.py:51-158 | the loop applies one event per pending row, each committed, refining the ledger call |
| `LedgerService.LiveLedger.SwitchEmergencyStop` | backend/app/services/emergency_stop.py:44-98 | the in-place switch leaves exactly the state of the ledger call, of which `Outcomes.StopOutcome` says that an activation turns the stop on and every flag off |
| `LedgerService.LiveLedger.UpdateRiskSettings` | backend/app/services/risk_engine.py:58-77 | exactly the patched settings of one account change |
| `RateLimit.SlidingBound` | backend/app/services/rate_limit_service.py:72-102 | under a clock that never steps back, no half-open interval as long as the window sees more than 2 * limit - 1 passes |
| `RateLimit.SlidingBoundIsReached` | backend/app/services/rate_limit_service.py:72-102 | the bound is tight: for every limit and interval there is a run that reaches it |
| `RateLimit.RetryAfterIsLeast` | backend/app/services/rate_limit_service.py:247-249 | waiting the returned seconds opens a fresh window with count 1, no shorter whole number of seconds does, and the wait exceeds the true remaining time by less than a second |
| `RateLimit.InMemoryStore.Acquire` | backend/app/services/rate_limit_service.py:72-102 | one key's window opens or counts, every other is untouched, and the wait is the Retry-After of that window |
| `RateLimit.OrderRules` | backend/app/services/rate_limit_service.py:212-233 | the account rule comes first, rule names differ and intervals are positive |
| `RateLimit.Keys` | backend/app/services/rate_limit_service.py:236-244 | one key per rule, no two equal; which orders share a key is stated by `Admission.QuietOrderAdmitted` and `Admission.AllAccountsBounded` |
| `RateLimit.RateLimitService.AcquireTestnetOrder` | backend/app/services/rate_limit_service.py:146-181 | the loop charges rule after rule and stops at the first one over its limit, reporting that rule and its wait; whom it must let through is stated by `Admission.QuietOrderAdmitted` |
| `RateLimit.CounterIsolated` | backend/app/services/rate_limit_service.py:146-181 | a counter's window depends only on the calls that charged it: other keys and rules never interfere |
| `RateLimit.AdmittedOrdersBounded` | backend/app/services/rate_limit_service.py:146-181 | over any run each rule admits at most 2 * limit - 1 orders per counter in any interval as long as its window |
| `RateLimit.AdmittedOrdersApart` | backend/app/services/rate_limit_service.py:212-233 | two admitted orders of one account on one path are at least one second apart |
| `RateLimitRedis.RedisStore.Acquire` | backend/app/services/rate_limit_service.py:110-128 | one counter is incremented, gets its expiry when new unless that command is lost, no other changes, and the wait is the TTL the server answers or the interval, at least 1 |
| `RateLimitRedis.RedisRetryAfterSufficesIff` | backend/app/services/rate_limit_service.py:122-128 | waiting the returned seconds opens a fresh window if and only if they are not less than what the counter still has to live, however the server rounds its TTL |
| `RateLimitRedis.TtlRoundingSufficesIff` | backend/app/services/rate_limit_service.py:122-128 | for a server that may round the remaining life down by up to a second, the wait is always sufficient if and only if it does not, or the window is one second long; it is never short by more than that rounding |
| `RateLimitRedis.RedisKeyInjective` | backend/app/services/rate_limit_service.py:130-131 | on separable keys the escaped, joined name is injective, so no two windows share a counter |
| `RateLimitRedis.OrderKeysSeparable` | backend/app/services/rate_limit_service.py:236-244 | every key of an order call for a UUID account and the fixed order paths is separable |
| `RateLimitRedis.RedisRefinesMemory` | backend/app/services/rate_limit_service.py:105-131 | from agreeing stores, with every first INCR followed by its EXPIRE, both stores return the same counts on every sequence of calls, whatever the clock does |
| `RateLimitRedis.RedisMatchesMemory` | backend/app/services/rate_limit_service.py:105-131 | the same from empty stores |
| `RateLimitRedis.WithoutExpiryNeverResets` | backend/app/services/rate_limit_service.py:110-128 | a counter without expiry grows by one with every acquire, for ever |
| `RateLimitRedis.AgreementNeedsExpire` | backend/app/services/rate_limit_service.py:110-128 | for any stores that agree, after one more acquire they agree on all further calls if and only if that acquire did not both open the counter and lose its EXPIRE |
| `RateLimitRedis.RedisRateLimitService.AcquireTestnetOrder` | backend/app/services/rate_limit_service.py:146-181 | the loop over the rules on the Redis store charges rule after rule and reports the first one over its limit with its wait |
| `RateLimitRedis.RedisAdmitsTheSame` | backend/app/services/rate_limit_service.py:200-209 | on every run of order calls in which no EXPIRE is lost, the service on Redis admits exactly the orders the in-memory one does |
| `RateLimitRedis.RedisOrdersBounded` | backend/app/services/rate_limit_service.py:200-264 | the sliding bound, rule by rule, for the service on Redis |
| `RateLimitRedis.RedisOrdersApart` | backend/app/services/rate_limit_service.py:200-264 | two orders the service on Redis admits for one account on one path are at least one second apart |
| `Admission.AccountRulePasses` | backend/app/services/rate_limit_service.py:146-181 | the account rule never blocks an order whose account placed none on the same path of the exchange within the last second, whatever other accounts did |
| `Admission.QuietOrderAdmitted` | backend/app/services/rate_limit_service.py:146-244 | such an order is admitted if moreover fewer than 300000 orders in 300 seconds (Binance) or 600 in 5 (Bybit) were placed on the path, of whatever account |
| `Admission.QuietOrderAdmittedOnRedis` | backend/app/services/rate_limit_service.py:105-244 | the same on Redis |
| `Admission.AllAccountsBounded` | backend/app/services/rate_limit_service.py:212-244 | the exchange rule counts all accounts on a path together: below 600000 orders in any 300 seconds on Binance, below 1200 in any 5 on Bybit |
| `Reconciliation.NormalizeSnapshots` | backend/app/services/position_reconciliation.py:90-97 | the loop yields per upper-cased symbol the total of its snapshots, and no other symbol |
| `Reconciliation.ReconcileSnapshots` | backend/app/services/position_reconciliation.py:46-87 | the report of the three merged books over their symbols in order; what it says is stated by `Reconciliation.DifferencesSayIt`, `Reconciliation.MatchedIff` and `Reconciliation.CriticalIff` over the quantities |
| `Reconciliation.ReportSymbols` | backend/app/services/position_reconciliation.py:56-76 | reported symbols are sorted without duplicates and are exactly the drifting ones, each with its own comparison |
| `Reconciliation.DifferencesSayIt` | backend/app/services/position_reconciliation.py:56-173 | a symbol is reported if and only if two of its quantities are more than the tolerance apart, with the three quantities, their three deltas, as reasons exactly the pairs too far apart, and CRITICAL if and only if a pair is at least the threshold apart |
| `Reconciliation.MatchedIff` | backend/app/services/position_reconciliation.py:77-87 | MATCHED, and severity OK, if and only if no symbol has two quantities more than the tolerance apart |
| `Reconciliation.BooksAddUp` | backend/app/services/position_reconciliation.py:90-97 | a snapshot counts with its own quantity under its upper-cased symbol, and lists add up |
| `Reconciliation.BeforeIff` | backend/app/services/position_reconciliation.py:56-60 | the order of the report is that of the first differing character, shorter first |
| `Reconciliation.MatchedIffNoDrift` | backend/app/services/position_reconciliation.py:77-87 | MATCHED if and only if for every symbol all three quantities are pairwise within tolerance |
| `Reconciliation.CriticalIff` | backend/app/services/position_reconciliation.py:153-173 | CRITICAL if and only if some symbol has two quantities more than the tolerance apart and two at least the threshold apart |
| `Reconciliation.NeverOneReason` | backend/app/services/position_reconciliation.py:136-150 | at zero tolerance no difference has exactly one reason |
| `Reconciliation.ReportIsCanonical` | backend/app/services/position_reconciliation.py:46-87 | the report depends only on the quantities, not on which zero rows are listed |
| `Reconciliation.PermutationKeepsReport` | backend/app/services/position_reconciliation.py:46-97 | permuting the snapshots of any side leaves the report unchanged |
| `Reconciliation.SplitKeepsReport` | backend/app/services/position_reconciliation.py:46-97 | splitting a snapshot of any side into parts of the same symbol leaves the report unchanged |
| `Repair.EveryDifferenceProposed` | backend/app/services/reconciliation_repair.py:54-113 | every reported difference gets exactly one proposal, in the same order |
| `Repair.PlanFor` | backend/app/services/reconciliation_repair.py:54-131 | with generation disabled no proposal and DISABLED, without drift NO_DRIFT, otherwise one proposal per difference in order: to buy or sell the exchange's distance to the target, or else to review the database's; nothing is ever executed |
| `Repair.RoundEffect` | backend/app/services/reconciliation_repair.py:91-131 | carrying a round out moves the exchange of a drifting symbol to target if it was off and otherwise its database, and touches nothing else |
| `Repair.TwoRoundsMatch` | backend/app/services/reconciliation_repair.py:54-131 | for a tolerance of zero or more, two rounds of reconciling and carrying out always end in MATCHED |
| `Repair.OneRoundMatchesIff` | backend/app/services/reconciliation_repair.py:54-131 | one round is enough if and only if no symbol has its exchange off target and its database out of tolerance |
| `StreamConsumer.Drain` | backend/app/services/testnet_user_stream_consumer.py:93-118 | the inner loop hands on exactly the frames received before it ended, each after a negative should_stop answer; it reports a stop, a transport failure, an escaped exception or the limit exactly when that is what ended it, and asked once per turn |
| `StreamConsumer.Consume` | backend/app/services/testnet_user_stream_consumer.py:64-144 | the call terminates, also without a message limit if every transport stops delivering or is told to stop; transports created are reconnects or reconnects + 1, at most the budget + 1, each closed exactly once and in order, except the last one if its opening raised, which is not closed; handler calls are the received payloads in order; it reconnects only after failures; one backoff per reconnect; and the status is explained: STOPPED by a yes at the very question the call ended on, RECONNECT_EXHAUSTED by a failure with the budget used up, an exception by the opening, the receive, the handler or the 1025th delay |
| `StreamConsumer.OutcomeIsDetermined` | backend/app/services/testnet_user_stream_consumer.py:64-151 | what `Consume` promises leaves no freedom: for one environment, any two results and traces that meet it are equal |
| `StreamConsumer.TotalBackoffBounded` | backend/app/services/testnet_user_stream_consumer.py:146-151 | the total sleep is at most initial * (2^n - 1) and at most n * max |
| `StreamConsumer.BackoffDoubles` | backend/app/services/testnet_user_stream_consumer.py:146-151 | the first sleep is the initial delay, each further one twice the one before it, none longer than the cap |
| `StreamConsumer.HandledInOrder` | backend/app/services/testnet_user_stream_consumer.py:93-118 | frame i of transport c is handler call number i after all frames of the transports before it, and there are no other handler calls |
| `Mfa.FirstFit` | backend/app/services/mfa.py:189-207 | the earliest unused step of the window that yields the code, and none only if none does |
| `Mfa.Account.SearchTotp` | backend/app/services/mfa.py:189-207 | the loop over the offsets finds that step |
| `Mfa.Account.VerifyChallenge` | backend/app/services/mfa.py:134-186 | the whole new user row for one-time and recovery codes, and when the challenge is passed; `Mfa.TotpPassesIff` and `Mfa.RecoveryPassesIff` say that in terms of the codes issued and used |
| `Mfa.Account.ConfirmEnrollment` | backend/app/services/mfa.py:60-106 | the whole new user row, and that the pending secret must yield the code |
| `Mfa.Account.DisableMfa` | backend/app/services/mfa.py:109-131 | the whole new user row, and that a passed challenge is required |
| `Mfa.AcceptedInWindow` | backend/app/services/mfa.py:189-207 | an accepted step is within one of the current step, above the last one used, and yields the code |
| `Mfa.AcceptedStepsIncrease` | backend/app/services/mfa.py:60-208 | within one enrolment accepted steps strictly increase for any clock behaviour, starting above the step that confirmed it |
| `Mfa.AtMostEightRecoveries` | backend/app/services/mfa.py:145-171 | at most eight recovery codes are accepted in one enrolment, the call that ends it included |
| `Mfa.RecoveryUsesBounded` | backend/app/services/mfa.py:145-171 | every recovery success shrinks the stored list by at least one |
| `Mfa.RecoveryCodeOnce` | backend/app/services/mfa.py:145-171 | an accepted recovery code is refused for the rest of the enrolment, however it is spelled |
| `Mfa.RecoveryPassesIff` | backend/app/services/mfa.py:134-217 | for a hash that tells codes apart, a recovery challenge is passed if and only if its code is one issued in this enrolment and not used since, up to dashes, blanks and letter case, and is not all digits |
| `Mfa.TotpPassesIff` | backend/app/services/mfa.py:134-207 | a one-time code passes if and only if it has six digits and the secret confirmed for this enrolment yields it within one step of now and above every step accepted before; the earliest such step is used up |
| `Mfa.ConfirmationPassesIff` | backend/app/services/mfa.py:60-106 | a confirmation passes if and only if the second factor is off and the pending secret yields the six-digit code within one step of now |
| `Mfa.EnabledIffConfirmedLast` | backend/app/services/mfa.py:60-131 | on every run the second factor is on if and only if the last call that switched it was a confirmation, and off nothing is left that could answer a challenge |
| `Mfa.PendingIsLastStarted` | backend/app/services/mfa.py:32-57 | while it is off, the secret to be confirmed is the one started last |
| `Mfa.TokenAcceptedIffNotRevoked` | backend/app/api/deps.py:33-37 | a token minted in one state is accepted later if and only if no enrolment, disabling or password change succeeded in between |
| `AccountSync.QuantityAcceptsExactly` | backend/app/services/testnet_account_state_sync.py:342-360 | the digit-counting checks accept exactly the numbers with at most ten decimals and magnitude below 10^18, not negative where that is asked; that they are kept exactly is `SyncedValues.QuantityKeepsWorth` |
| `AccountSync.SyncIsAtomic` | backend/app/services/testnet_account_state_sync.py:47-94 | a delivery that is not synced changes no row; one that is writes each named row of its own account with the value it carries, and no other row |
| `AccountSync.OrderOfItemsIrrelevant` | backend/app/services/testnet_account_state_sync.py:121-272 | neither the order nor the grouping of an event's items matters, to the tables or to whether it is accepted |
| `AccountSync.RedeliveryIsHarmless` | backend/app/services/testnet_account_state_sync.py:275-322 | delivering the latest event again changes nothing |
| `AccountSync.TablesHoldLastWord` | backend/app/services/testnet_account_state_sync.py:47-94 | after any run of deliveries, between which the account rows may change in any way, each row says what the last delivery accepted at its time and naming it said, and rows never named are as they were |
| `AccountSync.BalancesStayShaped` | backend/app/services/testnet_account_state_sync.py:155-236 | over any run, whatever happens to modes and flags in between, every balance has non-negative parts below 10^18 and a total that covers them as long as it is below 10^18; a Binance total is exactly the 28-digit sum of its parts, any other total is below 10^18 |
| `AccountSync.BinanceTotalCoversIff` | backend/app/services/testnet_account_state_sync.py:155-171 | a Binance total covers its parts if and only if their 28-digit sum is not rounded down |
| `AccountSync.BinanceTotalCanFallShort` | backend/app/services/testnet_account_state_sync.py:155-171 | a concrete balance whose stored total is below the sum of its parts |
| `AccountSync.BinanceTotalBelowBoundIff` | backend/app/services/testnet_account_state_sync.py:155-171 | a Binance total is below 2 * 10^18 if and only if its parts add up to less than that minus five units of 10^-10, and it never exceeds it |
| `AccountSync.BinanceTotalReachesBound` | backend/app/services/testnet_account_state_sync.py:155-171 | a concrete balance whose stored total is exactly 2 * 10^18 |
| `AccountSync.BinanceRows` | backend/app/services/testnet_account_state_sync.py:155-171 | the builder loop yields all rows in order, or nothing if one item is refused |
| `AccountSync.GroupedRows` | backend/app/services/testnet_account_state_sync.py:174-236 | the nested loops yield the rows of all groups in order, or nothing if one item or group is refused |
| `AccountSync.AccountState.SyncEvent` | backend/app/services/testnet_account_state_sync.py:47-94 | the row-by-row upserts leave exactly the tables and the outcome the theorems speak about; `SyncedValues.SyncedBalancesHold` and `SyncedValues.SyncedPositionsHold` say what numbers those tables hold |
| `SyncedValues.QuantityKeepsWorth` | backend/app/services/testnet_account_state_sync.py:342-360 | an accepted quantity is stored at its exact worth, coefficient times ten to the exponent, in units of 10^-10 |
| `SyncedValues.SpellingsStoredTheSame` | backend/app/services/testnet_account_state_sync.py:342-360 | (10 c, e) and (c, e + 1) are accepted together and stored the same, and (c, -10) is stored as c |
| `SyncedValues.SyncedBalancesHold` | backend/app/services/testnet_account_state_sync.py:155-236 | after a synced event each balance of it is in the table under its own name, with the exact worth of the numbers it came with |
| `SyncedValues.SyncedPositionsHold` | backend/app/services/testnet_account_state_sync.py:239-272 | the same for positions, a Bybit SELL counting as negative |
| `SyncedValues.SyncedIff` | backend/app/services/testnet_account_state_sync.py:47-153 | an event is synced if and only if the account is the user's, active, on TESTNET and on its exchange, and every item is acceptable under distinct names |
| `SyncedValues.OkxAcceptedIff` | backend/app/services/testnet_account_state_sync.py:208-236 | an OKX balance is acceptable if and only if its numbers and name are and its parts do not exceed its total |

## Left out

- Overlapping sessions: calls are serialised, each reading the current row, because executions are read without a row lock; the ledger theorems are not claimed for stale sessions.
- A crash inside a call: a missing position row is committed before the fill, and the engine commits between transitions, so a crash can leave a row unfinished or FILLED without its fill; the laws hold between calls.
- Decimal precision outside `AccountSync`: prices and quantities are reals, so the 28-digit rounding of quantity * price and of a delta, and a column overflow, are not modelled; a Binance total of 10^18 or more stays in the model's table.
- Floating point: times and delays are reals, so the rounding of the monotonic clock and of a delay is not modelled; the overflow of a delay is.
- The Redis server: an outage, which the code turns into an error of its own, is not modelled; its TTL reply is an argument, because how it rounds is its own matter; a counter expires at an ideal instant, on the clock of the caller.
- `StreamConsumer.Drain`: parsing a frame and handing it on are one step of the model, so a frame that does not parse counts as a handler call that raises.
- `Redelivery.Delivered`: when an event fits several rows, the code takes whichever the database returns; a delivery to one row is followed as taking that row.
- Recorded texts: reasons, details, error messages, exchange responses and the masking of sensitive keys; the model keeps which branch was taken.
- Approval payloads that do not parse: only the recorder writes them; the audit row is its typed content, and the time of the approval is part of the call.
- The event payloads of orders: reading the JSON of each exchange is left out, the status tables are not; cumulative filled quantities are never stored and not modelled.
- Text beyond ASCII: `upper`, `strip` and `isalnum` are modelled on ASCII, so Unicode case mapping and digits are not.
- Identifiers: rows are named by position; an 8-character prefix of a UUID stays a string, so a collision of client order ids is modelled. A user is a number.
- PATCH with an explicit null for the trading flag or the blocked symbols is not modelled.
- HTTP, WebSocket and Redis clients, signing, encryption, password hashing and token encoding: foreign calls, given as functions or outcomes.
- Order types, leverage, alerts, notifications and market-data fallback: they decide none of the properties here.
- Phase 4 review, admission reports and window plans: long conjunctions that one function body settles.
- Users, sessions and routes other than the checks that guard a modelled call.
