# signald: verified model of the execution layer

signald is a fail-closed trading execution layer: research artifacts and intraday candidates enter,
a risk gate and a sizer decide, an order path talks to an unreliable broker, and a validation
harness replays history. This project models the parts where a mistake costs money and proves what
they promise, as machine-checked Dafny.

| component | modules |
|---|---|
| the house gate, the sizer and the session around them | `RiskState`, `Ladder`, `Gate`, `GateVerdict`, `GateAdmission`, `GateSignal`, `GateReasons`, `Sizing`, `EndToEnd`, `SampleOrders`, `SessionEngine`, `SessionSizing`, `SessionCaps`, `SessionExposure` |
| the order path: event folding, retries, halts, pricing, slicing, stops | `OrderState`, `OrderRedelivery`, `OrderManager`, `Halts`, `Prices`, `OrderPolicy`, `Stops` |
| effectively-once ingest and single-use approvals | `Ingest`, `IngestRuns`, `Processor`, `Approvals` |
| the hash-chained audit ledger | `AuditLedger` |
| the validation code | `Replay`, `ReplayTheorems`, `ReplayTrades`, `Accumulators`, `NeweyWest`, `Tail` |

`Prelude` holds a small shared vocabulary. `dafny verify dfyconfig.toml` checks everything.

## How the model reads

- Objects that the source updates in place are classes with the same fields (`OrderStateManager`,
  `OrderManager`, `HaltMachine`, `AuditChain`, `Inbox`, `Journal`, `SignalProcessor`, `McpServer`,
  `Engine`); loops are methods with loops. Each such method is proved equal to a function of the
  old state; what that function answers, and what every run of it keeps, are lemmas of their own that
  do not name its body.
- Append-only files are sequences of rows with atomic append. A crash leaves a prefix of the rows of
  the call it interrupts; a restart starts from the rows.
- The broker is an environment that may lose a request or a reply, dedupes nothing and cancels one
  order at a time. A child order of a session is denied by the guard, acknowledged, refused, or left
  unanswered with or without an order behind it.
- Floats are reals. Rounding is any rule that picks a nearest integer.
- Hashes are functions; where a result needs them injective, the lemma says so.

## What the code does and its text does not say

- The gate's text and its constant name five reducing checks (signald/risk/gate.py:14-17, 43); at
  order stage eight do (`SampleOrders.UnnamedReducersReduce`). Only five reduce exactly when the
  order fits the exposure cap whole, the ladder is at full size and no approval is asked
  (`GateAdmission.FiveReduceExactlyWhen`).
- A check that reduces returns before its later tests: leverage, position and trade counts and the
  spread test are skipped then. The exact conditions are `EndToEnd.LeverageHoldsExactlyWhen`,
  `EndToEnd.CountsTestedExactlyWhen` and `EndToEnd.SpreadTestedExactlyWhen`; `SampleOrders` holds
  an allowed and sized order beyond each of the three.
- VWAP_PULLBACK stands in the trend list and in the reversion list (signald/risk/gate.py:46-48), and
  each list demands its own day type, so the gate blocks it always; its design text
  (docs/INTRADAY_ALGO_IMPLEMENTATION.md:433) describes a trend-day setup.
- A soft data failure downgrades a signal and returns before the tests behind it
  (signald/risk/gate.py:621-714), so once the quality is partial or the reference stale, a breached
  invalidation and a decision or quote of any age no longer block it (`GateSignal.WeakDataHidesTheRest`).
- The ladder's flatten is lifted when a path worsens from rung 2 to rung 3.
- The engine stops at the first acknowledged child of a sliced order (signald/engine.py:491-499), so
  the later ones are never sent; behind a refused or unanswered child it goes on to the next. The
  whole quantity goes out exactly when the guard passes every child and none but the last is
  acknowledged (`SessionEngine.SentIsWholeExactlyWhen`).
- The engine counts acknowledged submits only (signald/engine.py:490). Its counters are short of what
  is live by exactly the orders behind lost replies (`SessionEngine.LiveIsCountedOrLost`), and no cap
  on trades sees those (`SessionCaps.LostRepliesAreNeverCounted`).
- The engine drops the broker's sleeve trade count as soon as the book lists a trade of any name, or
  it has counted an order itself (signald/engine.py:386-404). The mandate's daily cap is then
  compared with the engine's own count, so a day can exceed it. Acknowledged orders keep the day's
  cap, in every session, exactly when there were no earlier trades or the cap is used up
  (`SessionCaps.DailyCapHoldsExactlyWhen`); live orders keep it exactly when it is used up
  (`SessionCaps.LiveOrdersKeepTheDayExactlyWhen`). `SessionCaps.TwelveMoreAreSent` and
  `SessionCaps.ManyAreLiveUnderACapOfOne` are days that fail.
- Every order of a session is gated on the same positions, so the gate's caps hold candidate by
  candidate and not over the session. In sum the acknowledged orders spend the exposure room of the
  book at most once each, which is met (`SessionExposure.AckedDollarsAreBounded`,
  `SessionExposure.AckedDollarsBoundIsMet`); together with a book inside the exposure cap they keep
  it, in every session, exactly when one trade a day is allowed or the day is used up
  (`SessionExposure.ExposureHoldsExactlyWhen`). Two orders already exceed it
  (`SessionExposure.TwoOrdersExceedTheCap`).
- "One child never exceeds" 5% of ADV (signald/order/policy.py:33): the last one can, by up to 3.2
  shares (`OrderPolicy.EveryChildFitsExactlyWhen`).
- A stop can be stepped off a cluster onto the market itself: at every distance under 1.5 ticks, at
  1.5 ticks when ties round towards the market, and at no longer one
  (`Stops.TriggerIsBeyondExactlyWhen`).
- A stop moved off its nearest cluster is meant to park on none (signald/order/stops.py:93-94), but it
  can park exactly on another level (`Stops.ClearanceParksOnPriorLow`, `Stops.ParksOnALevelExactlyWhen`).
- A redelivered fill without the order's running total is counted again unless its status is no
  longer legal for the order or counting it would overfill
  (`OrderRedelivery.RedeliveredBareFillExactlyWhen`).
- The pending log holds one row per id, and the engine's ids leave the symbol out
  (signald/engine.py:460), so ids do repeat. `submit` retires the row when the broker refuses the id
  (signald/order/manager.py:173), also with an earlier order of the id open; `cancel` retires it when
  one order of the id is gone (253-257), also with another one open. `OrderManager.SubmitKeepsExactly`
  and `OrderManager.CancelKeepsExactly` are the exact conditions,
  `OrderManager.RefusedReuseUncovers` and `OrderManager.CanceledReuseUncovers` the failing runs.
- `submit_with_retry` with one attempt reports `retried` (signald/order/manager.py:235).
- Any halt observation within ten minutes of the close sets the no-reopen flag, not only a halt that
  begins then (signald/order/halts.py:24-26 against 106-114, `Halts.EarlierHaltSetsTheFlag`). A later
  halt observation without a close in sight reports a plain halt although the flag stands
  (`Halts.ReasonNamesThePhase`).
- A wired inbox dedupes before the journal is asked: a mandate change does not re-open a refusal
  then, and an artifact admitted before a crash is never driven again, although the text speaks of
  recovery on restart (signald/inbox.py:8-12, 112). `IngestRuns.WiredObtainableExactlyWhen` says what
  can still be delivered.
- A blank JSON object is dead-lettered under its file name but looked up under its hash.
- The invalid exit at signald/processor.py:158-161 returns without settling its admission
  (`IngestRuns.WiredLaterLeavesOpen`).
- An approval is issued for one proposal, but a cancel or an allocation change can also spend it:
  an admitted spend is bound to the proposal exactly when it is a submit
  (signald/mcp/server.py:429-456, `Approvals.BoundExactlyOnSubmit`).
- The equity curve of a replay takes every trade for a long (signald/validation/harness.py:290-301, as its text says), so
  a short's gain lowers it (`ReplayTrades.WinningShortLowersTheCurve`).
- The replay shows an open position's average entry before the bar that sets it has been reached.

## Model

| member | source | states |
|---|---|---|
| `RiskState.BookState.BySymbol` | signald/risk/state.py:88-93 | one pass over the positions yields, per symbol, the net signed quantity of exactly that symbol |
| `RiskState.BookState.ClusterNotional` | signald/risk/state.py:108-114 | the cluster loop yields, per cluster key, the summed notional of exactly its positions; keys without a position are absent |
| `RiskState.TotalsAdd` | signald/risk/state.py:88-120 | the totals of a book, per symbol, cluster and sleeve, are the sums of those of its parts |
| `RiskState.OnePositionAdds` | signald/risk/state.py:41-45 | what one position adds: its signed shares to its own symbol, its unsigned value at the mark, or else at its entry, to its sleeve and to its cluster, sector or symbol |
| `Ladder.WorsePathNeverLoosens` | signald/risk/ladder.py:63-117 | for every pair of drawdown paths, the worse one never gets a lower rung, a larger size multiplier, a new intraday entry, an unfrozen allocation or a lifted halt |
| `Ladder.ActionsExactlyWhen` | signald/risk/ladder.py:63-117 | every action in terms of the thresholds: when new intraday entries stop, when the size is halved or gone, when the book is flattened, the allocation frozen and the house halted; an unusable threshold is an error |
| `Ladder.FlattenLiftedExactlyFromTwoToThree` | signald/risk/ladder.py:63-117 | the one action a worse path can lift is flatten: exactly when the better path is a hard losing day short of every further threshold (rung 2) and the worse one has passed a de-risking threshold but not the halt (rung 3) |
| `Ladder.FlattenLiftHappens` | signald/risk/ladder.py:63-117 | two concrete paths where the lift happens |
| `Gate.RunAll` | signald/risk/gate.py:825-837 | the loop over the precedence tuple runs every check and collects its failures in precedence order |
| `Gate.Merge` | signald/risk/gate.py:839-856 | the failures are merged as specified: the first block binds, else the smallest adjusted risk, and the operator is asked when one of them is the approval check's |
| `Gate.Evaluate` | signald/risk/gate.py:825-889 | the imperative driver runs the table and returns the decision whose verdict, binding check, list, risk and approval flag the lemmas below characterise |
| `GateVerdict.VerdictMeaning` | signald/risk/gate.py:825-889 | BLOCK exactly when some check blocks, ALLOW exactly when all pass, REDUCE with the minimum over the reducing checks |
| `GateVerdict.RaisingCheckBlocks` | signald/risk/gate.py:825-837 | a check that raises blocks the order whatever the others say |
| `GateVerdict.BindingIsFirstBlock` | signald/risk/gate.py:839-856 | the binding gate and its code are those of the first blocking check in precedence |
| `GateVerdict.BindingIsFirstReduce` | signald/risk/gate.py:839-856 | without a block they are those of the first reducing check in precedence |
| `GateVerdict.FailuresAreTheOutcomes` | signald/risk/gate.py:825-889 | the decision lists what every check had to say and nothing else |
| `GateVerdict.FailuresInPrecedence` | signald/risk/gate.py:839-889 | each failure stands right behind those of the checks before it in precedence |
| `GateVerdict.PassNamesNothing` | signald/risk/gate.py:839-856 | a pass is exactly a decision that names no check and lists none |
| `GateVerdict.ApprovalRequiredExactlyWhen` | signald/risk/gate.py:855 | for every context the operator is asked exactly when some check files an approval failure, which is when the approval check raises or the order reaches the threshold in a mode that asks |
| `GateVerdict.ReduceCarriesRisk` | signald/risk/gate.py:176-601 | every reduction names a risk |
| `GateVerdict.OrderStageReducers` | signald/risk/gate.py:176-801 | at order stage no check beyond these eight reduces (the module text at 14-17 and 43 names five) |
| `GateVerdict.RiskToFitExact` | signald/risk/gate.py:893-907 | the fitted risk is positive exactly when there is room, never exceeds the request, fits the room, and uses all of it when it binds |
| `GateVerdict.PlannedProjectionIs` | signald/risk/gate.py:135-150 | a planned notional is what the request projects to, never less than nothing |
| `GateVerdict.UnplannedProjectionIs` | signald/risk/gate.py:135-150 | without one it is so many shares at the price that their stop loss is the requested part of equity |
| `GateVerdict.NoStopNoProjection` | signald/risk/gate.py:135-150 | without a plan, a stop or a price it projects to nothing |
| `GateVerdict.NonLadderReduction` | signald/risk/gate.py:176-561 | every reduction but the ladder's is positive and at most the requested risk, whatever the ladder state |
| `GateVerdict.ReductionNeverWidens` | signald/risk/gate.py:176-601 | with a ladder state of the rung table every reduction is positive and at most the requested risk |
| `GateVerdict.EffectiveRiskIsTightest` | signald/engine.py:374 | the `or` fallback never widens: an allowed order is sized on a positive risk within the request and within every reduction |
| `GateVerdict.EffectiveRiskNeedsARequest` | signald/engine.py:374 | no positive risk comes out of the gate unless a positive one was requested |
| `GateAdmission.AllowedExactlyWhenAdmissible` | signald/risk/gate.py:176-889 | main result: at order stage the gate allows an order exactly when it meets a list of conditions stated without checks, precedence or reductions |
| `GateAdmission.ReducersExactly` | signald/risk/gate.py:176-801 | for an allowed order each of the eight checks reduces exactly for its own stated reason, and no other check does |
| `GateAdmission.FiveReduceExactlyWhen` | signald/risk/gate.py:14-17 | the stated rule that only five checks reduce holds for an allowed order exactly when it fits the exposure cap whole, the ladder is at full size and no approval is asked |
| `GateAdmission.SoleReducerSetsTheRisk` | signald/engine.py:374 | an allowed order with one reason to shrink is sized on exactly what that check asks for, and so ends exactly at the cap that check enforces |
| `GateAdmission.ReductionExhausts` | signald/risk/gate.py:206-604 | what each reducing check asks for: the risk that takes the order exactly to the exposure cap, the sleeve room, the name cap, the participation cap or the shortfall budget, the ladder's multiple, the volatility scalar's multiple, and the whole request for approval |
| `GateAdmission.TightestReasonSetsTheRisk` | signald/engine.py:374 | with several reasons an allowed order is sized exactly at the cap of one of them and within what all the others ask for |
| `SampleOrders.UnnamedReducersReduce` | signald/risk/gate.py:14-17 | three concrete allowed orders that the mandate, the ladder and the approval check reduce |
| `SampleOrders.ApprovalSampleWaits` | signald/risk/gate.py:855 | an allowed order at its approval threshold that waits for an operator, and the same order under another mode that does not |
| `GateAdmission.DataBlocks` | signald/risk/gate.py:621-714 | the data check blocks an order exactly when something is incomplete, stale, unknown or breached, or the stop is missing |
| `GateAdmission.VwapPullbackNeverPasses` | signald/risk/gate.py:409-429 | a VWAP_PULLBACK request is blocked in every context, since it is listed for trend and for range days alike |
| `GateAdmission.OnlyVwapPullbackIsShutOut` | signald/risk/gate.py:46-48 | it is the only setup no day type suits |
| `GateReasons.CodesAreGrounded` | signald/risk/gate.py:176-837 | a failure is filed under its own check, a halt under the halt, and its reason code names a ground that holds, for every check and code; a check that raises says so, and nothing else does |
| `GateSignal.SignalPassesExactlyWhenAdmissible` | signald/risk/gate.py:176-889 | main result for the earlier stage, on every input: the gate passes a research signal exactly when it meets a list of conditions, in which a soft data failure hides the tests behind it |
| `GateSignal.WeakDataHidesTheRest` | signald/risk/gate.py:621-714 | once the quality is partial or the reference stale, no breached invalidation, decision age or quote age changes whether a signal passes |
| `GateSignal.DowngradesExactly` | signald/risk/gate.py:176-801 | for a signal that passes, each of seven checks downgrades it exactly for its own stated reason, and no other check does |
| `GateSignal.SignalIsAllowExactlyWhen` | signald/risk/gate.py:825-856 | a signal goes on at full strength exactly when it is admissible and has no reason to be downgraded |
| `GateSignal.DowngradeLeaves` | signald/risk/gate.py:176-801 | how far each downgrade goes: caps take what does not fit and no more, ladder and volatility scale, weak data, a closed market, a cooldown and approval take nothing |
| `Sizing.KellyCollapses` | signald/risk/sizing.py:114-141 | the win-probability route equals max(0, fraction * edge * shrink / ratio), zero on unusable inputs |
| `Sizing.FullKellyIsEdgeOverRatio` | signald/risk/sizing.py:114-141 | the Kelly fraction of the implied win probability is edge over ratio |
| `Sizing.SizeIsGreatestFit` | signald/risk/sizing.py:144-233 | sizing succeeds exactly when the inputs are usable and one share fits every cap, and returns the greatest quantity that does |
| `Sizing.TighteningNeverRaisesQty` | signald/risk/sizing.py:144-233 | tightening any cap never raises the quantity and never turns a rejection into an order |
| `Sizing.BindingRefusesOneMore` | signald/risk/sizing.py:186-233 | the named binding cap is the one that refuses one more share |
| `Sizing.BindingIsTheFirstTightest` | signald/risk/sizing.py:162-216 | which cap is named, read off the reported candidates: the first in the fixed order that is smallest, leverage only when below all of them |
| `Sizing.RiskIsNamedAfter` | signald/risk/sizing.py:155-185 | the risk itself is named after Kelly only below the scaled budget, else after the volatility if it scaled, else after the first budget that is smallest |
| `Sizing.CandidatesAre` | signald/risk/sizing.py:177-233 | each reported candidate is what its cap leaves on its own |
| `Sizing.RejectedExactlyFor` | signald/risk/sizing.py:144-225 | why there is no quantity, exactly: the first thing missing, and otherwise that not one share fits |
| `Sizing.SizedRiskWithinRequest` | signald/risk/sizing.py:144-233 | with the scalar at 1 the stop loss of the sized quantity is within the requested risk |
| `Sizing.SizedRiskWithinHeat` | signald/risk/sizing.py:144-233 | and within the remaining house heat |
| `EndToEnd.SizedOrderFitsEveryCap` | signald/engine.py:349-379 | main result: whatever the gate allows and the sizer sizes, under any caps, fits exposure, sleeve, cluster, single-name, participation, CVaR, ladder and volatility limits |
| `EndToEnd.SizedHasShape` | signald/engine.py:349-379 | a request that was sized had positive equity, price, stop distance and risk |
| `EndToEnd.GrantedFitsEveryCap` | signald/risk/gate.py:176-561 | any quantity carrying no more than a granted risk fits every numeric cap |
| `EndToEnd.ExposureHolds` | signald/risk/gate.py:202-224 | held plus new notional stays within the total exposure cap |
| `EndToEnd.SleeveHolds` | signald/risk/gate.py:284-310 | the new notional stays within the sleeve room |
| `EndToEnd.ClusterHolds` | signald/risk/gate.py:369-383 | the cluster plus the new notional stays within the cluster cap |
| `EndToEnd.NameHolds` | signald/risk/gate.py:463-494 | the name plus the new notional stays within the single-name cap |
| `EndToEnd.ParticipationHolds` | signald/risk/gate.py:516-548 | the quantity stays within the ADV share |
| `EndToEnd.TailHolds` | signald/risk/gate.py:331-366 | expected shortfall plus the stop risk stays within the CVaR budget |
| `EndToEnd.LadderHolds` | signald/risk/gate.py:313-328 | no halted ladder, no intraday entry it forbids, and the risk within the ladder's multiple |
| `EndToEnd.VolHolds` | signald/risk/gate.py:386-406 | the risk stays within the volatility-scaled request |
| `EndToEnd.LeverageHoldsExactlyWhen` | signald/risk/gate.py:206-251 | leverage is tested only when exposure did not reduce; the exact condition under which the projection the mandate check leaves still meets it |
| `EndToEnd.SizedOrderKeepsLeverage` | signald/engine.py:349-379 | a sized order keeps leverage whenever the request fits the exposure cap whole or the exposure cap lies inside the leverage cap |
| `SampleOrders.SizedAboveLeverage` | signald/risk/gate.py:206-251 | a concrete order allowed and sized at ninety dollars where leverage leaves fifty |
| `EndToEnd.CountsTestedExactlyWhen` | signald/risk/gate.py:475-511 | the position and trade counts are tested exactly when the name cap did not reduce |
| `SampleOrders.SizedAboveMaxPositions` | signald/risk/gate.py:475-511 | a concrete order allowed and sized although no position is allowed |
| `EndToEnd.SpreadTestedExactlyWhen` | signald/risk/gate.py:539-560 | a blown-out spread blocks exactly when the order does not exceed participation |
| `SampleOrders.SizedAcrossABlownSpread` | signald/risk/gate.py:539-560 | a concrete order allowed and sized across a blown-out spread |
| `EndToEnd.ZeroReductionWidens` | signald/engine.py:374 | outside the rung table a zero multiplier is read as no reduction, and the full request is sized |
| `SessionEngine.MergedWith` | signald/engine.py:386-391 | per-name trade counts of the session are added to the broker's |
| `SessionEngine.SumOf` | signald/engine.py:402 | the session count is the sum over the names |
| `SessionEngine.Engine.BookWithTrades` | signald/engine.py:386-404 | the book handed to the gate |
| `SessionEngine.AnswersTellTheOrder` | signald/order/manager.py:137-184 | over everything the broker can do, the answer the engine works with tells exactly whether an order was created |
| `SessionEngine.Engine.Submit` | signald/engine.py:413-500 | children are offered in order; every one the guard passes is submitted until one is acknowledged, which alone is counted |
| `SessionEngine.Engine.Handle` | signald/engine.py:302-384 | one candidate through gate, sizer and submit; the counter moves exactly with an acknowledged child |
| `SessionEngine.Engine.Run` | signald/engine.py:229-257 | the candidate loop equals the fold over the candidates, from whatever counters earlier runs left, with every submit on record |
| `SessionEngine.SubmittedExactlyWhenTried` | signald/engine.py:456-500 | exactly those children are submitted that the guard passes and that no acknowledged child precedes |
| `SessionEngine.SessionOrdersFit` | signald/engine.py:229-384 | the same for every candidate of every session |
| `SessionEngine.CountersAreAcks` | signald/engine.py:386-404 | over any run the counters grow by the acknowledged orders, in total and per name |
| `SessionEngine.LiveIsCountedOrLost` | signald/engine.py:481-500 | what is live at the broker is the growth of the counters plus the orders behind lost replies, in total and per name |
| `SessionEngine.SentIsWholeExactlyWhen` | signald/engine.py:456-500 | the submits of a candidate carry at most the sized quantity, and all of it exactly when the guard passes every child and none but the last is acknowledged |
| `SessionEngine.CandidateFitsTogether` | signald/engine.py:302-384 | everything submitted for one candidate, however answered, fits every numeric cap together, and the book's heat plus its stop risk fits the heat cap |
| `SessionSizing.SizedQtyIsGreatest` | signald/engine.py:365-384 | main result: the engine has a quantity exactly when the gate allows the order and one share fits its caps, and then the greatest that carries the risk the gate left, the budget of one trade, the heat and the Kelly fraction, and fits the volume and the sleeve |
| `SessionSizing.OnlyTheCountsChange` | signald/engine.py:386-404 | the book a candidate is gated on differs from the session's in its two trade counts alone |
| `SessionSizing.AckedExactlyWhen` | signald/engine.py:479-491 | a child counts as acknowledged exactly on the answers that prove an order, and as refused on those that prove there is none from it |
| `SessionSizing.SessionPlanIsSound` | signald/engine.py:416-446 | a sized order with a price always gets a plan for all of its shares, on the right side of the entry price, at a cap no spread widens, resting exactly for the reversion setups that are not trend setups too |
| `SessionEngine.EvaluatorIsGated` | signald/engine.py:302-384 | the engine submits for one candidate at a time, acknowledged last, and only under the daily cap and, unless the name cap reduced, under the cap per name: what the session theorems ask of a handler |
| `SessionEngine.SessionKeepsDailyCap` | signald/risk/gate.py:184-192 | the orders acknowledged to such a handler, over all its runs, never exceed the mandate's daily cap, whatever the candidates (earlier trades and lost replies are not among them) |
| `SessionEngine.SessionKeepsNameCap` | signald/risk/gate.py:502-511 | every submit not reduced by the name cap, however answered, is made while earlier and acknowledged trades of its name are under the per-name cap |
| `SessionEngine.SleeveCountSeen` | signald/engine.py:386-404 | what the daily cap is compared with: the broker's sleeve count only while neither the book nor the engine has a per-name trade, otherwise the engine's own total |
| `SessionCaps.SleeveCountIsDropped` | signald/engine.py:386-404 | with a per-name trade on the book, or one the engine already counted, the session is the same whatever sleeve count the broker reports |
| `SessionCaps.DailyCapHoldsExactlyWhen` | signald/risk/gate.py:184-192 | of acknowledged orders: every session of a fresh engine stays within the cap less the broker's earlier trades exactly when there are none, or they use the cap up while the book lists no per-name trade |
| `SessionCaps.LiveOrdersKeepTheDayExactlyWhen` | signald/engine.py:481-500 | main result, of live orders: exactly when the cap is used up while the book lists no per-name trade; any other book can exceed it as soon as replies are lost |
| `SessionCaps.LostRepliesAreNeverCounted` | signald/engine.py:481-500 | under any daily cap and any cap per name that admit a first order: as many live orders of one name as replies are lost, with the counters empty |
| `SessionCaps.ManyAreLiveUnderACapOfOne` | signald/engine.py:481-500 | a concrete book without earlier trades: any number of live orders under a cap of one |
| `SessionCaps.WitnessSentExactlyUnderCap` | signald/engine.py:302-384 | for every book the engine can trade on, an order that is submitted exactly while the count shown is under the cap, however it is answered |
| `SessionCaps.TwelveMoreAreSent` | signald/engine.py:386-404 | a concrete book: twelve trades of a cap of twelve are done, the gate is shown none, and twelve more are acknowledged |
| `SessionExposure.CandidateFitsTheRoom` | signald/risk/gate.py:202-224 | whatever one candidate has at the broker costs no more than the exposure room the book leaves |
| `SessionExposure.EvaluatorSpendsOnce` | signald/engine.py:302-384 | of every candidate the engine has at most one acknowledged order, and it fits that room |
| `SessionExposure.AckedDollarsAreBounded` | signald/engine.py:386-404 | over any session of such a handler the acknowledged orders cost at most that room once each |
| `SessionExposure.AckedDollarsBoundIsMet` | signald/engine.py:386-404 | for every book and every number of orders the daily cap admits, a session that costs exactly that |
| `SessionExposure.DailyCapBoundsDollars` | signald/risk/gate.py:184-224 | under a daily cap: at most the room once for each trade left |
| `SessionExposure.LiveDollarsAreBounded` | signald/engine.py:386-404 | everything live costs at most the room once per candidate |
| `SessionExposure.TwoOrdersExceedTheCap` | signald/engine.py:386-404 | for every book that can trade, unless the day is used up or one trade is allowed: two orders, each inside the exposure cap, exceed it together with the book |
| `SessionExposure.ExposureHoldsExactlyWhen` | signald/engine.py:386-404 | main result: a book inside the exposure cap and its acknowledged orders together keep it, over every mandate of a daily cap and every session, exactly when the cap is one or used up |
| `SessionExposure.LiveExposureHoldsExactlyWhen` | signald/engine.py:386-404 | the same of live orders: exactly when the daily cap is used up |
| `OrderState.LegalIsRankOrder` | signald/order/state.py:53-75 | the transition table is the strict rank order with self-loops, less one edge |
| `OrderState.OrderStateManager.Apply` | signald/order/state.py:211-330 | one event moves the whole state as the specification step does, and returns the order's state; what the step does is said by the five lemmas below, independently of it |
| `OrderState.OrderStateManager.Anomalous` | signald/order/state.py:394-409 | an anomaly is appended and nothing else changes |
| `OrderState.AppliesExactlyWhen` | signald/order/state.py:211-330 | main result: an event is applied exactly when it is well formed, says a status the ranks allow, and its shares, running total and price agree with each other and with what is on record |
| `OrderState.AppliedState` | signald/order/state.py:211-345 | an applied event leaves its order at the body's status when it has one, else at the status its name stands for, name by name; with the broker's average and running total whenever sent; and every other order as it was |
| `OrderState.AppliedExecution` | signald/order/state.py:347-392 | exactly a fill records one execution, of the shares and price the event or the broker's totals say |
| `OrderState.AppliedAverageMoves` | signald/order/state.py:377-390 | without a broker average a fill moves the average by its own weight, and nothing else moves it |
| `OrderState.AnomalyNamesTheFault` | signald/order/state.py:211-409 | an event that is not applied changes nothing but the anomaly list, and its code names a fault the event has |
| `OrderState.StandsWhereTheLastSaid` | signald/order/state.py:211-345 | over every stream an order stands where the last event applied to it left it, at the status that event said |
| `OrderState.StepMonotone` | signald/order/state.py:252-330 | an event raises an order's rank strictly or leaves its status, and never lowers its filled quantity |
| `OrderState.RunMonotone` | signald/order/state.py:211-330 | the same between any two points of any stream |
| `OrderState.TerminalAbsorbs` | signald/order/state.py:68-75 | a finished order keeps its status for ever |
| `OrderState.AtMostThreeChanges` | signald/order/state.py:53-75 | at most three status changes over any stream |
| `OrderState.FilledIsConserved` | signald/order/state.py:347-392 | for every stream 0 <= filled <= size, and filled is the adopted amount plus the recorded executions |
| `OrderState.AverageIsConserved` | signald/order/state.py:377-390 | without broker averages or adoption, average times filled is the sum of quantity times price |
| `OrderRedelivery.StepRespectsCore` | signald/order/state.py:211-330 | statuses, quantities and executions evolve independently of averages, ids and timestamps |
| `OrderRedelivery.RedeliveriesCountOnce` | signald/order/state.py:347-376 | main result: any redeliveries of applied events carrying the running total, at any later positions, leave executions, statuses and filled quantities as the original stream alone |
| `OrderRedelivery.RedeliveredBareFillExactlyWhen` | signald/order/state.py:347-376 | without the running total a redelivery at any later state is inert exactly when its status is no longer legal or counting it would overfill; otherwise it is recorded as one more execution |
| `OrderRedelivery.RepeatedBareFillExactlyWhen` | signald/order/state.py:347-376 | right behind the original only an overfill stops the second count |
| `OrderRedelivery.BareFillAfterCancelIsInert` | signald/order/state.py:347-376 | a concrete stream where nothing would overfill and the redelivery behind a cancel is inert |
| `OrderRedelivery.BareFillCountedTwice` | signald/order/state.py:347-376 | a concrete stream counted twice |
| `OrderManager.Broker.Submit` | signald/order/manager.py:122-135 | the environment: requests and replies may be lost, nothing is deduped |
| `OrderManager.Broker.Query` | signald/order/manager.py:122-135 | the environment: a query that answers tells the truth |
| `OrderManager.Broker.Cancel` | signald/order/manager.py:244-266 | the environment: a canceled answer removed one order of the id, a not_found answer means none was open |
| `OrderManager.StatusTellsTheOrder` | signald/order/manager.py:137-184 | over everything a submit can do, "submitted" is reported exactly for the answers that prove an order and "rejected" or "duplicate" exactly for those that prove there is none from it |
| `OrderManager.CancelStatusTells` | signald/order/manager.py:244-266 | the same for a cancel: "canceled" and "not_found" are exactly the answers that prove the order gone |
| `OrderManager.DisciplineIsExact` | signald/order/manager.py:137-184 | every crash point has each live order and each unrefused send on record exactly when a row precedes every send that may stand and no row is retired while something is owed on its id |
| `OrderManager.SubmitKeepsExactly` | signald/order/manager.py:137-184 | one submit keeps that exactly when a refusal does not meet a live order of its id, and any other answer has an id that is not blank |
| `OrderManager.RefusedReuseUncovers` | signald/order/manager.py:163-173 | a concrete failure: an id accepted, used again and refused leaves its first order live and off the record |
| `OrderManager.CancelKeepsExactly` | signald/order/manager.py:244-266 | one cancel keeps every open order on record exactly when an answer that reports the order gone leaves no other open order of its id |
| `OrderManager.CanceledReuseUncovers` | signald/order/manager.py:253-257 | a concrete failure: an id accepted twice and canceled once leaves one order open and off the record |
| `OrderManager.OrderManager.Resolve` | signald/order/manager.py:317-326 | appends one row; every crash point stays covered exactly when no live order and no unrefused send is owed on the id |
| `OrderManager.OrderManager.Submit` | signald/order/manager.py:137-184 | pending row first, then one submit, then the classification; a refusal retires the row, and the log still covers what is live exactly as `SubmitKeepsExactly` says |
| `OrderManager.OrderManager.Query` | signald/order/manager.py:237-242 | reads only, and appends nothing durable |
| `OrderManager.OrderManager.Cancel` | signald/order/manager.py:244-266 | only a not_found or canceled answer retires the row, and the log still covers what is open exactly when no other order of the id is |
| `OrderManager.OrderManager.Pending` | signald/order/manager.py:303-315 | one pass over the log: exactly the latest row of each pending id, once each, ordered by stamp and then by id, and covering all that is owed |
| `OrderManager.OrderManager.Attempt` | signald/order/manager.py:186-235 | one submit of the loop: by its rules, and ending as the answer is classified |
| `OrderManager.OrderManager.Recover` | signald/order/manager.py:186-235 | one query of the loop: only not_found licenses another submit, an order found ends it as submitted, no answer as unavailable |
| `OrderManager.OrderManager.SubmitWithRetry` | signald/order/manager.py:186-235 | main result: the trace keeps to the loop's rules action by action, and the status is what its last action says: the last submit's classification, "submitted" when a query found the order, "unavailable" when a query went unanswered; at most one order more for the id, at most `attempts` submits, an unsure one reported only when they are used up; the exact meaning of `retried` (attempts=1 reports it too), and the exact condition under which every live order stays on record |
| `OrderManager.RulesQueryBeforeResend` | signald/order/manager.py:186-235 | by those rules every submit but the first follows a query that answered not_found and its own pending row |
| `OrderManager.NotFoundIsResent` | signald/order/manager.py:186-235 | and an order reported missing is always sent again behind a new pending row: the loop never stops there |
| `Halts.HaltMachine.Observe` | signald/order/halts.py:89-150 | one update moves the machine as the specification step does and returns its snapshot |
| `Halts.HaltMachine.NoteReopen` | signald/order/halts.py:152-165 | a reopen moves it as specified; ignored unless a clear was observed |
| `Halts.HaltMachine.Report` | signald/order/halts.py:167-189 | the snapshot of the current phase |
| `Halts.UpdateIsIdempotent` | signald/order/halts.py:89-150 | the same update twice equals once |
| `Halts.NoReopenIsFinalHaltSeen` | signald/order/halts.py:106-114 | the no-reopen flag holds exactly when some halt was observed within ten minutes of the close (the text at 24-26 speaks of a halt that begins then) |
| `Halts.FlagIsSetExactlyWhen` | signald/order/halts.py:106-114 | one observation sets the flag exactly when it is a halt with ten minutes or less to a known close |
| `Halts.EarlierHaltSetsTheFlag` | signald/order/halts.py:106-114 | a concrete halt that begins thirty minutes before the close and sets the flag |
| `Halts.FinalHaltAbsorbs` | signald/order/halts.py:106-114 | from such an observation on, entries and exits stay closed whatever follows |
| `Halts.EntriesReturnExactlyWhen` | signald/order/halts.py:89-165 | main result: after the last halt or limit, entries are allowed exactly when no final halt was seen and a clear, then a reopen, then an update a cooldown later followed |
| `Halts.ExitsReturnExactlyWhen` | signald/order/halts.py:152-189 | exits come back with the reopen that starts the cooldown, exactly when no final halt was seen |
| `Halts.PhaseExactly` | signald/order/halts.py:89-165 | the phase at every moment, read off the observations since the last halt or limit |
| `Halts.CooldownIsReported` | signald/order/halts.py:167-189 | the reported cooldown runs from the reopen that started it, and is zero in every other phase |
| `Halts.ReasonNamesThePhase` | signald/order/halts.py:89-150 | the reason names the phase at every moment, and that there is no reopening exactly when a final halt was seen and the last observation is not a halt without a close in sight |
| `Halts.SinceIsTheEntry` | signald/order/halts.py:89-165 | the stamp moves with the phase and not without it |
| `Halts.UndisturbedStaysNormal` | signald/order/halts.py:89-150 | without a halt or limit the machine never leaves normal |
| `Prices.RoundedIsOnGrid` | signald/order/prices.py:19-40 | a rounded price lies on the grid of its own magnitude, also across one dollar, within half a tick of the input |
| `Prices.GridIsFixedPoint` | signald/order/prices.py:43-52 | the validator accepts exactly the prices that are whole ticks |
| `Prices.RoundIdempotent` | signald/order/prices.py:24-40 | rounding twice is rounding once |
| `Prices.StepStaysOnGrid` | signald/order/prices.py:19-21 | one tick up or down from a grid price is a grid price |
| `OrderPolicy.MarketableCrosses` | signald/order/policy.py:108-129 | a marketable limit is on the grid, strictly beyond the last price and past the cap by at most a tick |
| `OrderPolicy.RestingRests` | signald/order/policy.py:108-129 | a resting limit is on the grid, never crosses the last price and lies within a tick of it |
| `OrderPolicy.RestsOnTheTouch` | signald/order/policy.py:108-129 | a price on the grid is rested on as it is |
| `OrderPolicy.DeviationIsLeast` | signald/order/policy.py:74-84 | the cap is the least that is at least five basis points, half the liquid cost, and twice a known spread |
| `OrderPolicy.RestingBidIsPositiveExactlyWhen` | signald/order/policy.py:108-129 | a resting bid has a positive limit exactly when the price is at least the smallest tick |
| `OrderPolicy.ChildrenCarryTheOrder` | signald/order/policy.py:87-105 | one to five children, each at least a share, summing to the order |
| `OrderPolicy.ParticipationOfChildren` | signald/order/policy.py:87-105 | where no clamp decides, all children but the last keep 5% of ADV and the last exceeds it by at most 3.2 shares; where one decides, some child exceeds it |
| `OrderPolicy.EveryChildFitsExactlyWhen` | signald/order/policy.py:33-34 | the stated rule that no child exceeds 5% of ADV holds exactly when some count of at most five is the fewest that carries the quantity and its largest child, which takes the remainder, fits |
| `OrderPolicy.LastChildOvershoots` | signald/order/policy.py:102-105 | the 3.2 shares are attained |
| `OrderPolicy.PlanIsSound` | signald/order/policy.py:132-178 | main result: every plan carries exactly the quantity, is priced on the grid on the right side, and an unknown spread never widens its cap |
| `Stops.StopDistanceIsLeastUpper` | signald/order/stops.py:54-65 | the stop distance is the least upper bound of its three components, absent exactly on unusable inputs |
| `Stops.ProtectiveLimitIsSafe` | signald/order/stops.py:106-131 | a protective limit lies on the grid strictly beyond its rounded trigger, by at most the cap or a tick plus half a tick |
| `Stops.OffsetIs` | signald/order/stops.py:106-131 | the offset is the deviation's share of the reference price, whatever the sign of the deviation |
| `Stops.ClearanceLeavesTheNearest` | signald/order/stops.py:68-103 | a clear level is kept; otherwise the level moves away from the nearest cluster and off it |
| `Stops.MovedIsClearExactlyWhen` | signald/order/stops.py:68-103 | the moved level is clear of every other cluster, by the scan's own measure, exactly when no other prior extreme and no other half dollar lies within a tick of the grid price it moves to |
| `Stops.ParksOnALevelExactlyWhen` | signald/order/stops.py:89-103 | at every price near a cluster, the stop parks exactly on a level exactly when a prior extreme or the nearest half dollar is the tick price closest to where the move goes |
| `Stops.GridStopParksExactlyWhen` | signald/order/stops.py:89-103 | on grid prices from 1.01 up: exactly when the scan already listed the level one tick off on that side |
| `Stops.ClearanceParksOnAnUnseenLow` | signald/order/stops.py:89-103 | a concrete stop off the grid, moved exactly onto a prior low its scan did not list |
| `Stops.ClearanceParksOnPriorLow` | signald/order/stops.py:89-103 | a concrete stop moved exactly onto the prior low |
| `Stops.PlannedStopIsOrdered` | signald/order/stops.py:146-190 | every plan has its limit beyond its trigger, both on the grid; the trigger lies beyond the market once the distance exceeds 1.5 ticks |
| `Stops.PlannedExactlyWhen` | signald/order/stops.py:146-190 | a stop is planned exactly with a price, an ATR, an MAE multiple that fits and a level above zero |
| `Stops.PlanStartsAtTheLevel` | signald/order/stops.py:146-190 | its trigger is the level at the distance unless that lies at a cluster, which the plan then says |
| `Stops.TriggerIsBeyondExactlyWhen` | signald/order/stops.py:146-190 | main result: a distance keeps the trigger beyond the market at every reference, prior high and prior low exactly when it exceeds 1.5 ticks, or is 1.5 ticks with ties rounded away from the market |
| `Stops.CloserStopsMeetTheMarket` | signald/order/stops.py:146-190 | every shorter distance has a plan whose trigger is not beyond the market, whatever the rounding rule |
| `Stops.TieMeetsTheMarket` | signald/order/stops.py:146-190 | at exactly 1.5 ticks a tie rounded towards the market reaches it |
| `Stops.CloseStopMeetsTheMarket` | signald/order/stops.py:146-190 | a concrete one-tick stop pushed onto the market |
| `Processor.Inbox.StateOf` | signald/inbox.py:100-106 | the last row of a key wins |
| `Processor.Inbox.Pending` | signald/inbox.py:111-116 | exactly the keys whose last row is an admission |
| `Processor.Inbox.Receive` | signald/inbox.py:146-196 | validation and dedupe decide the admission, and at most one row is written, before anything else |
| `Processor.Inbox.Commit` | signald/inbox.py:198-203 | one committed row unless already committed |
| `Processor.Journal.MarkProcessed` | signald/stores.py:168-194 | one processed row, with the mandate hash only if given |
| `Processor.Journal.Handled` | signald/stores.py:196-211 | true exactly when some row suppresses the decision under that mandate |
| `Processor.SignalProcessor.Settle` | signald/processor.py:106-117 | closes the boundary row of a decided artifact |
| `Processor.SignalProcessor.Process` | signald/processor.py:119-299 | the rows that reach the three files are exactly the specified ones in the specified order; `FedExactlyWhen` and `CallRecords` say which those are |
| `Processor.SignalProcessor.Resolve` | signald/processor.py:139-299 | the same for everything behind the boundary |
| `Processor.SignalProcessor.RefreshMandate` | signald/processor.py:404-435 | a missing or unparsable file keeps the mandate in force; otherwise the file's mandate is in force unless its stamp is the loaded one |
| `IngestRuns.CallAllowed` | signald/processor.py:119-299 | every row of every call repeats nothing: no second verdict, feed row or arrival |
| `IngestRuns.AdmittedExactlyWhen` | signald/inbox.py:146-196 | the boundary lets in exactly a readable artifact with a sound envelope and some content under a key no row carries; the rest is a duplicate by its key or a dead letter |
| `IngestRuns.SameKeyExactlyWhen` | signald/inbox.py:118-128 | of two artifacts that say where they come from, the inbox takes for the same exactly those of one service, run and digest |
| `IngestRuns.AnonymousKeyExactlyWhen` | signald/inbox.py:118-128 | of two that do not, those with one declared hash, and without a declared hash only identical ones |
| `IngestRuns.TamperedBodyIsRejected` | signald/schema.py:176-186 | a declared hash binds the body: under another body the artifact no longer parses |
| `IngestRuns.UndeclaredParsesExactlyWhen` | signald/schema.py:176-186 | an artifact without a declared hash parses exactly when its body resolves, one with a declared hash when that is also the hash of the body alone |
| `IngestRuns.FedExactlyWhen` | signald/processor.py:119-299 | one call puts a decision on the feed exactly when it is not halted, is admitted, parses to that decision, is not in the future, has reference and route, is not closed, is not blocked by the gate and is no dry run |
| `IngestRuns.CallRecords` | signald/processor.py:228-299 | what a complete call adds to the journal and the feed: under a refusal by the gate one row for decision and mandate and nothing on the feed, under an emission the three rows, for an artifact that resolves to nothing one row for good, else nothing |
| `IngestRuns.FedWasEmitted` | signald/processor.py:119-299 | main result over every run with crashes and reloads: whatever is on the feed was emitted by a poll that reached the gate and was not halted, blocked or a dry run |
| `IngestRuns.EveryRunIsSafe` | signald/processor.py:119-299 | main result, every run and crash point: one feed row at most per decision, each behind its processed and signal rows; one refusal at most per decision and mandate, none after an emission; one arrival at most per key, blank objects excepted |
| `IngestRuns.EveryRunFromFreshIsSafe` | signald/processor.py:119-299 | the same from empty files |
| `IngestRuns.LostForGood` | signald/processor.py:285-287 | a processed row without its feed row is never made good |
| `IngestRuns.ObtainableExactlyWhen` | signald/stores.py:168-211 | without an inbox a decision can still reach the feed exactly when it is fed or no row without a mandate has closed it |
| `IngestRuns.ReopensExactlyWhen` | signald/stores.py:168-211 | a poll that reaches the gate records a verdict exactly when neither an emission nor a refusal under this mandate stands |
| `IngestRuns.SeenKeyIsSilent` | signald/inbox.py:182-191 | with the inbox wired a recorded key is deduped in every later state, so neither a mandate change nor a restart re-drives it |
| `IngestRuns.WiredObtainableExactlyWhen` | signald/inbox.py:146-196 | with the inbox wired a decision can still reach the feed exactly when it is fed, or no row without a mandate has closed it and some artifact of it has a key the inbox has not seen |
| `IngestRuns.BlankIsRecordedEveryPoll` | signald/inbox.py:229-249 | `{}` is dead-lettered once per poll, for any number of polls |
| `IngestRuns.LeftOpenExactlyWhen` | signald/processor.py:158-170 | one complete call leaves its accepted key open exactly on the exit that returns before settling |
| `IngestRuns.WiredLaterLeavesOpen` | signald/processor.py:158-170 | a concrete run that ends there: an invalid artifact journaled without an inbox, then polled with one |
| `IngestRuns.CompleteCallCloses` | signald/processor.py:119-299 | from an inbox and a journal that agree, a complete call leaves no key open |
| `IngestRuns.CrashFreeRunsCloseEveryKey` | signald/processor.py:106-117 | without crashes, from empty files, no accepted key is ever left pending |
| `Approvals.McpServer.constructor` | signald/mcp/server.py:534-548 | a start replays both files: first row of an id wins, tampered proposals are skipped |
| `Approvals.LoadedExactly` | signald/mcp/server.py:534-548 | a start keeps, of every proposal id, exactly the first row that still matches its pin |
| `Approvals.LoadedFirst` | signald/mcp/server.py:534-548 | and of every approval id the first row that issued it |
| `Approvals.McpServer.ProposeOrder` | signald/mcp/server.py:297-335 | numbers from the LLM, a missing or unknown verdict and BLOCK each refuse; otherwise one pinned proposal is stored, the first of its id kept |
| `Approvals.ProposedExactlyWhen` | signald/mcp/server.py:297-335 | a payload becomes a proposal exactly when it carries no number of the model's own and the gate answers ALLOW or REDUCE |
| `Approvals.McpServer.Approve` | signald/mcp/server.py:337-362 | an approval is issued exactly for a stored proposal that still matches its pin |
| `Approvals.McpServer.ConsumeApproval` | signald/mcp/server.py:465-490 | the refusals in their order, and the burn on disk before anything is released |
| `Approvals.McpServer.Spend` | signald/mcp/server.py:420-456 | without its callback a tool refuses and nothing is burned; otherwise an effect happens exactly when nothing refuses |
| `Approvals.EveryRunIsSound` | signald/mcp/server.py:465-490 | main result over crashes, restarts and edited payloads: one effect at most per approval, before it expires; a submit names exactly the approved proposal, and the payload the server holds for it is the approved one, to which the gate answered ALLOW or REDUCE |
| `Approvals.EveryOrderWasProposedAndApproved` | signald/mcp/server.py:297-490 | main result: every order of every run goes back to a step that proposed its payload and to which the gate answered ALLOW or REDUCE, a later one that approved that proposal, and a still later one that spent the approval in time |
| `Approvals.SpendAdmittedExactlyWhen` | signald/mcp/server.py:465-490 | a spend goes through exactly when its approval is issued, unburned and in time, an operator's for an allocation, and of that intact proposal for a submit |
| `Approvals.SpendIsSound` | signald/mcp/server.py:420-490 | the same for one spend and every crash point in it |
| `Approvals.BurnedIsSpentForGood` | signald/mcp/server.py:488-490 | a burn without its effect is never made good |
| `Approvals.SpendTakesEffectExactlyWhen` | signald/mcp/server.py:420-490 | over the whole run an admitted spend takes effect exactly when it survives past the burn |
| `Approvals.BoundExactlyOnSubmit` | signald/mcp/server.py:429-490 | an admitted spend is bound to the proposal its approval was issued for exactly when it is a submit |
| `Approvals.CancelSpendsAnOrdersApproval` | signald/mcp/server.py:429-436 | a concrete run: an order is proposed and approved, and its approval is spent on a cancel |
| `AuditLedger.AuditChain.Append` | signald/stores.py:258-280 | links to the tail and extends by one row; raises and writes nothing on a corrupt tail; keeps a verifying ledger verifying |
| `AuditLedger.AuditChain.Verify` | signald/stores.py:296-311 | true exactly on verifying ledgers, else the least bad index |
| `AuditLedger.LinkVerifiesExactlyOnTail` | signald/stores.py:258-280 | an appended row verifies exactly when the tail it linked to is still the tail |
| `AuditLedger.PrefixVerifies` | signald/stores.py:296-311 | every prefix of a verifying ledger verifies |
| `AuditLedger.InvStep` | signald/stores.py:60-102 | one step of any appender keeps the ledger and the lock consistent |
| `AuditLedger.EveryReachableLedgerVerifies` | signald/stores.py:60-102 | main result: in every interleaving of any number of appenders under the lock every reachable ledger verifies and only grows |
| `AuditLedger.AppendCanComplete` | signald/stores.py:60-102 | with the lock free any idle appender can write its row, linked to the whole file, and let go again |
| `AuditLedger.UnlockedAppendsFork` | signald/stores.py:258-280 | two appends off one tail verify only on a digest coincidence |
| `AuditLedger.LastHashPinsLedger` | signald/stores.py:296-311 | under an injective digest two verifying ledgers of one length with the same last hash are equal row by row |
| `AuditLedger.LastHashPinsLength` | signald/stores.py:296-311 | and of any lengths when no row digests to the genesis hash |
| `AuditLedger.EditIsCaughtByNextKeptRow` | signald/stores.py:296-311 | an edit breaks verification no later than the first later row left alone |
| `Replay.BuildIndex` | signald/validation/harness.py:425-427 | the index of a symbol maps each timestamp to its last bar |
| `Replay.VisitOne` | signald/validation/harness.py:446-582 | one visit: the exit of a held position, then the entry of a signal |
| `Replay.RunReplay` | signald/validation/harness.py:439-588 | the nested loop equals the fold over timestamps and symbols |
| `ReplayTheorems.CurveIsRunningPnl` | signald/validation/harness.py:466-469 | at every moment `equity_curve[k]` is the starting equity plus the first k row results |
| `ReplayTheorems.EveryMomentIsTidy` | signald/validation/harness.py:445-582 | every open position has a bar still to come, and every trade of its symbol ended before it was decided |
| `ReplayTheorems.ReplayEndsFlat` | signald/validation/harness.py:439-588 | main result: a finished replay holds nothing, and a symbol's holding intervals are disjoint and ordered |
| `ReplayTheorems.EveryEntryIsAccounted` | signald/validation/harness.py:445-582 | at every moment entries of a symbol are its trade rows plus its open position |
| `ReplayTheorems.EntriesAreTrades` | signald/validation/harness.py:445-588 | every entry of a finished replay produced exactly one row |
| `ReplayTrades.TakenExactlyWhen` | signald/validation/harness.py:483-580 | a signal is taken exactly when it can be entered and is judged to be worth shares, and for that many; otherwise the reason given is the one that applies |
| `ReplayTrades.JudgedOn` | signald/validation/harness.py:483-546 | what a judgement is put: the bars so far, an order on this bar on the equity realised so far, the bar's quote, and a book with the positions held and as cash what they leave |
| `ReplayTrades.PositionsAreShown` | signald/validation/harness.py:511-522 | each open position is shown at its shares, mark, stop and sleeve |
| `ReplayTrades.OpenSymbolsAre` | signald/validation/harness.py:511-522 | in the order of the symbols, each once and none left out |
| `ReplayTrades.DeployedAdds` | signald/validation/harness.py:523 | what they deploy is the sum of their values at the mark |
| `ReplayTrades.ExitsExactlyWhen` | signald/validation/harness.py:263-287 | a position leaves at a bar exactly when the bar touches its stop or target, is past flat-by, or is the last, in that order and at that price |
| `ReplayTrades.EveryTradeStands` | signald/validation/harness.py:439-588 | main result: at every moment every open position and every row is of a signal judged at its own bar, holds the shares of that judgement, filled at the next open, and left at the first bar that met an exit |
| `ReplayTrades.EverySignalIsAccounted` | signald/validation/harness.py:439-588 | at every moment the skips are those of the short symbols, one for each signal met and not taken, and at most one note on missing impact |
| `ReplayTrades.ShortSymbolsAreSkipped` | signald/validation/harness.py:425-438 | the skips a replay starts with are exactly those of the symbols with too few bars |
| `ReplayTheorems.NoLookahead` | signald/validation/harness.py:445-582 | main result: two bar sets that agree up to t give the same state throughout up to t, for judgements that ignore average entries |
| `ReplayTheorems.DecisionsSeeNoFuture` | signald/validation/harness.py:483-546 | every decision up to t is put on the same bars, request, quote, equity and cash |
| `ReplayTheorems.SizerIgnoresEntryPrices` | signald/validation/harness.py:536-551 | it is enough that the gate and the caps ignore average entries |
| `ReplayTheorems.FreshEntryIsPricedAhead` | signald/validation/harness.py:509-520 | why they must: a position entered at a timestamp is shown with a later bar's open |
| `ReplayTheorems.ExitTradesInsideTheBar` | signald/validation/harness.py:263-287 | an exit trades inside its bar, a stop never better and a target never worse than its level, the stop wins ties, the last bar always exits |
| `ReplayTheorems.RowPnlOfLong` | signald/validation/harness.py:290-387 | the result rebuilt from a row differs from the trade's own by the exit leg's cost on the move |
| `ReplayTrades.RowPnlOfShort` | signald/validation/harness.py:290-387 | for a short it counts the move the wrong way round and leaves out the borrow |
| `ReplayTrades.WinningShortLowersTheCurve` | signald/validation/harness.py:290-301 | a short that costs nothing and gains moves the equity curve down by as much as it gained |
| `ReplayTrades.NetIs` | signald/validation/harness.py:329-369 | what a trade earns: the move in its direction, less the slippage of both legs, the fees on both and a short's borrow for the days it was held |
| `ReplayTrades.RowIs` | signald/validation/harness.py:329-389 | a row repeats its trade: shares, prices, mean slippage, fees, and the result per risk taken |
| `ReplayTrades.ImpactIsNoted` | signald/validation/harness.py:473-476 | the note on missing impact is written with the first trade one of whose legs has no estimate |
| `Accumulators.MaxDrawdown` | signald/lineage.py:275-284 | the one-pass loop returns the largest fall between any two points of the cumulative path |
| `Accumulators.MaxDrawdownMeaning` | signald/lineage.py:275-284 | that number is unique, non-negative, and zero exactly when no value is negative |
| `Accumulators.Sweep` | signald/validation/harness.py:706-720 | the sweep over sorted intervals returns the measure of their union |
| `Accumulators.MergedHolding` | signald/validation/harness.py:700-720 | the same for any rows in any order |
| `Accumulators.HoldingWithinSpan` | signald/validation/harness.py:688-697 | the union never exceeds the overall span |
| `Accumulators.ExposurePct` | signald/validation/harness.py:688-697 | exposure is union over span, absent exactly without a span, and the clamp at 1 never binds |
| `NeweyWest.EnergyIsBartlett` | signald/validation/stats.py:336-347 | the energy of the sliding windows is the Bartlett-weighted sum of autocovariances |
| `NeweyWest.LongRunIsEnergy` | signald/validation/stats.py:336-347 | the long-run variance is that energy scaled, so never negative, for every series and lag count |
| `NeweyWest.VarianceVanishesExactlyOnConstants` | signald/validation/stats.py:336-350 | it is zero exactly on constant series |
| `NeweyWest.Autocovariance` | signald/validation/stats.py:336-347 | the inner sum |
| `NeweyWest.Accumulate` | signald/validation/stats.py:336-347 | the accumulation loop computes the long-run variance |
| `NeweyWest.NeweyWestT` | signald/validation/stats.py:321-350 | errors exactly on no data or negative lags, zero exactly on constants, else the value whose square is the squared mean over the positive variance, with the sign of the mean |
| `NeweyWest.RuleLagsIsTheRule` | signald/validation/stats.py:331-336 | the default lag count is the largest below the length that satisfies the rule of thumb |
| `NeweyWest.RuleOfThumb` | signald/validation/stats.py:332-333 | cleared of its roots the rule is the rule: a lag count satisfies it exactly when it is at most four times the ninth root of the squared hundredth of the length |
| `NeweyWest.LagsAreCut` | signald/validation/stats.py:334-336 | the lags asked for are used as they are, up to one less than the length |
| `Tail.TailCountIsLeast` | signald/risk/tail.py:97-114 | the number of losses averaged is the least positive one that covers the tail's share of them |
| `Tail.WorstMeanIsWorst` | signald/risk/tail.py:97-114 | sort, slice and mean is the greatest mean over all choices of that many losses: no choice exceeds it and one attains it |
| `Tail.PermutationInvariant` | signald/risk/tail.py:97-114 | invariant under permutation |
| `Tail.Monotone` | signald/risk/tail.py:97-114 | pointwise monotone |
| `Tail.Subadditive` | signald/risk/tail.py:97-114 | subadditive over paired series |
| `Tail.BetweenMeanAndMax` | signald/risk/tail.py:97-114 | between the mean and the maximum |
| `Tail.ConfidenceMonotone` | signald/risk/tail.py:97-114 | non-decreasing in the confidence |
| `Tail.TranslationInvariant` | signald/risk/tail.py:97-114 | a certain extra loss adds itself |
| `Tail.PositivelyHomogeneous` | signald/risk/tail.py:97-114 | scales with leverage |
| `Tail.EstimateDominates` | signald/risk/tail.py:145-190 | the estimate dominates every component and is the one it names |
| `Tail.EstimateIsMadeOf` | signald/risk/tail.py:145-190 | there is an estimate exactly when the confidence is a probability and no loss is negative; its components are those of the three estimators, and a thin or flat history flags it |
| `Tail.StressIsWorstShock` | signald/risk/tail.py:125-142 | the stress component is the worst of the three shocks, at a weight cut to between none and all |

## Left out

- Approvals.EveryRunIsSound: calls are taken one at a time; the server's threads share no lock, so two requests interleaving inside one check are not modelled. An edited payload keeps its pinned hash; rows forged with a matching hash, or removed from the approvals file, are not modelled.
- AuditLedger.EveryReachableLedgerVerifies: lock takeover after a timeout or from a dead process is left out; it fails open on purpose (signald/stores.py:44-48), so two appenders may then overlap.
- IngestRuns.EveryRunIsSafe: one daemon; the processor's second read of the artifact is taken to see what the inbox saw, and the `sha256:` prefix of a declared hash is taken off beforehand.
- SessionExposure.AckedDollarsAreBounded: orders are taken at the price they were sized on; a marketable limit may lie beyond it by the deviation cap.
- OrderManager.Broker.Cancel: an order leaves the open ones by a cancel only; fills that finish an order are folded in `OrderState`.
- EndToEnd.SizedOrderFitsEveryCap: the order's price is the request's; the limit price that policy chooses afterwards may lie beyond it by the deviation cap. Orders with a planned notional are outside it, since the sizer does not see that field.
- OrderPolicy.PlanIsSound: the per-child notional, rounded to cents, and the rationale text.
- ReplayTheorems.NoLookahead: the sorting of bars and symbols and the union of timestamps happen before the model starts; bars of a held symbol without an open raise, which the model records in `raised`.
- NeweyWest.NeweyWestT: the square root is any function with the defining property of one.
- Processor.Inbox.Pending: the set of keys; the source sorts them.
- Tail.EstimateDominates: the parametric component's normal quantile is a parameter.
- Float rounding error, NaN and infinities; string trimming and case folding; reason texts; the decision's state snapshot.
- `OrderStateManager.restore`, `OrderManager.replace`, `reconcile` and `protective_orders`.
- Audit rows written inside other components, the monitor and candidate ledgers, quarantine and dead-letter files, and the latest-signal file.
- The order guard: it appears as part of what becomes of a child.
- Network, file system, clocks, configuration loading, calendars, notifier, CLI, JSON-RPC framing and API signing.
- Deflated Sharpe, bootstrap, EWMA volatility, square-root impact and correlation: transcendental or random.
- Sleeve policies, budgets beyond the engine's own caps, the promotion checklist and allocation clamps.
