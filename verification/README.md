# Verified model of the AIMOS trading runtime

This project models the algorithms and state machines at the core of the AIMOS trading runtime and proves what
they promise. Prices, sizes and scores are real numbers. Where the program updates an object in place, the model
is a class whose methods are proved against functions on the value of its state, and the promises are lemmas about
these functions, most of them over every run.

| file | component |
|---|---|
| `Calibration.dfy` | isotonic regression by pooling adjacent violators |
| `Model.dfy` | ROC-AUC from rank sums |
| `OrderBook.dfy` | the greedy walk through the book |
| `Evaluator.dfy`, `PositionSizer.dfy`, `RiskManager.dfy`, `Decide.dfy` | the decision gate and its three stages |
| `Journal.dfy` | five tables on one hash chain |
| `RateLimit.dfy`, `Ceilings.dfy`, `Budgeter.dfy` | token buckets, priority queues, throttling, restoring and back-off, as values and as objects |
| `Broker.dfy`, `BrokerOrders.dfy`, `BrokerExits.dfy`, `BrokerExcursions.dfy`, `BrokerTargets.dfy`, `BrokerSharedIds.dfy`, `BrokerLedger.dfy`, `BrokerHistory.dfy`, `BrokerSnapshot.dfy`, `PaperBroker.dfy` | the simulated broker |
| `MultiVenue.dfy`, `Performance.dfy` | two-leg arbitrage over several venues, and the performance report |
| `Tiers.dfy`, `TierEngine.dfy` | tier membership with hysteresis |
| `Management.dfy`, `ManagementRules.dfy`, `PositivePrices.dfy`, `TradeManager.dfy` | stop management of an open position |
| `Limiter.dfy` | the sliding-window request limiter |
| `Layers.dfy`, `SettingsStore.dfy` | layered configuration: pure merge, and in-place update of dictionary objects |
| `Schemas.dfy`, `Numerics.dfy` | shared data contracts; sums, order and cardinalities |

`dafny verify dfyconfig.toml` checks everything.

## Reading the results

Several promises hold only under a condition that a caller can check. Where that is so, the code is modelled as it
is, a case in which the promise fails is shown, and the condition is proved. For these it is the exact one:

- **Exit-slippage cap.** The documentation calls the result the largest size that clears. The code returns the last
  halving, never probed, when no probe clears; the result clears exactly if that one does
  (`ExitCapClearsIff`, `ExitCapMayNotClear`).
- **Stop ratchet.** Documented as never widening. It ratchets in every run exactly if the break-even threshold is at
  most the trailing threshold, or is not positive with a trail that is not negative (`RatchetsIff`). Prices are any
  reals there. With positive prices only, it ratchets also if the break-even price is not positive
  (`RatchetsAtPositivePricesIff`).
- **Opening books.** The venues' balances add up to the starting total exactly if the venues are distinct and there
  is one, or the total is zero (`StartTotalIff`).
- **Priority classes.** Documented as last are the classes that are not listed. They are exactly if no class is listed
  twice (`UnlistedLastIff`).
- **Layered settings.** Merging is associative exactly if nothing clashes (`AssociativeIff`, `ClashExample`).
- **Targets and shared decision ids.** Excursions are kept by decision id. MAE and MFE are in range, and stop exits
  agree with them, in every run. With no order waiting or placed under the id of a position, its MFE stays within its
  target exactly if it is within it now and no position of another symbol under the id may gain more
  (`TargetHoldsIff`, `SharedIdBreaksMfe`; bars are what a market shows, open and close between low and high);
  in runs whose orders carry ids of their own symbol it always does (`MfeWithinTarget`).
- **Hysteresis.** A member leaves T1 only after enough low scans in a row. That it leaves whenever there were enough
  holds in every run exactly if the demotion threshold is not above the promotion threshold, or T1 has no slot
  (`HysteresisExactIff`).
- **Request limiter.** After calls in order, the queue answers as the full history would, for every limit and window,
  exactly if the next call is in order too (`AgreesIffForward`).
- **Edited journals.** With the hashes that rows hang on left alone, an edit is noticed exactly if the first edited row
  does not carry the hash of its payload (`EditDetectedIff`). So a changed payload is noticed, and so is a changed row
  hash, if the links still end.
- **Tampered journals.** Whatever rows were removed, added, made to hang elsewhere or rewritten: a walk that verifies is
  what was written exactly if it ends at the stored tip (`TipDecidesIff`). The program never compares the two, so it
  does not notice a payload rewritten together with its row hash (`RewriteNotNoticed`), nor a row that was removed or
  made to hang elsewhere, with nothing else where it hung (`CutNotNoticed`).
- **Links that do not end.** The walk ends exactly if as many hops as there are rows lead to a hash that no row hangs
  on (`EndsIff`); otherwise the loop would not end either, for instance on a row that hangs on its own hash
  (`SelfLinkNeverEnds`).

Two more limits of what is claimed:

- **Spelling of tier keys.** Members are looked up under their upper-case names, so the hysteresis of a base is proved
  for scans in which no other spelling of it reaches the promotion threshold; scores under other spellings read as zero
  (`OtherSpellingsReadAsZero`).
- **Rate budget.** A restore does not refill first, so the bound over stretches that cross one is in terms of the base
  rate (`RateBound`). As long as an exchange stays halved, the bound is half of that (`HalvedRateBound`). A request
  may be granted past a waiting one of equal rank (`GrantedIff`).

The hash is a parameter of the journal. Its properties appear as hypotheses where they are needed: digests of one
length, and no collision among the strings that are hashed in the run at hand, nor with the root.

## Model

| member | source | states |
|---|---|---|
| `Calibration.IsotonicFit` | aimos/learning/calibration.py:28-51 | The fit of y along any order an argsort of x may return is the isotonic regression of y: same length, nondecreasing, same sum, and its squared error is below that of every other nondecreasing sequence by at least their squared distance; empty input gives the empty model. |
| `Calibration.PoolAdjacentViolators` | aimos/learning/calibration.py:37-46 | The pooling loop ends with blocks that partition the samples in order, one mean and weight each, the means nondecreasing and no prefix of a block below its mean. |
| `Calibration.ExpandBlocks` | aimos/learning/calibration.py:48-50 | The expansion loop computes the expansion: each value repeated as often as its rounded weight says. |
| `Calibration.PoolViolators` | aimos/learning/calibration.py:42-46 | Pooling two adjacent violators keeps the block facts for their weighted mean. |
| `Calibration.StackPool` | aimos/learning/calibration.py:42-46 | One turn of the inner loop keeps the stack facts, and the samples it stands for. |
| `Calibration.BlockGap` | aimos/learning/calibration.py:42-51 | Abel summation over one block: what any nondecreasing sequence loses against the block mean is never negative. |
| `Calibration.ExpandOptimal` | aimos/learning/calibration.py:42-51 | The expanded blocks are closer to the samples than any nondecreasing sequence, by at least its squared distance to them. |
| `Calibration.ExpandPreservesSum` | aimos/learning/calibration.py:48-51 | The expansion of the blocks has one value for each sample, and the values add up to the samples. |
| `Calibration.RegressionIsUnique` | aimos/learning/calibration.py:28-51 | A nondecreasing sequence that is no worse than the fit is the fit, so the result of a fit is determined by its contract. |
| `Model.Auc` | aimos/learning/model.py:86-98 | AUC is 0.5 without both classes, otherwise the share of (positive, other) pairs in which the positive is ranked higher; with 0/1 labels it lies in [0, 1]. |
| `Model.RankSumIdentity` | aimos/learning/model.py:95-98 | The rank sum of the positives less P(P+1)/2 counts the pairs in which a positive is ranked above another sample, for any sorting permutation. |
| `Model.PairCountBounds` | aimos/learning/model.py:86-98 | With 0/1 labels those pairs contain all strictly ordered (positive, negative) pairs and are contained in the weakly ordered ones. |
| `Model.PairCountExact` | aimos/learning/model.py:86-98 | Without score ties across the classes they are exactly the strictly ordered pairs, whatever the argsort did with ties. |
| `OrderBook.SimulateMarketOrder` | aimos/data/orderbook.py:75-105 | Zero without an order, a mid or a book. Otherwise the distance from mid, in basis points, of the average price of an allocation that spends the money level by level: each level takes what the levels before it leave, up to its notional, and only what the whole book cannot absorb is bought at the price of the last. |
| `OrderBook.WalkAllocates` | aimos/data/orderbook.py:91-103 | Such an allocation exists for every book and order, and buys the quantity of the walk. |
| `OrderBook.WalkIsBest` | aimos/data/orderbook.py:91-103 | On a price-sorted side no allocation that respects the notionals buys more from asks, or sells less into bids, than the walk. |
| `OrderBook.InOrderIsBest` | aimos/data/orderbook.py:91-103 | The same between the two allocations themselves: taking in order is best. |
| `OrderBook.SlippageMonotone` | aimos/data/orderbook.py:75-105 | On a price-sorted one-sided book a larger order never slips less, and slippage is never negative, exhausted books included. |
| `OrderBook.AverageWorsens` | aimos/data/orderbook.py:91-104 | The average price of the walk does not improve as more is spent. |
| `OrderBook.FilledSlope` | aimos/data/orderbook.py:91-103 | No further dollar buys more than it would at a price no worse than every level. |
| `OrderBook.VwapBeyondMid` | aimos/data/orderbook.py:104-105 | The average price lies on the book's side of mid, so the absolute value is a one-sided distance. |
| `Evaluator.Evaluate` | aimos/execution/evaluator.py:53-83 | Every candidate is marked with its score or the reason it was dropped; the winner is the first best survivor, or, if that trade falls short of the minimum score, the last candidate to stand aside, or a synthetic one. |
| `Evaluator.ScreenAll` | aimos/execution/evaluator.py:56-76 | The loop marks all candidates and collects the survivors in order, and the last candidate that stands aside. |
| `Evaluator.FirstBest` | aimos/execution/evaluator.py:80 | max by score returns the first candidate to reach the best score. |
| `Evaluator.KeptMeansSound` | aimos/execution/evaluator.py:65-76 | A directional candidate survives exactly when it has a stop, a positive expectation after costs, and costs within the permitted fraction of its move. |
| `Evaluator.SurvivesIff` | aimos/execution/evaluator.py:65-76 | In the plan's own fields: a directional plan survives exactly when it names a positive entry and a stop elsewhere, its costs are within the permitted fraction of a favourable move, and confidence * (rr + losing R) exceeds losing R + costs over the distance from entry to stop in basis points of the entry. |
| `Evaluator.ShareOfExpectation` | aimos/execution/evaluator.py:27-31 | The share of a score that the expectation earns: all from the cap on, none without a cap or an expectation, in proportion in between. |
| `Evaluator.ScoreFromBest` | aimos/execution/evaluator.py:94-101 | A score is the sum of the weights, less each weight times what its figure lacks: expectation, confidence, opportunity, calm. |
| `Evaluator.SoundCostsBounded` | aimos/execution/evaluator.py:87-92 | With costs that are no credit, a surviving plan hopes for a real move and its costs are at most the permitted fraction of it, though the gate itself is skipped for moves of zero or less. |
| `Evaluator.TakenIsSound` | aimos/execution/evaluator.py:78-83 | A taken trade is sound, reaches the minimum score, and reaches the baseline whenever standing aside was proposed. |
| `Evaluator.BestIsUnique` | aimos/execution/evaluator.py:80 | There is at most one winner. |
| `PositionSizer.Size` | aimos/execution/position_sizer.py:48-102 | Rejected with its reason without geometry; otherwise the size is the least of all supplied caps, named by the first cap to allow it, rejected with its reasons unless positive and worth an order, and written into the plan with the reason for the cut. |
| `PositionSizer.CapCandidates` | aimos/execution/position_sizer.py:63-85 | The list holds every supplied cap once, in order, with its value. |
| `PositionSizer.ExitSlippageCap` | aimos/execution/position_sizer.py:110-121 | None without a book or a mid; otherwise the risk size halved until its full exit clears, at most 32 times. |
| `PositionSizer.ExitCapClearsIff` | aimos/execution/position_sizer.py:110-121 | The exit cap clears the slippage limit exactly when the last halving would, though the loop never probes that one; for any number of probes and any one-sided book. |
| `PositionSizer.ExitCapMayNotClear` | aimos/execution/position_sizer.py:110-121 | A book on which the size returned after 32 probes still slips too much. |
| `PositionSizer.ExitCapNearLargest` | aimos/execution/position_sizer.py:110-121 | A cap below the risk size is within a factor of two of every size that clears. |
| `PositionSizer.SmallestProbe` | aimos/execution/position_sizer.py:116-121 | The smallest size the loop returns is the risk size over 4294967296. |
| `PositionSizer.SizeClears` | aimos/execution/position_sizer.py:82-87 | The least of all caps still clears the slippage limit when some halving does. |
| `PositionSizer.RiskBounded` | aimos/execution/position_sizer.py:59-61 | The risk taken is at most the base percentage at full confidence, and equity is positive. |
| `PositionSizer.LossWithinBudget` | aimos/execution/position_sizer.py:55-61 | What the position loses at its stop is within the risk budget, and equal to it if no cap cuts the size. |
| `PositionSizer.BudgetMeaning` | aimos/execution/position_sizer.py:59-60 | The risk budget is the base percentage of equity times the confidence scale. |
| `PositionSizer.ScaleMeaning` | aimos/execution/position_sizer.py:59 | The scale is the confidence in units of the pivot, kept within its range. |
| `PositionSizer.ExposureWithinLimit` | aimos/execution/position_sizer.py:67-72 | With the trade on, what is held of its symbol is within the concentration limit, and meets it exactly if that limit cuts the size. |
| `PositionSizer.SizeWithinShares` | aimos/execution/position_sizer.py:74-80 | The size is within its share of the day's volume and of the book, as far as these are known, and meets exactly the one that cuts it. |
| `PositionSizer.CutMeaning` | aimos/execution/position_sizer.py:87-90 | The cut that is reported is the percentage of the risk size that the cap takes away. |
| `PositionSizer.BindsUnique` | aimos/execution/position_sizer.py:87 | The binding cap and the size are determined. |
| `RiskManager.CheckMeaning` | aimos/execution/risk_manager.py:55-116 | A trade passes exactly when nothing about market, asset or day forbids it and heat, position count, bucket risk, allocations and reserve are within their limits once it is on. |
| `RiskManager.VetoMeaning` | aimos/execution/risk_manager.py:126-131 | A veto stands aside, keeps the plan's reasons and adds one; the kill switch vetoes everything. |
| `RiskManager.VetoNamesFirst` | aimos/execution/risk_manager.py:63-114 | A veto names exactly the first gate, in their order, that has something to stop, judged by the portfolio as it would be with the trade on. |
| `RiskManager.AllocationMeaning` | aimos/execution/risk_manager.py:98-124 | In money, the notional goes onto asset and bucket and comes out of the reserve. |
| `Decide.Decide` | aimos/execution/decide.py:29-62 | A trade comes out exactly when some proposal is approved by evaluator, sizer and risk manager, and then it is that proposal with score, size and reasons filled in; otherwise the plan stands aside as the proposal which the evaluation names does, or by default if none did, or carries the reasons of the stage that refused it. |
| `Decide.SizeAndGate` | aimos/execution/decide.py:52-62 | The winner is approved as sized, or refused with the sizer's or the risk manager's reasons. |
| `Decide.TakenIsSizable` | aimos/execution/decide.py:47-56 | A winner of the evaluation always has geometry to size, so the sizer's two geometry refusals cannot occur here. |
| `Decide.DecisionSound` | aimos/execution/decide.py:29-62 | An approved plan names a positive entry and a stop elsewhere, satisfies the break-even inequality and the cost limit in its own fields, and has a score of at least the minimum, and of the baseline if standing aside was proposed. |
| `Decide.DecisionWithinLimits` | aimos/execution/decide.py:29-62 | Its size is positive, worth an order and within every supplied cap; its risk is positive and at most base percentage times the largest confidence scale; all portfolio limits hold once it is on. |
| `Decide.DecisionLoss` | aimos/execution/decide.py:52-71 | The new risk it brings, in money, is what it loses at its stop, and that is within the risk budget. |
| `Decide.DecisionExitClears` | aimos/execution/decide.py:52-62 | Its full exit clears the slippage limit if the risk size halved 32 times does. |
| `Journal.ChainReconstructed` | aimos/journal/journal.py:83-95 | After any interleaving of writes to the five tables, following the links from the root ends, returns every row exactly once in the order of writing, ends at the stored tip, and verifies. |
| `Journal.EditDetectedIff` | aimos/journal/journal.py:117-135 | Payloads and stored row hashes of any rows may have been replaced. The verdict on the walk is broken exactly when some row was edited and the first edited one in the order of writing does not carry the hash of its own payload, and then it names the hash which that row carries. |
| `Journal.TipDecidesIff` | aimos/journal/journal.py:117-135 | In tables tampered with in any way (rows removed, added, made to hang elsewhere, rewritten), a walk that verifies is what was written exactly when it ends at the stored tip. |
| `Journal.RewriteNotNoticed` | aimos/journal/journal.py:117-135 | A walk that verifies off the written chain: if the first edited row carries the hash of its new payload, the walk exists, ends at this row and verifies. |
| `Journal.RewriteIsDeadEnd` | aimos/journal/journal.py:377-386 | No row hangs on the hash of such a row. |
| `Journal.CutNotNoticed` | aimos/journal/journal.py:117-135 | A walk that verifies short of the tip: if the first k rows stand as written and nothing hangs on the hash of the last of them, because the next row was removed or made to hang elsewhere, the walk is these k rows and verifies. |
| `Journal.TamperDetected` | aimos/journal/journal.py:117-135 | Whatever payloads are replaced with the stored hashes left alone, the walk exists and reports the stored hash of the first replaced row in the order of writing; it verifies if nothing was replaced. |
| `Journal.EditedLinksEnd` | aimos/journal/journal.py:377-386 | With the hashes left alone the links end as they did. |
| `Journal.HashesDistinct` | aimos/journal/journal.py:33-34 | In a chain of rows all hashes are distinct and none is the root, if digests have one length and the hashed strings do not collide. |
| `Journal.TablesHoldChain` | aimos/journal/journal.py:83-95 | The tables together hold exactly the rows of the chain. |
| `Journal.TableHoldsOwn` | aimos/journal/journal.py:83-112 | Each table holds the rows of its own writes, and those only, in the order of writing. |
| `Journal.PayloadEditMisfits` | aimos/journal/journal.py:127-134 | An edited payload under its old hash does not fit it. |
| `Journal.VerifyFrom` | aimos/journal/journal.py:127-135 | From any row on, the verdict on a walk is sound if nothing was edited there, and otherwise decided by the first edited row alone. |
| `Journal.EndsIff` | aimos/journal/journal.py:377-386 | The links from the root end exactly when as many hops as there are rows lead to a hash that no row hangs on. |
| `Journal.ChainOrder` | aimos/journal/journal.py:377-386 | The loop returns the walk along the links, whenever they end. |
| `Journal.SelfLinkNeverEnds` | aimos/journal/journal.py:377-386 | In any table in which the row at the root hangs on its own hash the links do not end. |
| `Journal.WalkUnique` | aimos/journal/journal.py:377-386 | There is at most one walk. |
| `Journal.VerifyOrdered` | aimos/journal/journal.py:127-135 | The loop returns the verdict and the stored hash of the first row that is not linked. |
| `Journal.Journal.Write` | aimos/journal/journal.py:83-95 | A write appends one row, hanging on the tip, to its table, and moves the tip to its hash. |
| `Journal.Journal.AllRowsInOrder` | aimos/journal/journal.py:117-125 | The rows come back along the links. |
| `Journal.Journal.Verify` | aimos/journal/journal.py:127-135 | The verdict on the walk along the links. |
| `RateLimit.RateBound` | aimos/data/ratelimit.py:57-92 | Over any stretch of any run of acquires, drains, throttles and registrations of other limits, a bucket grants at most its base capacity plus what the base rate refills in that time, and 0 <= tokens <= capacity <= base. |
| `RateLimit.HalvedRateBound` | aimos/data/ratelimit.py:133-153 | Over any stretch that ends before the halving of its exchange does, a halved bucket grants at most half its base capacity plus what half the base rate refills in that time, and its capacity stays within that half. |
| `RateLimit.ThrottleHalves` | aimos/data/ratelimit.py:133-144 | A throttle leaves every bucket of its exchange within half its base capacity, halved for the set time. |
| `Ceilings.RunIsLawful` | aimos/data/ratelimit.py:133-153 | In every run each bucket has its base capacity, or half of it while its exchange waits for the end of a halving. |
| `Ceilings.HalvingEnds` | aimos/data/ratelimit.py:146-153 | Once that wait is over, or if there is none, any acquire or drain on the exchange leaves all its buckets with their base capacity; until then it moves no ceiling. |
| `Ceilings.ThrottleCeilings` | aimos/data/ratelimit.py:133-140 | A throttle leaves every bucket of its exchange at half its base, cuts its tokens to that, and moves no other. |
| `Ceilings.IdleGrantsBase` | aimos/data/ratelimit.py:146-190 | After a window without requests, with no back-off, no queue and no halving left to wait for, requests that arrive together are all granted up to the whole base capacity. |
| `Ceilings.RefillShare` | aimos/data/ratelimit.py:74-81 | An empty bucket is filled to the share of the window that has passed. |
| `Ceilings.RefillSplits` | aimos/data/ratelimit.py:74-81 | However often it is looked at, a bucket fills the same. |
| `Ceilings.ThrottleHoldsBack` | aimos/data/ratelimit.py:133-157 | A throttle holds its exchange back exactly until the time it says, one second by default: nothing is granted there before, in any run without another throttle on it, and it does not hold back afterwards. |
| `Ceilings.RegisteredIsFull` | aimos/data/ratelimit.py:121-125 | A limit that is registered can be used up at once; other buckets and all queues stand. |
| `Ceilings.RunCounts` | aimos/data/ratelimit.py:133-190 | The counters count the queued requests and the throttles of a run. |
| `RateLimit.UnlistedLastIff` | aimos/data/ratelimit.py:110-129 | Classes go in the order of the list; a class that is not listed goes after all of them exactly if no class is listed twice. |
| `RateLimit.StepBudgeted` | aimos/data/ratelimit.py:133-211 | Each operation that leaves a ceiling within a cap spends no more from the bucket than it had and refilled under that cap. |
| `RateLimit.CeilingLowersLevel` | aimos/data/ratelimit.py:69-72 | Halving and restoring the ceiling within a cap never raise what a bucket could hold by any given time at the rate of that cap. |
| `RateLimit.LevelRises` | aimos/data/ratelimit.py:74-81 | That level rises at no more than the rate of the cap. |
| `RateLimit.RequestsConserved` | aimos/data/ratelimit.py:161-214 | In every run each acquire that names a bucket has been granted once or is waiting in a queue. |
| `RateLimit.GrantedIff` | aimos/data/ratelimit.py:161-190 | An acquire is granted exactly when no strictly more important request waits on its exchange, the exchange is not backing off, and the refilled bucket can pay. |
| `RateLimit.DrainReleasesPrefix` | aimos/data/ratelimit.py:192-211 | A drain releases a prefix of its exchange's queue and touches no other queue. |
| `RateLimit.DrainKeepsOrder` | aimos/data/ratelimit.py:192-211 | Everything released precedes everything left in (rank, arrival) order. |
| `RateLimit.DrainStops` | aimos/data/ratelimit.py:198-211 | A drain releases nothing during back-off, and otherwise stops only at a head whose bucket cannot pay. |
| `RateLimit.ServeStops` | aimos/data/ratelimit.py:202-210 | Serving again at the same instant serves nothing. |
| `RateLimit.PayableIff` | aimos/data/ratelimit.py:87-92 | Some wait lets a bucket pay exactly when the cost is within its capacity; a larger request blocks its queue. |
| `RateLimit.PushAdds` | aimos/data/ratelimit.py:185-188 | A request joins the queue without any other being lost or repeated. |
| `RateLimit.PushOrdered` | aimos/data/ratelimit.py:185-188 | The queue stays in (rank, arrival) order. |
| `RateLimit.AcquireKeepsValid` | aimos/data/ratelimit.py:161-190 | An acquire keeps buckets sound, queues ordered and their requests payable from registered buckets. |
| `RateLimit.DrainKeepsValid` | aimos/data/ratelimit.py:192-211 | So does a drain. |
| `RateLimit.RegisterKeepsValid` | aimos/data/ratelimit.py:121-125 | So does registering a limit. |
| `RateLimit.StepKeepsValid` | aimos/data/ratelimit.py:133-211 | So does every operation of a run. |
| `RateLimit.TurnsAreServed` | aimos/data/ratelimit.py:202-210 | Taking turns at the head one by one is serving the queue. |
| `Budgeter.TokenBucket.constructor` | aimos/data/ratelimit.py:57-63 | A new bucket is full at its base capacity. |
| `Budgeter.TokenBucket.SetCeilingFraction` | aimos/data/ratelimit.py:69-72 | The capacity becomes the fraction of the base, the tokens are cut to it, without a refill. |
| `Budgeter.TokenBucket.Refill` | aimos/data/ratelimit.py:74-81 | Tokens refill linearly up to the capacity; a clock that has not advanced changes nothing. |
| `Budgeter.TokenBucket.Available` | aimos/data/ratelimit.py:83-85 | The tokens after a refill. |
| `Budgeter.TokenBucket.TryConsume` | aimos/data/ratelimit.py:87-92 | After a refill the cost is taken exactly if it is there. |
| `Budgeter.RateLimitBudgeter.RegisterLimit` | aimos/data/ratelimit.py:121-125 | A full bucket under its key, a queue for its exchange, everything else as it was. |
| `Budgeter.RateLimitBudgeter.NoteThrottle` | aimos/data/ratelimit.py:133-144 | Every bucket of the exchange is halved, the two waits are set, the back-off is returned. |
| `Budgeter.RateLimitBudgeter.MaybeRestoreCeiling` | aimos/data/ratelimit.py:146-153 | Once the wait is over every bucket of the exchange is back at its base. |
| `Budgeter.RateLimitBudgeter.Acquire` | aimos/data/ratelimit.py:161-190 | The object does what the value-level acquire does, including the error for an unknown bucket. |
| `Budgeter.RateLimitBudgeter.Drain` | aimos/data/ratelimit.py:192-211 | The object does what the value-level drain does, and reports the classes released in order. |
| `Broker.FillPrice` | aimos/execution/broker/paper.py:177-185 | A market order fills at the open; a limit order fills at its limit, which then lies within the bar, and stays only if it has none or the bar misses it; a price found is positive. |
| `BrokerOrders.BarFills` | aimos/execution/broker/paper.py:163-203 | Which orders fill and at what price; the last of them leaves its position, with quantity times price its size in money; their fees are paid, one fill each is recorded; other symbols are left alone. |
| `BrokerOrders.StayingOne` | aimos/execution/broker/paper.py:163-175 | A single order stays exactly if it does not fill. |
| `BrokerOrders.StayingConcat` | aimos/execution/broker/paper.py:163-175 | The orders that stay of two lists are those of the one followed by those of the other. |
| `BrokerOrders.CancelOne` | aimos/execution/broker/paper.py:151-152 | A single order is dropped exactly if it is of the symbol. |
| `BrokerOrders.CancelConcat` | aimos/execution/broker/paper.py:151-152 | Cancelling goes order by order, too. |
| `BrokerOrders.PlaceMeaning` | aimos/execution/broker/paper.py:64-69 | What is taken as an order, and which plugins' orders rest at a limit. |
| `BrokerExits.ExitsDecided` | aimos/execution/broker/paper.py:205-223 | The position held when exits are decided is closed at its stop if the bar reaches that, whatever its target; at its target if the bar reaches that and not the stop; and stays as it is exactly if the bar reaches neither. A close brings quantity times gain less the fee into outcome, cash and realized profit. |
| `BrokerExits.ResultInR` | aimos/execution/broker/paper.py:265-270 | The result in R times the position's risk is the profit. |
| `BrokerExits.OpenBarWidens` | aimos/execution/broker/paper.py:225-250 | A bar that closes nothing widens the excursion to its own low and high, in R, and no other excursion. |
| `BrokerExits.FundingMeaning` | aimos/execution/broker/paper.py:312-319 | Over eight hours a long pays the rate on its marked notional and a short receives it; other stretches in proportion; nothing without a position. |
| `BrokerExcursions.ExcursionsRanged` | aimos/execution/broker/paper.py:225-250 | In every run, whatever ids the orders carry, -1 <= MAE <= 0 <= MFE for every excursion, positions are keyed by their own symbol, and entries are positive. |
| `BrokerExcursions.AdverseIsRanged` | aimos/execution/broker/paper.py:237-248 | No bar takes more than the initial risk off a position, whichever side its stop is on. |
| `BrokerExcursions.StopExitAgrees` | aimos/execution/broker/paper.py:205-280 | In every reachable state, whatever ids the orders carried, a stop on the loss side that is hit reports a gross result (net result plus exit fee, in R) of -1 and a MAE of -1. |
| `BrokerExcursions.ExitReported` | aimos/execution/broker/paper.py:258-280 | An exit closes the position, and the last outcome reports its gross result as the distance of the exit price in R. |
| `BrokerTargets.TargetExitAgreesIff` | aimos/execution/broker/paper.py:205-280 | A profit-side target that is hit reports its distance as gross R; the reported MFE equals it exactly when the excursion was within the target before the bar. |
| `BrokerTargets.TargetExitAgrees` | aimos/execution/broker/paper.py:205-280 | In every run whose orders carry ids of their own symbol the reported MFE equals gross R on a profit-side target. |
| `BrokerTargets.MfeWithinTarget` | aimos/execution/broker/paper.py:225-250 | In such a run no open position has an MFE beyond its target. |
| `BrokerTargets.DoKeepsInv` | aimos/execution/broker/paper.py:64-321 | Every operation keeps ids apart and MFEs within targets, for orders with ids of their own symbol. |
| `BrokerSharedIds.TargetHoldsIff` | aimos/execution/broker/paper.py:193-250 | After any run of market bars, with no order waiting under the id of an open position with a target: its MFE stays within the target, whatever market bars and other operations follow without another order under the id, exactly when it is within it now and no position of another symbol under the id may gain more than this target. |
| `BrokerSharedIds.OutrunBreaks` | aimos/execution/broker/paper.py:225-250 | If one may, cancelling what waits in its symbol and one bar at a single price push the MFE beyond the target. |
| `BrokerSharedIds.OutrunningPrice` | aimos/execution/broker/paper.py:232-250 | For a position with room between stop and target that may gain more than t R: one positive price that shows such a gain and closes nothing. |
| `BrokerSharedIds.RunKeepsRoom` | aimos/execution/broker/paper.py:159-250 | In every run of market bars each open position has room: its stop is short of its target, and a short's stop is positive. |
| `BrokerSharedIds.NotOutrun` | aimos/execution/broker/paper.py:232-250 | Otherwise no bar shows it more. |
| `BrokerSharedIds.SharedIdBreaksMfe` | aimos/execution/broker/paper.py:193-201 | A run from a fresh broker in which two symbols are bought under one decision id, and a target two R away closes with an MFE of five. |
| `BrokerLedger.LedgerBalances` | aimos/execution/broker/paper.py:187-319 | In every reachable state cash is the start less entry fees plus exit profits less funding charged, and realized is the sum of the exit profits. |
| `BrokerLedger.TradeHistory` | aimos/execution/broker/paper.py:282-310 | One closed row for each exit, paired with the last entry of its id, then one open row for each entry left. |
| `BrokerLedger.HistoryPnl` | aimos/execution/broker/paper.py:282-310 | The rows of the history add up to the realized profit of the fills; open rows show none. |
| `BrokerHistory.HistoryPriced` | aimos/execution/broker/paper.py:187-310 | In every run whose orders carry ids of their own symbol's, each closed row shows the profit of its own two prices, quantity and side less the exit fee, and each open position has a row with its entry. |
| `BrokerLedger.ClosedRowsPnl` | aimos/execution/broker/paper.py:286-300 | The closed rows alone carry the realized profit. |
| `BrokerSnapshot.SnapshotRoundTrip` | aimos/execution/broker/paper.py:81-149 | After any run, loading a snapshot restores exactly the state it was taken of, so every later sequence of operations continues as if nothing had happened. |
| `BrokerSnapshot.DoRestorable` | aimos/execution/broker/paper.py:64-149 | Every operation keeps what a snapshot relies on: positions keyed by their own symbol, resting orders determined by their plugin. |
| `BrokerSnapshot.SavedPositions` | aimos/execution/broker/paper.py:86-117 | Positions listed in any order come back under the same keys. |
| `PaperBroker.PaperBroker.Place` | aimos/execution/broker/paper.py:64-69 | An order is taken unless it stands aside or has no size. |
| `PaperBroker.PaperBroker.CancelAll` | aimos/execution/broker/paper.py:151-152 | Exactly the orders of the symbol are dropped. |
| `PaperBroker.PaperBroker.Step` | aimos/execution/broker/paper.py:156-161 | A bar marks, fills, widens excursions and exits, in this order. |
| `PaperBroker.PaperBroker.FillPending` | aimos/execution/broker/paper.py:163-175 | Orders that fill are opened in the order placed, the others stay. |
| `PaperBroker.PaperBroker.OpenPosition` | aimos/execution/broker/paper.py:187-203 | The fee is paid, the position replaces any of its symbol, its excursion starts at zero, an entry fill is recorded. |
| `PaperBroker.PaperBroker.UpdateExcursions` | aimos/execution/broker/paper.py:225-250 | The bar's extremes, clamped to stop and target, widen the excursion of the position's id. |
| `PaperBroker.PaperBroker.CheckExits` | aimos/execution/broker/paper.py:205-223 | The stop is checked before the target. |
| `PaperBroker.PaperBroker.Close` | aimos/execution/broker/paper.py:258-280 | Cash and realized move by the net profit; outcome, fill and result in R are recorded, the excursion and the position removed. |
| `PaperBroker.PaperBroker.ApplyFunding` | aimos/execution/broker/paper.py:312-319 | An open position pays or receives funding on its last mark. |
| `PaperBroker.PaperBroker.DrainOutcomes` | aimos/execution/broker/paper.py:252-256 | The outcomes are returned and cleared. |
| `PaperBroker.PaperBroker.History` | aimos/execution/broker/paper.py:282-310 | The trade history of the recorded fills. |
| `PaperBroker.PaperBroker.StateDict` | aimos/execution/broker/paper.py:81-105 | The snapshot lists exactly the open positions, in some order, the plans of the orders in theirs, and all the rest. |
| `PaperBroker.PaperBroker.LoadState` | aimos/execution/broker/paper.py:107-149 | The state becomes what the snapshot says. |
| `MultiVenue.ArbRun` | aimos/execution/broker/multivenue.py:34-94 | After any run, same-venue legs, unknown and dry venues included: realized profit is the ledger's; total USDT is the start plus that profit exactly when the venues are distinct and there is one, or nothing was spread; with a fee between 0 and 10000 bps and a start that is not negative no venue is overdrawn. |
| `MultiVenue.ArbConserves` | aimos/execution/broker/multivenue.py:58-80 | One arbitrage moves the total, the realized profit and the ledger by the same amount. |
| `MultiVenue.ArbEarns` | aimos/execution/broker/multivenue.py:58-80 | An arbitrage that is not skipped moves the total of all venues and the realized profit by quantity * (sell price * (1 - f) - buy price * (1 + f)), with the quantity and the prices on record; it earns exactly if the bracket is positive. |
| `MultiVenue.ArbSize` | aimos/execution/broker/multivenue.py:54-58 | Its quantity is as large as the order and the buy venue's balance, fee included, allow. |
| `MultiVenue.ArbLegs` | aimos/execution/broker/multivenue.py:66-70 | The buy venue pays price and fee, the sell venue receives price less fee, no other venue is touched. |
| `MultiVenue.SkippedIff` | aimos/execution/broker/multivenue.py:47-57 | It is skipped exactly if a price is not positive or no more than one dollar's worth was ordered or can be paid for. |
| `MultiVenue.ArbStaysSolvent` | aimos/execution/broker/multivenue.py:54-70 | With a fee between 0 and 10000 bps no venue is overdrawn. |
| `MultiVenue.StartTotalIff` | aimos/execution/broker/multivenue.py:34-36 | The books open at the starting total exactly when the venues are distinct and there is one, or there is nothing to spread. |
| `MultiVenue.MultiVenueSim.constructor` | aimos/execution/broker/multivenue.py:34-36 | The starting total spread evenly over the venues. |
| `MultiVenue.MultiVenueSim.ExecuteArb` | aimos/execution/broker/multivenue.py:38-80 | Skipped when a price or the notional is not positive or the buy venue cannot fund it; otherwise both legs, the profit and the trade record. |
| `Performance.Performance` | aimos/execution/broker/multivenue.py:119-148 | Realized profit of all closed trades equals the total by strategy and the total by venue; counts, win rate, arbitrage share and largest drawdown. |
| `Performance.Summarize` | aimos/execution/broker/multivenue.py:122-132 | One pass counts wins, sums profits and groups them both ways. |
| `Performance.BreakdownAt` | aimos/execution/broker/multivenue.py:124-132 | Each group counts and sums exactly its own trades. |
| `Performance.BreakdownTotal` | aimos/execution/broker/multivenue.py:124-132 | The groups of a breakdown add up to the whole. |
| `Performance.Drawdown` | aimos/execution/broker/multivenue.py:133-138 | The running-peak loop computes the maximum drawdown. |
| `Performance.DrawdownBoundsDrops` | aimos/execution/broker/multivenue.py:133-138 | On a curve that stays nonnegative it is at least the drop from any earlier positive point to any later one. |
| `Performance.DrawdownAttained` | aimos/execution/broker/multivenue.py:133-138 | If it is not zero, some such pair attains it. |
| `Performance.DrawdownLeaves` | aimos/execution/broker/multivenue.py:133-138 | In money: of any value of such a curve all but the drawdown is left at any later point. |
| `Performance.DrawdownTakes` | aimos/execution/broker/multivenue.py:133-138 | And no more than that at some point, if it is not zero. |
| `Performance.WinsCount` | aimos/execution/broker/multivenue.py:122 | The wins are the lines with a profit. |
| `Performance.ReportGroups` | aimos/execution/broker/multivenue.py:124-132 | Each group of the report shows the profit of its strategy's, or its venue's, closed trades in both ledgers. |
| `Performance.ReportMatchesLedgers` | aimos/execution/broker/multivenue.py:119-133 | After any run of the broker and any run of the arbitrage simulator the reported realized profit is the broker's plus the simulator's. |
| `Tiers.RunCapped` | aimos/universe/tiers.py:73-148 | In every run, whatever the case of the keys, T1 and the provisional slots stay within their caps. |
| `Tiers.LeavesWhen` | aimos/universe/tiers.py:112-132 | For a base of which no other spelling reaches the promotion threshold in a scan: a scan drops it from T1 only if it scores it below the demotion threshold and is at least the demote_scans-th scan in a row of its present stay to do so; and whenever this is so, if the demotion threshold is not above the promotion threshold. |
| `Tiers.HysteresisExactIff` | aimos/universe/tiers.py:96-132 | Dropping agrees with that rule in every run exactly when the demotion threshold is not above the promotion threshold, or T1 has no slot. |
| `Tiers.Lingers` | aimos/universe/tiers.py:112-132 | With the thresholds the other way round, a base that stays in T1 for as many low scans as one likes. |
| `Tiers.StreakIsConsecutive` | aimos/universe/tiers.py:113-135 | The stored streak of a member is at most the number of low scans in a row up to now within its present stay, over any run of scans and provisional moves, and equal to it if the demotion threshold is not above the promotion threshold. |
| `Tiers.ConsecutiveReached` | aimos/universe/tiers.py:112-120 | That number is the number of scans in a stretch at the end of the run in which the base was in T1 throughout and every scan was low. |
| `Tiers.ConsecutiveIsLongest` | aimos/universe/tiers.py:112-120 | No such stretch holds more. |
| `Tiers.UpdateMember` | aimos/universe/tiers.py:112-148 | What one scan does to a member: whether it stays, and its streak; a demoted one is out, or was promoted again at once. |
| `Tiers.UpdateOutsider` | aimos/universe/tiers.py:122-135 | A base that enters T1 starts with no streak. |
| `Tiers.BestScoresEnter` | aimos/universe/tiers.py:122-135 | An eligible base outside T1 after a scan means that T1 is full and that every base the scan brought in did so on a score at least as high; keys in any spelling. |
| `Tiers.InT2Iff` | aimos/universe/tiers.py:112-148 | After a scan a base outside T1 and the provisional slots is in T2 exactly if it is ranked within T2's room among those, was in T2 before, or has just left T1. |
| `Tiers.RankingMeaning` | aimos/universe/tiers.py:137-140 | The ranking is the given one, or the bases by score, best first, equal scores in the order they came. |
| `Tiers.SortOrder` | aimos/universe/tiers.py:123-127 | So is the order of promotion. |
| `Tiers.AddMeaning` | aimos/universe/tiers.py:73-84 | A base gets a provisional slot exactly if it has one or one is free; nobody else is moved. |
| `Tiers.ClearFrees` | aimos/universe/tiers.py:86-92 | Giving a slot back frees it for another base and leaves its own in T3. |
| `Tiers.OtherSpellingsReadAsZero` | aimos/universe/tiers.py:113-124 | A member scored only under other spellings of its key reads as zero: with its streak one short of the limit and those scores below the promotion threshold it is dropped, however far above the demotion threshold they are. |
| `Tiers.UpdateCapped` | aimos/universe/tiers.py:96-148 | A scan keeps the caps. |
| `Tiers.AddCapped` | aimos/universe/tiers.py:73-84 | Adding a provisional base keeps the caps. |
| `Tiers.ClearCapped` | aimos/universe/tiers.py:86-92 | Clearing one keeps the caps. |
| `TierEngine.TierEngine.AddProvisional` | aimos/universe/tiers.py:73-84 | True if the base has a slot or got one. |
| `TierEngine.TierEngine.ClearProvisional` | aimos/universe/tiers.py:86-92 | The slot is freed and the base falls to T3; other bases are ignored. |
| `TierEngine.TierEngine.Demote` | aimos/universe/tiers.py:112-120 | The loop over the member set has the same effect in every order. |
| `TierEngine.TierEngine.Promote` | aimos/universe/tiers.py:122-132 | Eligible bases enter T1, best score first, until it is full. |
| `TierEngine.TierEngine.AssignWatch` | aimos/universe/tiers.py:137-148 | The ranking fills T2 up to its cap, members of T1 and provisional bases left out. |
| `TierEngine.TierEngine.Update` | aimos/universe/tiers.py:96-148 | One scan is the three steps in order. |
| `Management.RatchetsIff` | aimos/execution/trade_manager.py:71-93 | For every position handed over with its stop not beyond the entry: the stop never moves away from the price, in any run over any prices and ranges, exactly when break-even comes no later than trailing, or comes at a loss with the trail on the price's own side. |
| `PositivePrices.RatchetsAtPositivePricesIff` | aimos/execution/trade_manager.py:71-93 | With positive prices only, the ratchet holds in every run exactly when the thresholds are so or the break-even price is not positive: every price of a long then reaches it, none of a short does. |
| `Management.LoosensWhenOutOfOrder` | aimos/execution/trade_manager.py:71-93 | Otherwise there are a tick that trails and one that breaks even and loosens the stop, constructed from the thresholds; the first at a multiple below break-even, as close to it as one asks. |
| `Management.StopNeverLoosens` | aimos/execution/trade_manager.py:71-93 | With the thresholds in order the stop of any earlier moment is no tighter than that of any later one, and once break-even has fired the stop is never worse than the entry. |
| `Management.StopIsBestOffer` | aimos/execution/trade_manager.py:71-93 | The stop is the most protective of the initial stop and of everything any managed tick has offered: the entry on reaching break-even, its trail once the trailing threshold has ever been reached. |
| `Management.FlagsMean` | aimos/execution/trade_manager.py:71-88 | Each flag records exactly that some managed tick has reached its threshold. |
| `Management.RunEventsTell` | aimos/execution/trade_manager.py:71-97 | Following the stops in the events gives the current stop, and break-even and partial profit each fire at most once, exactly if their flag is set. |
| `Management.EventsTold` | aimos/execution/trade_manager.py:44-97 | The events of one step account for its change of stop and flags. |
| `Management.MirrorRun` | aimos/execution/trade_manager.py:44-136 | A short in a mirrored market goes through the same flags and the same events as a long, with mirrored stops. |
| `Management.NextSided` | aimos/execution/trade_manager.py:71-93 | With the thresholds in order, one step keeps the stop on its side of the entry and does not loosen it. |
| `ManagementRules.StepExits` | aimos/execution/trade_manager.py:54-68 | A step is an exit and nothing else exactly if bias and confidence, regime or behaviour invalidate the thesis, reasons in this order, or else the position is overdue and not far enough in favour; otherwise it is managed. |
| `ManagementRules.FlagsSet` | aimos/execution/trade_manager.py:71-88 | Each flag is set from the step on that reaches its threshold, in prices. |
| `ManagementRules.StopPlaced` | aimos/execution/trade_manager.py:71-93 | Break-even moves the stop to the entry, once; an active trail leaves it no further behind the price than the multiple of the range, and exactly that far if it moves it. |
| `ManagementRules.PartialMeaning` | aimos/execution/trade_manager.py:78-81 | The partial profit is the configured percentage of the quantity. |
| `ManagementRules.LiquidityMeaning` | aimos/execution/trade_manager.py:128-136 | The liquidity warning comes exactly if leaving has become more than the multiple, two by default, of what it was at entry. |
| `TradeManager.TradeManager.Step` | aimos/execution/trade_manager.py:44-97 | Thesis exit, then time stop, answer alone and leave the state as it was; otherwise break-even, partial profit, trail and liquidity events in order, with the new state. |
| `TradeManager.TradeManager.BreakEvenRule` | aimos/execution/trade_manager.py:71-76 | Break-even moves the stop to the entry, once. |
| `TradeManager.TradeManager.PartialRule` | aimos/execution/trade_manager.py:78-82 | The partial profit closes its share, once. |
| `TradeManager.TradeManager.TrailRule` | aimos/execution/trade_manager.py:84-93 | Trailing activates for good, and moves the stop only toward the price and only with a positive range. |
| `Limiter.AllowsIff` | aimos/api/server.py:158-168 | With a clock that does not run backwards for any key, a call is allowed exactly when fewer than max_hits accepted hits of its key lie in [now - window, now]. |
| `Limiter.AtMostMaxHits` | aimos/api/server.py:158-168 | Every closed interval as long as the window, wherever it lies, holds at most max_hits accepted hits of a key. |
| `Limiter.QueueAgrees` | aimos/api/server.py:161-168 | The pruned queue is the full history without a first part that is out of every window to come. |
| `Limiter.PrunedIsSuffix` | aimos/api/server.py:163-164 | Pruning an ascending queue removes exactly the hits before the cutoff. |
| `Limiter.KeyAlone` | aimos/api/server.py:161-168 | Calls under other keys make no difference to a key. |
| `Limiter.AgreesIffForward` | aimos/api/server.py:158-168 | After calls in order, the limiter gives the answer of the full history for every limit and window exactly when the next call is not earlier than any before it under its key. |
| `Limiter.BackwardCallRefused` | aimos/api/server.py:158-168 | For every late call, a limit and a window under which it is refused though its window has room. |
| `Limiter.EverythingKept` | aimos/api/server.py:161-168 | With room for all and a window that spans them, every hit is accepted and kept. |
| `Limiter.FixedWindowLimiter.Allow` | aimos/api/server.py:158-168 | The loop and the append have the effect of the value-level call. |
| `Layers.DeepMerge` | aimos/settings/config.py:11-18 | The recursive loop over the overlay's keys, in any order, computes the overlay of one nested dictionary over another. |
| `Layers.LookupInOverlay` | aimos/settings/config.py:11-18 | Every lookup in a merge, determined by the lookups in the two layers: the overlay's value alone where a plain value cuts the path, the only value where one is missing, otherwise the overlay of the two. |
| `Layers.SavedSettingWins` | aimos/settings/config.py:13-17 | What the overlay sets to a plain value is what the merge says. |
| `Layers.UntouchedSettingSurvives` | aimos/settings/config.py:13-17 | When no dictionary faces a plain value, a setting that the overlay does not mention survives. |
| `Layers.AssociativeIff` | aimos/settings/config.py:11-18 | Merging three layers from the left or from the right gives the same exactly when nowhere a plain value in the middle separates dictionaries of which the outer one does not restate the inner. |
| `Layers.AbsorbedIff` | aimos/settings/config.py:11-18 | An overlay hides a layer completely exactly when it restates every key of it at every level of shared dictionaries. |
| `Layers.ClashExample` | aimos/settings/config.py:11-18 | Three layers for which the two merges differ in a setting. |
| `Layers.SavingAgainChangesNothing` | aimos/settings/config.py:11-18 | Applying the same overlay again changes nothing. |
| `Layers.EmptyIsNeutral` | aimos/settings/config.py:11-18 | The empty dictionary is neutral on both sides. |
| `Layers.PatchesOneByOne` | aimos/settings/config.py:21-31 | The base under all saved patches equals the patches laid over it one at a time, after every update, exactly when no patch clashes with what was saved before it. |
| `SettingsStore.DeepUpdate` | aimos/settings/settings_store.py:170-176 | On dictionary objects: the base object is rewritten in place to the overlay of the two contents, only objects of the base are written, the overlay's own objects come to hang below the base, and the overlay is unchanged. |
| `SettingsStore.GraftedContent` | aimos/settings/settings_store.py:170-176 | The in-place update leaves the same nested configuration as the pure merge. |
| `SettingsStore.GraftedObjects` | aimos/settings/settings_store.py:170-176 | Nothing but objects of the two trees hangs below the base afterwards. |
| `SettingsStore.UpdateKey` | aimos/settings/settings_store.py:172-176 | One key of the overlay: a recursive update below it or a replacement, everything below other keys as it was. |
| `SettingsStore.DeepCopy` | aimos/settings/settings_store.py:99 | A copy with the same content made of new objects, none shared. |
| `SettingsStore.SettingsStore.UpdateConfig` | aimos/settings/settings_store.py:96-103 | The stored configuration becomes the overlay of the patch over what was stored, which is also returned; the patch is left as it was. |

## Left out

- Floating-point rounding, NaN and infinity: all quantities are reals, so the checks for finite values never fail; durations are not rounded to microseconds.
- numpy: an argsort is a parameter, any permutation that sorts; interpolation in `IsotonicModel.predict`, logistic regression, reliability recalibration and drift statistics are not modelled.
- Storage: the journal's tables and the settings column are values; SQL back ends, schemas, sessions, JSON encoding of payloads and encryption are not modelled.
- Journal columns beside payload and hashes (ids, symbol, timestamp): the hash does not cover them.
- Broker bars with prices that are not positive: opening at zero is a division by zero in the program, so bars are required to be positive. `BrokerSharedIds.TargetHoldsIff` also asks that open and close lie between low and high.
- Threads and locks: every operation is one atomic step.
- `heapq`: a queue is the sequence in which the heap would be popped.
- Object identity of queued orders, fills and trade records: they are values, since the program never updates them once stored. The log lines are not modelled.
- Plugins: what they propose is an arbitrary input of `Decide`.
- Formatted texts: reasons and vetoes are data, not strings.
- Missing keys in a saved broker state: `LoadState` takes a complete snapshot, so the defaults for absent entries do not appear; the broker's internal `_states` dictionary, which nothing reads, and the unused depth argument of `step` are left out.
- Saving and restoring `MultiVenueSim`, its balance rows, and `total_usdt` as a method: plain copies.
- The equity endpoints of the performance report: first and last element of the curve.
- Tier change notifications and the list of changes that `update` returns. T2 has no cap over a run: old members are not evicted, so none is claimed.
- Upper-casing covers the ASCII letters.
- Stale-order sweeps and slice exits, which the trade manager's header mentions and its code does not contain.
- Observation engines, indicators, and all network, exchange, messaging, dashboard and validation code: not part of this model.
- RateLimit.RateBound: uses the base capacity and rate over stretches that cross a restore, because restoring the ceiling does not refill first; registering the bucket itself again makes it a new, full one, so a bound starts anew there.
- Journal.EditDetectedIff: speaks of walks that end, as the program does not return otherwise, and of tables whose `prev_hash` columns are untouched; for every other tampering see `TipDecidesIff`.
- BrokerSharedIds.TargetHoldsIff: says nothing of orders that wait or are placed under the shared id, whose fill prices are not known yet.
- Entries less exits: opening a symbol again replaces its position without an exit, so nothing is claimed about their difference.
- Budgeter.RateLimitBudgeter.Acquire: the raised error is an answer value.
- BrokerSnapshot.SnapshotRoundTrip: a snapshot is a value; in the program `state_dict` hands out the live `closed_trades_r`, `_excursions` and `_last_mark`, so one that is kept in memory and not stored changes as the broker goes on.
