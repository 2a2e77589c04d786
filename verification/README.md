# A model of the RPC shield's stateful core

The shield sits in front of a Solana RPC node. Under load it asks agents to pay from a prepaid
escrow, queues paid traffic by priority, limits rates, and bans abusers. This project models the
parts of it whose guarantees hold over whole runs, and proves those guarantees for every input and
every order of events. Where the program changes state in place there is a class whose methods are
proved equal to a transition function, and the theorems are about every run of that function. The
modules named `...Effects` and `CanonicalFormat` say what the operations do in closed form, or from
the history of the run alone.

| area | files | what is proved |
|---|---|---|
| QoS scheduler | `QosModel`, `QosInvariant`, `QosTheorems`, `QosFairness`, `QosEffects`, `QosScheduler` | cap, work conservation, refusals, bounded overtaking, FIFO, accounting, and what every event does at any moment of a run |
| payment ledger | `Escrow`, `LedgerModel`, `LedgerTheorems`, `LedgerEffects`, `RedisConsume` | conservation, nonce single use and binding, exactly when a payment goes through, in-memory and Lua consume |
| deposits | `DepositModel`, `DepositSafety`, `DepositRaces`, `DepositHandler` | the exact timing under which a transaction is credited at most once |
| both together | `Accounts`, `PaymentStore` | one escrow under both protocols, from the chain to the reputation record |
| rate limiter | `SlidingWindow`, `WindowExactness`, `RedisWindow`, `RedisServer`, `RedisServerExactness`, `RedisExactness`, `RateLimit`, `RateLimitExactness`, `MemoryLimiter`, `PlanEffects` | the exact window bound under crossing times, for list and sorted set, and exactly when the two answer alike; plan loop |
| enforcement ladder | `Trust`, `LadderModel`, `LadderSafety`, `LadderRun`, `LadderCap`, `LadderCapRule`, `LadderCapRun`, `LadderStore`, `LadderEffects` | the tier of the n-th offense, how long bans last, who is banned for good, what the cap of 100 events changes, monotonicity |
| mass-ban guard | `MassBan`, `MassBanEffects` | a tight bound for any interval, over interleaved requests and store failures, and whom the guard lets through |
| admin signatures | `Canonical`, `CanonicalFormat` | which requests share a canonical string, and what it looks like |
| health probe | `HealthProbe` | counters mirror the probe history, the fallback after every event |
| pricing | `Pricing` | what a quote is, its bounds and monotonicity |
| helpers | `Options`, `Counting` | optional values, numbers of elements with a property |

## Conventions

Times are integer milliseconds and every clock reading is an input. Scheduler scores are multiplied
by 50, so `score + age / 50` is exact. Amounts are integers. A step boundary stands wherever the
program awaits something another request can change; a run is any sequence of steps in which a step
that is not possible does nothing, so theorems about all sequences are theorems about all
interleavings. Signatures, hashes, random nonces and the chain are inputs: a nonce is never issued
twice, and the chain is an arbitrary function from transaction to transfer. No proof uses automatic
induction: every lemma switches it off and makes its recursive calls itself.

## Where the code differs from its description

- The cap on concurrent requests holds exactly when `QOS_BYPASS_THRESHOLD` is at most 1 (or the
  scheduler is off or has no slots). Above 1 the fast path fills past the cap, and can pass requests
  that wait. Order within the queue and the accounting hold for every threshold.
- The scheduler's scan reads the clock again for every entry. While the clock moves by at most d ms
  during a scan, requests of equal score can leave in reverse order if they were enqueued less than
  d ms apart (`QosFairness.FifoAmongEquals`); with d = 0 they leave in order.
- `finish` and `close` are listened for from dispatch on. A response that was already closed while its
  request waited frees no slot: the slot stays taken until a release event after the dispatch
  (`QosTheorems.HeldUntilReleased`).
- In the Lua consume a nonce issued without a hint is never accepted: JSON `null` decodes to a value
  that counts as true, so the hint check refuses it. The in-memory store accepts it.
  `RedisConsume.ConsumeAgreesExactly` gives the exact family.
- At-most-once deposits rest on timing. A verification the breaker has given up on goes on in the
  background while the handler's `finally` releases the claim, and a release does not ask who owns
  the claim. `DepositRaces.AtMostOnceExactly` gives the condition: verifications and releases both
  end within the claim's life, and one of the two before the breaker's timeout. By default claim and
  breaker both have 15 s, so the condition rests on answers that come sooner.
- Requests carry the time of their arrival through the limiter, and those times can cross between
  awaits. The limit then holds exactly for intervals no longer than the window less the largest delay
  (`RateLimitExactness.PassesExactly`); only a limit of one keeps the whole window. When times cross,
  list and sorted set also answer differently: the list drops expired entries from its head only, while
  the set drops all of them. They agree exactly when no times cross or the limit is at most one
  (`RedisExactness.AlikeExactly`). On a server's clock of its own a delay of 2 ms parts them even at a
  limit of one, since the key can expire first (`RedisExactness.ServerAlikeExactly`). A query prunes the
  set, so when times cross it can change the answer to a later consume (`RedisExactness.QueriesExactly`).
- The three trust gates compare at different thresholds. They agree with the documented bands except
  for fractional scores in (50, 51) and (80, 81), which whole-number scores never reach.
- The second argument of `getAbuseHistory` is a number of entries although a duration is passed, so
  the ladder sees the newest 100 events. A third hard ban within seven days is therefore not always
  made permanent. With a history life of at least seven days, the rule holds on every run if and only if
  a single hard ban is enough (`LadderCapRule.RuleExactly`); for every larger number there is a run that
  breaks it, and `LadderCapRun.CapHidesHardBans` has more of them at the default thresholds.
  `LadderCap.RuleOnOneCall` tells for one call, from the hard bans stored and those among the newest
  hundred, whether the rule is kept. While at most 100 events of the key fall within seven days nothing is lost
  (`LadderCap.CapNeverMatters`, `LadderCap.RuleHoldsWhileEventsFit`), and for a key that offends within
  five minutes the cap never changes a decision (`LadderRun.NthDecision`).
- The mass-ban guard's fixed windows let 2 max - 1 requests through in one window length, no more.
- An overload signal sets the fallback to 30 s from now. It cuts the pending fallback short exactly
  when a failed probe forced that fallback less than 30 s ago (`HealthProbe.OverloadShortensExactly`);
  `HealthProbe.OverloadShortensForcedWindow` has such a run.
- Quotes stay within the maximum price exactly when the base price does not exceed it.

## Model

| member | source | states |
|---|---|---|
| QosScheduler.Scheduler.Scan | index.js:243-248 | with the clock read for every entry, the scan stops on the first largest score as read; within one reading that is the first largest time-independent key `50 * score - enqueuedAt`, and a moving clock favours only later entries, by less than it moved |
| QosScheduler.Scheduler.DispatchBest | index.js:249-267 | one dispatch, with the clock read for every entry of its scan, removes the pick, takes a slot and counts it; a callback that throws gives the slot back |
| QosScheduler.Scheduler.Take | index.js:249-257 | the entry leaves the queue, is counted and holds a slot |
| QosScheduler.Scheduler.GiveBack | index.js:258-262 | a slot that is still held is freed, and its request can free none again |
| QosScheduler.Scheduler.OnSlotFree | index.js:240-269 | the loop, with the recursion through throwing callbacks, leaves the queue and slots of the full drain, in which every scan reads the clock anew for every entry |
| QosScheduler.Scheduler.ReleaseSlot | index.js:258-266 | the first `finish` or `close` after the request got its slot frees it and drains; one before that, or a later one, does nothing |
| QosScheduler.Scheduler.Note | index.js:272-310 | an arrival that does not queue is passed on without being counted, or changes its own counter and, on the fast path, takes one slot |
| QosScheduler.Scheduler.Enqueue | index.js:312-318 | the entry goes to the end of the queue and nothing else changes |
| QosScheduler.Scheduler.QueueOrRefuse | index.js:301-336 | a full queue refuses with no other effect; otherwise the entry queues and the queue drains |
| QosScheduler.Scheduler.Schedule | index.js:285-336 | the fast path is taken exactly below the bypass load |
| QosScheduler.Scheduler.Middleware | index.js:271-337 | the whole arrival path equals the model's arrival step |
| QosScheduler.Scheduler.Timeout | index.js:320-333 | the timer removes its own entry if it still waits, and nothing otherwise |
| QosInvariant.DrainKeeps | index.js:240-269 | a drain fills every slot it can, adds none beyond the cap, and keeps fairness and accounting |
| QosTheorems.CapacityExactly | index.js:286-299 | over every run, in-flight stays within the cap if and only if the bypass threshold is at most 1, the mode is off or there are no slots |
| QosTheorems.CapacityAndWorkConservation | index.js:240-337 | at every moment of every run the queue is within its depth and a waiting queue means all slots are taken; with a threshold of at most 1 in-flight never exceeds the cap |
| QosTheorems.RefusedExactlyWhenFull | index.js:302-310 | with a threshold of at most 1 and a queue, a scheduled arrival gets 503 if and only if all slots and all queue places are taken |
| QosTheorems.RefusesOnlyWhenBusyExactly | index.js:285-310 | over every run, nobody is refused while a slot is free, if and only if there is a queue, the mode is off, or the bypass load covers all slots |
| QosFairness.OvertakerAheadAlways | index.js:235-249 | over every run in which the clock moves by at most `drift` during a scan, an entry dispatched before an earlier waiting one has at every instant an aged score larger than the other's less `drift` |
| QosFairness.BoundedOvertaking | index.js:235-249 | over every such run, with scores up to S, nothing enqueued 50 * (S - e.score) + drift ms or more after e passes e |
| QosFairness.FifoAmongEquals | index.js:235-249 | with a forward clock, whoever overtakes has a higher base score or was enqueued less than `drift` ms later |
| QosTheorems.FastPathExactly | index.js:285-299 | over every run, no request skips the queue ahead of an earlier one waiting in it, if and only if the bypass threshold is at most 1, the mode is off, or there are no slots or no queue |
| QosTheorems.Accounting | index.js:249-333 | arrivals equal the requests passed on, the four counted outcomes and the queue; no request has two outcomes, and in-flight is the granted ones not yet released |
| QosTheorems.SecondReleaseIgnored | index.js:258-266 | once released, a request's second `finish` or `close` changes nothing, however long the run in between |
| QosTheorems.HeldUntilReleased | index.js:255-266 | over every run, a taken slot stays taken until a release event of its own request |
| QosEffects.ArrivalEffect | index.js:271-336 | the state after any arrival of any run: passed on, running, refused, waiting last, or run at once on a free slot |
| QosEffects.ReleaseFrees | index.js:258-263 | at any moment of any run a release frees its slot; with nobody waiting, in-flight falls by one and nothing else changes |
| QosEffects.ReleaseHandsOver | index.js:240-266 | with all slots taken and requests waiting, the freed slot goes to the pick of the scan, and unless its callback throws nobody else moves |
| QosEffects.ReleaseWithoutSlot | index.js:258-266 | an event of a request that holds no slot changes nothing |
| QosEffects.TimeoutEffect | index.js:320-333 | a timer takes its own waiting entry out, keeps the others in order and frees no slot |
| QosEffects.LateTimeout | index.js:320-333 | a timer whose request has left the queue changes nothing |
| QosEffects.ThrowingHoldsNoSlot | index.js:256-267 | whoever is dispatched in a step holds its slot after it, unless its callback threw |
| QosEffects.HighestFirst | index.js:235-249 | whoever is dispatched while another waits and goes on waiting has the larger 50 * score - enqueuedAt, up to less than the drift of the scan if the other came first |
| QosEffects.CountersByKind | index.js:256-326 | each counter counts the events of its own kind |
| PaymentStore.MemoryStore.Incr | lib/store.js:92-97 | adds the amount to one balance and touches nothing else |
| PaymentStore.MemoryStore.IssueNonce | index.js:478-487 | stores the quote unused, with an empty hint read as none and its life set |
| PaymentStore.MemoryStore.ConsumeNonceAndDebit | lib/store.js:147-163 | the refusals in the program's order, each leaving the store alone; success marks and debits |
| PaymentStore.MemoryStore.Record | lib/store.js:116-124 | one more payment, the total raised by the amount, first payment time kept |
| PaymentStore.MemoryStore.Sweep | lib/store.js:68-78 | deletes exactly the nonces, claims and remembered rejections whose life has ended; nothing stale is left |
| LedgerTheorems.ConsumeMoves | lib/store.js:147-163 | a consume takes the claimed amount from the payer's balance alone, or nothing |
| LedgerTheorems.Conservation | index.js:598-612 | over every interleaving, balance plus recorded payments plus payments in transit equals what was deposited, per account |
| LedgerTheorems.BalancesNeverNegative | lib/store.js:156-161 | over every interleaving no balance goes below zero |
| LedgerTheorems.NonceDiscipline | index.js:478-613 | stored nonces are quotes as issued, consumed ones stay marked, no nonce is consumed twice |
| LedgerTheorems.NonceSafety | index.js:560-613 | each consume is the only one of its nonce, in time, for at least the quoted price, by the hinted key if there is one |
| LedgerEffects.OnlyTheNamedPay | index.js:472-487 | a quote asked for with a key is paid, in any continuation, by that key only, within 30 s and for no less than quoted |
| LedgerEffects.QuoteStands | index.js:478-487 | a quote keeps amount, time and key as asked for, whatever follows; without a key, or with an empty one, it is bound to nobody |
| LedgerEffects.PaysExactly | lib/store.js:147-163 | after any run a payment goes through if and only if its quote is unpaid, at most 30 s old, not above the amount, made for nobody in particular or for this payer, and covered by the balance |
| LedgerEffects.ReasonsInOrder | lib/store.js:147-163 | the reason of a refusal is the first check that fails; the reply has the new balance, or the one that is too short |
| LedgerEffects.PaidWasSigned | index.js:583-598 | over every run, nothing is paid whose nonce, account and amount were not submitted with a valid signature |
| LedgerEffects.SubmitLetsIn | index.js:571-596 | a signed payment of a live quote is let in, one that is not signed or never quoted is not |
| LedgerEffects.ReputationExactly | lib/store.js:116-124 | over every interleaving the record of an account is the number, sum, first and last time of its recorded payments |
| RedisConsume.ConsumeAgreesExactly | lib/store.js:414-436 | on a live nonce, in-memory and Lua consume agree in outcome, reason and balances if and only if it is not an unused, sufficiently paid nonce without a hint |
| RedisConsume.KeyOutlivesNonce | lib/store.js:509-516 | a nonce key lives as long as its nonce, and less than a second longer |
| RedisConsume.UnhintedNonceRefusedByLua | lib/store.js:423-425 | the concrete disagreement |
| RedisConsume.ConsumeRefinement | lib/store.js:414-436 | over whole runs of hinted nonces with deposits, sweeps and expiry, both stores accept the same spends with the same balances, and give the same reason while the nonce is live in memory |
| RedisConsume.RunsAgree | lib/store.js:507-516 | the same from any two matching stores |
| PaymentStore.MemoryStore.ClaimPendingDeposit | lib/store.js:292-300 | the claim is granted exactly when none is stored or the stored one has run out |
| PaymentStore.MemoryStore.IsDepositKnownBad | lib/store.js:315-323 | a remembered rejection counts until its time, and a stale one is deleted when read |
| DepositModel.FindCrediting | index.js:416-435 | the loop over the instructions finds what `Crediting` says |
| DepositModel.CreditingMeans | index.js:421-435 | the first transfer to the destination decides, and one of zero rejects the deposit |
| DepositModel.NothingCredited | index.js:430-432 | without such a transfer nothing is credited |
| DepositHandler.FoundMeans | index.js:401-435 | a deposit is worth a transfer if and only if that is the first one to the destination, and not of zero |
| DepositHandler.RejectedUntil | lib/store.js:312-323 | a rejected signature is turned away until its time, and not after |
| DepositHandler.NothingElseRemembered | index.js:1049-1056 | no other outcome adds to what is turned away, and no request bears on another signature |
| DepositHandler.SweepForgetsNothing | lib/store.js:76-78 | the sweeper drops no rejection that still counts |
| PaymentStore.MemoryStore.VerifyDepositTx | index.js:393-452 | refused exactly when used, unanswered or not creditable, with nothing changed; else the signature is marked and 1000 x lamports credited |
| PaymentStore.MemoryStore.HandleDeposit | index.js:1004-1081 | format gate, cache of rejections, claim, breaker, verification and release together: what each outcome changes, that a granted claim is gone afterwards, that an unanswered fetch is reported as an open circuit; each reply exactly when it is due, and an accepted deposit names the paying account and its new balance |
| DepositHandler.HandlerIsARun | index.js:1022-1080 | the uninterrupted handler, whether its fetch is answered or not, has the effect of its steps in the interleaved model |
| DepositSafety.SafeRuns | index.js:1022-1080 | under the timing condition, over every interleaving, live verifications own their claim, and marks and credits are unique per signature |
| DepositSafety.CreditedImpliesUsed | index.js:439-441 | wherever a run stops and whatever the timing, a credited signature is in the used set |
| DepositSafety.CreditsMatchChain | index.js:437-441 | every balance is 1000 x lamports over its credits, each as the chain has it |
| Accounts.MoneyTrail | index.js:393-452 | over every interleaving of deposits and payments on one escrow, per account: balance plus recorded payments plus payments in transit equals 1000 x lamports over the credits, each as the chain has it and marked used, no balance negative, and under the timing condition no signature credited twice |
| Accounts.RunsApart | lib/store.js:89-163 | each protocol sees a run of its own, and both see the same balances |
| DepositRaces.AtMostOnceExactly | index.js:1022-1080 | all runs credit each signature at most once if and only if verifications and releases end within the claim's life and one of them before the breaker's timeout |
| DepositRaces.OneBound | lib/solana-circuit.js:14-14 | with one bound for both, it must lie below claim life and breaker timeout |
| DepositRaces.SlowVerification | index.js:1024-1025 | a verification that outlives its claim can credit twice |
| DepositRaces.AbandonedVerification | lib/solana-circuit.js:24-39 | so can one that outlives its breaker |
| DepositRaces.LateClear | index.js:1078-1080 | so can a release after the claim has run out |
| WindowExactness.WindowExactly | lib/store.js:244-258 | over all calls with one limit and times that cross by at most `skew`, no interval of a given length holds more than the limit, if and only if the length is at most window - skew (or at most the window when the limit is one) |
| WindowExactness.SkewBreaksFullWindow | lib/ratelimit.js:52-87 | for every limit from two on, every window and skew, calls that overfill any longer interval |
| WindowExactness.LimitOneIgnoresSkew | lib/store.js:247-257 | a limit of one holds over the whole window in whatever order the times come |
| SlidingWindow.WindowBound | lib/store.js:244-258 | limits may differ from call to call: with times out of order by at most `skew`, every interval of length window - skew holds at most the largest |
| SlidingWindow.AdmittedExactly | lib/store.js:251-257 | with times in order, a call is refused if and only if its own window already holds max admissions, and the reply counts them |
| SlidingWindow.HeadPruneIsFilter | lib/store.js:247-250 | dropping the expired head equals filtering the whole list |
| PlanEffects.RepeatCountsOnce | lib/store.js:254-257 | a member that is already inside is admitted again without a second entry |
| RedisWindow.Refinement | lib/store.js:438-460 | from empty buckets, list and sorted set with key expiry give the same answers to every sequence of consumes and queries whose times do not go back |
| RedisWindow.QueriesChangeNothing | lib/store.js:450-460 | while times do not go back, leaving out any queries leaves every consume result as it was |
| RedisExactness.AlikeExactly | lib/store.js:244-258 | over all consumes with one limit, fresh members and times that cross by at most `skew`, list and sorted set answer alike, if and only if no times cross or the limit is at most one |
| RedisExactness.ServerAlikeExactly | lib/store.js:438-448 | over all consumes that the server runs at most `delay` after their times, on its own clock, they answer alike, if and only if the delay is 0, the limit is 0, or both are 1 |
| RedisExactness.QueriesExactly | lib/store.js:450-460 | over all consumes and queries whose times cross by at most `skew`, queries change no answer of a consume, if and only if no times cross or the limit is 0 |
| RedisServer.ServerBound | lib/store.js:438-460 | with limits that vary from call to call, key expiry on the server's clock and queries in between, every interval of at most window - delay holds no more admissions than the largest limit |
| RedisServerExactness.ServerExactly | lib/store.js:438-460 | over all such consumes and queries with one limit, no interval of a given length holds more than the limit, if and only if the length is at most window - delay |
| RedisServer.ExpiryDropsNothingLive | lib/store.js:445-445 | after any run on the server's clock, whatever the delays, an expired key held nothing still inside the window |
| RedisWindow.SameCount | lib/store.js:441-442 | pruned list and pruned sorted set hold the same members and count |
| RateLimitExactness.PassesExactly | lib/ratelimit.js:52-154 | over all interleavings of requests in their plans, with buckets consulted within `delay` of the arrival, no interval of a given length has more passes through a bucket than its limit, if and only if the length is at most window - delay (or at most the window when the limit is one) |
| RateLimitExactness.DelayBreaksFullWindow | lib/ratelimit.js:52-87 | for every limit from two on, window and delay, a run of the plan loop that overfills any longer interval |
| RateLimit.PassesBounded | lib/ratelimit.js:52-154 | limits may differ from plan to plan: under any interleaving at most the largest many of the requests naming a bucket pass in an interval of length window - delay |
| MemoryLimiter.Limiter.SlidingWindowConsume | lib/store.js:244-258 | prune, refuse when full, insert otherwise; other buckets untouched |
| MemoryLimiter.Limiter.SlidingWindowQuery | lib/store.js:262-269 | counts the entries inside the window and changes nothing |
| MemoryLimiter.Limiter.RateLimit | lib/ratelimit.js:83-154 | the loop charges buckets in order with fresh members, stops at the first refusal, passes exactly when every bucket admits, and lets the request through degraded at a store failure, with the buckets before it charged |
| MemoryLimiter.Limiter.Middleware | lib/ratelimit.js:44-50 | switched off or with an unhealthy store the request goes through and nothing is charged; otherwise the loop decides |
| MemoryLimiter.LoopIsARun | lib/ratelimit.js:83-154 | in any state of the interleaved model, a request that arrives and takes its rounds at one instant leaves buckets, counter and itself as that loop does, and no other request touched |
| PlanEffects.RequestEffect | lib/ratelimit.js:83-154 | one request in closed form: blocked if and only if some bucket of its plan is full, by the first such; those before it are charged once each with fresh members, those after it not at all |
| Trust.BandsAsDocumented | lib/trust-multipliers.js:3-43 | for every whole score, the multiplier and the two gates are those of the documented bands |
| Trust.BandsAlignExactly | lib/trust-multipliers.js:14-43 | the three gates agree with the documented bands if and only if the score is outside (50, 51) and (80, 81) |
| LadderStore.EnforcementStore.PushAbuseHistory | lib/store.js:326-331 | the event comes first, at most 100 are kept, and other keys are untouched |
| LadderStore.EnforcementStore.GetAbuseHistory | lib/store.js:332-343 | the in-place splice loop drops exactly the expired entries and returns the newest n |
| LadderStore.EnforcementStore.Count | lib/enforcement.js:100-110 | counts the events of a tier and reason since the cutoff |
| LadderStore.EnforcementStore.HistorySummary | lib/enforcement.js:112-119 | the four windows of the summary |
| LadderStore.EnforcementStore.Escalate | lib/enforcement.js:212-229 | stores the ban and one more event for that key alone |
| LadderStore.EnforcementStore.Climb | lib/enforcement.js:191-251 | the four steps decide the model's tier and leave its history, ban and permanent set |
| LadderStore.EnforcementStore.RecordOffense | lib/enforcement.js:164-260 | a rejected call changes nothing; an accepted one returns tier, expiry and summary and changes one key only; a missing first-payment time is taken from the reputation record |
| LadderSafety.PermanentOnlyWhenEarned | lib/enforcement.js:233-251 | over every run, a key enters the permanent set only with tier 4 allowed, score below 51, outside the whitelist window, and enough hard-ban decisions within seven days |
| LadderSafety.StoredHardBansWereDecided | lib/enforcement.js:196-231 | the history never holds more hard bans than were decided |
| LadderSafety.NoPermanentBelowTier4 | lib/enforcement.js:241-247 | with a maximum tier of 3 or less nobody is ever banned for good |
| LadderSafety.DecisionIsEnforced | lib/enforcement.js:52-60 | for a key not banned for good, a decision of tier 2 or more is what the next ban lookup reports, if and only if the ban length of that tier is not negative |
| LadderEffects.BanLasts | lib/enforcement.js:212-245 | the lookup at every time after a call: a soft or hard ban for its whole length and no longer, under the reason of the call, a permanent one for ever, and after a throttle what stood before |
| LadderEffects.BanInForce | lib/store.js:346-357 | over any run, the ban in force is that of the key's last decision from tier 2 up |
| LadderEffects.OthersKeepTheirs | lib/enforcement.js:164-260 | nobody else's ban changes, nor anyone's by a rejected call, and a permanent ban stays |
| LadderEffects.ReportedEnd | lib/enforcement.js:196-227 | the ban is in force at the end reported in seconds, and over a second later |
| LadderEffects.SummaryCounts | lib/enforcement.js:100-119 | the summary is the numbers of throttles in 5 min, bad signatures in 60 s, soft bans in 24 h and hard bans in 7 days |
| LadderEffects.OnlyExpiredDropped | lib/store.js:335-342 | reading drops the expired events and no others, and keeps the order |
| LadderEffects.OnlyKnownReasons | lib/enforcement.js:166-169 | a call without a key or with a reason outside the vocabulary stores nothing |
| LadderEffects.EventsStored | lib/enforcement.js:181-245 | while nothing has expired and there is room, a call adds its throttle and one event for each rung it climbs, newest first |
| LadderEffects.DecisionByRule | lib/enforcement.js:191-251 | the four steps give the highest tier whose condition holds, each condition a rule over the observed events, score, evidence and first payment |
| LadderEffects.FraudBansHard | lib/enforcement.js:196-203 | fraud evidence always bans hard, whatever the history |
| LadderEffects.FirstPaymentOf | lib/enforcement.js:132-145 | a missing first-payment time is that of the public key inside the ban key, or of the key itself if it has no prefix; a given one stands |
| LadderSafety.MoreEvidenceNeverLowers | lib/enforcement.js:100-251 | adding events to the observed history never lowers the tier |
| LadderSafety.MoreTrustNeverRaises | lib/_enforcement-trust-hooks.js:15-21 | a higher trust score never raises the tier |
| LadderSafety.SignatureBurstSubsumed | lib/enforcement.js:205-208 | with default thresholds the invalid-signature trigger never fires without the throttle trigger |
| LadderRun.NthDecision | lib/enforcement.js:164-260 | among any traffic, the n-th offense of a key within five minutes, without fraud signals, at any multiplier m and a score below 81: tier 1 below 3m, tier 2 at 3m and 3m + 1, then 3, and 4 from 3m + 4 exactly if allowed, for every n |
| LadderRun.PermanentMultiplier | lib/trust-multipliers.js:21-43 | for aligned scores tier 4 is allowed exactly with maximum tier 4, multiplier at most 2 and no whitelist window |
| LadderRun.HighTrustStaysThrottled | lib/enforcement.js:209-211 | from score 81 on, without fraud signals, every decision is tier 1 |
| LadderRun.KeysAreIndependent | lib/store.js:326-343 | a key's history depends on its own offenses only |
| LadderCap.NewestHundredDecide | lib/store.js:326-343 | every decision is made on exactly the newest hundred events ever stored for the key |
| LadderCap.FullHistoryDecides | lib/enforcement.js:184-251 | while at most a hundred events of the key lie within seven days, a decision is that of the full history |
| LadderCap.CapNeverMatters | lib/store.js:326-343 | whole runs whose events fit store what a ladder without cap and expiry would |
| LadderCap.PromotionExactly | lib/enforcement.js:233-251 | a call decides a permanent ban if and only if step 3 gives a hard ban, tier 4 is allowed and enough hard bans are among the hundred |
| LadderCap.RuleHoldsWhileEventsFit | lib/enforcement.js:233-251 | while events fit, it becomes permanent if and only if it is allowed and enough hard bans were decided within seven days |
| LadderCap.RuleOnOneCall | lib/enforcement.js:233-251 | one call keeps the seven-day rule unless step 3 gives a hard ban, tier 4 is allowed, and the hard bans stored are enough while those among the newest hundred are not |
| LadderCapRule.RuleExactly | lib/enforcement.js:233-251 | with a history life of at least seven days, every call of every run keeps the seven-day rule, if and only if a single hard ban is enough |
| LadderCap.StoredHardBansAreDecisions | lib/enforcement.js:196-231 | stored hard-ban events and hard-ban decisions are equally many |
| LadderCapRun.CapHidesHardBans | lib/store.js:330-330 | for every number of spaced throttles from 99 on that fits seven days, a third hard ban that is allowed and not made permanent |
| MassBan.Guard.IncrMassBanCounter | lib/store.js:274-283 | opens a window or counts in the open one, and returns the count |
| MassBan.Guard.MassBanGuard | lib/admin.js:244-274 | charges both counters whatever the answer, passes within both limits, and blocks when the store fails at either increment |
| MassBan.IntervalBound | lib/admin.js:244-274 | at most 2 max - 1 pass per scope in any interval as long as its window |
| MassBan.GuardBound | lib/admin.js:244-274 | over every interleaving of guarded requests, with the store failing at any increment, at most 2 max - 1 requests of one key pass in any minute and at most 2 max - 1 of all keys in any hour |
| MassBan.GuardIsARun | lib/admin.js:252-270 | an uninterrupted request charges the counters and passes as its two steps in the interleaved model do |
| MassBanEffects.GuardLetsThrough | lib/admin.js:244-274 | after any run, a request passes if fewer than the limit of its own key came within the last minute and fewer than the global limit were answered within the last hour |
| MassBanEffects.CountIsCharges | lib/store.js:274-283 | the count of a window is the number of charges since it opened |
| MassBan.WindowLimit | lib/store.js:274-283 | at most max pass within one counter window |
| MassBan.IntervalBoundIsTight | lib/store.js:277-282 | for every max and window there is traffic that reaches 2 max - 1 |
| Canonical.SortedHoldsPairs | lib/admin.js:66-74 | reading the sorted query string back gives the same pairs, sorted |
| Canonical.Idempotent | lib/admin.js:66-74 | sorting twice is sorting once |
| Canonical.SameQueryExactly | lib/admin.js:66-74 | two query strings sort alike if and only if every key has the same values in the same order |
| Canonical.RearrangedAlike | lib/admin.js:72-72 | any rearrangement of pairs with distinct keys sorts alike |
| Canonical.SortOrdered | lib/admin.js:72-72 | the result is in key order |
| Canonical.SortStable | lib/admin.js:72-72 | equal keys keep their order |
| Canonical.CanonicalExactly | lib/admin.js:96-107 | among requests without line breaks, two share the signed string if and only if method, path, sorted query, time, key and digest agree |
| CanonicalFormat.CanonicalLines | lib/admin.js:96-107 | the lines of the signed string: method, path, sorted query, time, key, digest |
| CanonicalFormat.SortedSegments | lib/admin.js:66-74 | the sorted query is `key=value` for each pair in key order, with ampersands between |
| CanonicalFormat.PairsNext | lib/admin.js:68-71 | one more segment is one more pair at the end, unless it is empty |
| CanonicalFormat.SegmentCut | lib/admin.js:69-70 | a segment is cut at its first equals sign; without one it is all key |
| CanonicalFormat.LessIsDictionary | lib/admin.js:72-72 | keys are ordered as in a dictionary of code units |
| CanonicalFormat.UrlCut | lib/admin.js:98-101 | the path is what comes before the first question mark, the query what comes after |
| CanonicalFormat.UpperMeans | lib/admin.js:97-97 | upper-casing changes the letters a to z in place and nothing else |
| HealthProbe.Probe.Check | index.js:509-535 | one probe result updates success count, failure start and fallback as the model does, and its own counter |
| HealthProbe.Probe.OverloadSeen | index.js:1354-1357 | an overload signal sets the fallback to 30 s from now |
| HealthProbe.TraceInvariant | index.js:509-526 | the counters are the lengths and starts of the trailing runs of the probe history |
| HealthProbe.FallbackExactly | index.js:515-534 | the fallback after any event of any run, from the history alone: a failure more than 60 s into an unbroken run moves it to 60 s from now unless it ends later already, three successes in a row end it, a signal sets it to 30 s from now |
| HealthProbe.ForcedOnlyWhenUnreachable | index.js:523-534 | a probe lengthens the fallback only after more than 60 s of unbroken failures |
| HealthProbe.EndedOnlyAfterThreeSuccesses | index.js:515-522 | a probe ends the fallback early only after three successes in a row |
| HealthProbe.ThreeSuccessesEndFallback | index.js:515-522 | three successes in a row during a fallback do end it |
| HealthProbe.FallbackHasCause | index.js:523-534 | every pending fallback was set by an overload signal or by such a failure run |
| HealthProbe.OverloadShortensExactly | index.js:1354-1357 | over every run, an overload signal cuts the pending fallback short if and only if a failed probe forced that fallback less than 30 s before |
| Pricing.DynamicPriceBounds | index.js:366-369 | the price of a challenge before discounts lies between base and maximum and grows with the load |
| Pricing.DiscountBounds | index.js:379-381 | a discount never goes below base, never raises the price, and grows with the score |
| Pricing.QuoteBounds | index.js:366-381 | for every threshold and every load above it, quotes lie between base and maximum, grow with load, fall with payments made, and are at most the undiscounted price |
| Pricing.ConstantFromTwenty | index.js:372-376 | from the twentieth payment the quote at a load is constant |
| Pricing.PriceOnTheLine | index.js:366-369 | before discounts the price rises in a straight line from base at the threshold to maximum at full load, to the nearest unit, and stays there |
| Pricing.ThresholdPastFull | index.js:366-369 | a threshold of 1 makes every price the maximum, one above 1 makes it the base |
| Pricing.QuoteExactly | index.js:372-381 | only above the threshold is a request quoted: the price of its load less 2.5 % for each payment made, up to half, to the nearest unit and never below base |
| Pricing.WithinMaxExactly | index.js:366-381 | quotes stay within the maximum for every load if and only if base is at most maximum |

## Left out

- QosScheduler.Scheduler.Note: the wait samples and their percentiles are not modelled, nor the responses.
- QosScheduler.Scheduler.ReleaseSlot: `finish` and `close` may come at any time, in any number, or never.
- QosScheduler.Scheduler.Timeout: a queue timer may fire at any time, not only after the configured wait.
- QosModel: `bypassThreshold` is a real number, so the floating-point product with the cap is exact here; base scores are given integers.
- DepositModel: the cache of rejected signatures only turns requests away and is part of the handler alone; the chain never changes its answer for a signature, although it may fail to answer; the breaker's timeout is counted from the claim.
- PaymentStore.MemoryStore.HandleDeposit: reads one clock; the signature pattern is a given yes or no, and headers, the retry time and the offense record are left out.
- LedgerModel: base58, JSON and Ed25519 are one input, `authentic`; attestations and dashboard logs are left out.
- RedisConsume: numbers are integers on both sides, so Lua's number formatting is not modelled; the server's clock is the shield's.
- RedisWindow: a key is alive up to and including its expiry millisecond.
- RedisWindow.Refinement: calls reuse no member id, both stores run at the calls' own times, and those do not go back. Nothing in the limiter provides that order: `RedisExactness.AlikeExactly` and `RedisExactness.ServerAlikeExactly` say what holds without it, for one limit and without queries.
- RedisWindow.QueriesChangeNothing: needs times that do not go back; `RedisExactness.QueriesExactly` says what holds without that, for one limit.
- RateLimit: the interleaved model has no store failures and no off switch, which let requests through without a count; the loop in `MemoryLimiter` has both. The warning state at 80 %, the hand-over to the enforcement ladder and the response headers are left out; limits per plan are inputs, and member ids of several processes are taken as distinct.
- LadderModel: a ban lookup gives the tier in force; the end it should report is read from a field the store does not return, and is left out. One offense is one step with one clock reading; thresholds are whole numbers, and the first-payment time in an offense is the resolved one.
- LadderCap.CapNeverMatters: needs a history life of at least the seven days it counts, as by default, and a clock that does not go back for the key.
- LadderStore.EnforcementStore.RecordOffense: the Redis lists behind the same calls are not modelled, nor are manual bans and unbans.
- MassBan: the Redis counter with INCR and EXPIRE and the audit entries are left out; the limits are constant over a run, and the clock of the guarded requests does not go back.
- Canonical: characters are compared by code point, upper-casing is ASCII only, the digest is a given string, and the plain-object input form is left out.
- HealthProbe: the HTTP probe itself is a given success or failure; the clock is past 0, since the code reads a failure time of 0 as unset.
- Pricing: arithmetic is exact, so the rounding of intermediate products is not modelled.
- Request routing, proxying, HTML, CORS, metrics, logging, configuration reload, fraud detection signals, agent status, the SDK and the examples are not part of this model.
