# rrelayer: verified model

A Dafny model of the parts of rrelayer that keep state or take decisions, with
proofs of what they keep over every run. The database, the RPC nodes, the
signers, the transaction queue, HTTP and the clocks are inputs of the model;
every operation is proved for all of their answers.

`dafny verify dfyconfig.toml` checks the whole project.

| module | what it models |
|---|---|
| `RateWindow`, `RateLimiter`, `RateAdmission` | the three-tier fixed-window rate limiter and its reservations: the specification of one counter, the objects that implement it, and how many requests the configured numbers let through |
| `RateWindowLaw`, `RateInterleaving`, `RateCrowd`, `RateStretch`, `RateOvertaken`, `RateAccounting`, `RateKept` | what the limiter guarantees over serial runs, over interleavings, and when reservations are given back late; each bound is shown to be attained |
| `Intervals`, `Decimal`, `TokenAmount` | the two interval parsers, the two token-amount printers and the configuration fields that must read back |
| `NonceManager`, `RpcAggregation` | the next-free nonce of a relayer with a ledger of every nonce, and the loops that ask several nodes |
| `Shutdown` | entering, leaving and draining, with the flag test and the increment as separate steps |
| `WebhookDelivery`, `WebhookStore`, `WebhookWorkers` | one delivery and its retries, the shared map, and every interleaving of workers that hold copies |
| `Cron` | a job with a stored row: start, anchor, sleep, enqueue, save, crash |
| `TtlCache`, `ReadThrough` | the expiring cache, its sweeper, and how stale a row from a read-through getter can be |
| `Permissions` | the configuration tables, the API's check, the cron jobs' check, and when they agree |
| `Text`, `Cidr`, `Policy`, `PolicyDecision` | IP allowlists down to the bits of a block, signed requests, the order of the request policy, and which requests pass it |
| `TopUp`, `TopUpDelivery` | target resolution, funding checks, what a top-up pass queues, and who is topped up |

Objects of the source whose methods change fields are classes here; each method
is proved against a specification function, and the theorems are about that
function or about a state machine whose steps are the methods. Loops are loops
where the source has them.

Conventions:

- Times are whole seconds (milliseconds for webhooks). Within one run clocks do
  not go backwards; the rate limiter's own treatment of a clock behind the
  window start is modelled.
- Arithmetic wraps where an optimised build of the source wraps: at 32 bits in
  the rate-limit interval, at 64 bits in the cron interval and in the printer's
  divisor, at 256 bits in the funding check.
- Random identifiers are parameters, assumed fresh where a theorem says so.

## What the code does that its documentation does not say

- `documentation/rrelayer/docs/pages/config/rate-limits.mdx:97` says that any
  interval is sixty seconds. The code reads `Ns` and `Nm` as well
  (`crates/core/src/rate_limiting/rate_limiter.rs:49-64`); the model follows the code.
- `documentation/rrelayer/docs/pages/config/webhooks.mdx:117` calls
  `max_retries` a number of retries. In the code it bounds all requests, the
  first included, and zero means that nothing is ever sent
  (`WebhookDelivery.SingleWorkerBounds`, `WebhookDelivery.NoRetriesMeansNeverSent`).
- `documentation/rrelayer/docs/pages/config/networks/automatic-top-up.mdx:117`
  says that a foreign address in the list is an error. The code drops it and
  goes on (`TopUp.ResolvedCounts`).

- `documentation/rrelayer/docs/pages/config/networks/automatic-top-up.mdx:81`
  says that a top-up can be paid by a Safe. The code refuses to sign for a Safe
  (`crates/core/src/safe_proxy.rs:281-315`), so such a top-up queues nothing
  (`TopUp.SafeQueuesNothing`). Once it signs, the funding check will read the
  funder's balance while the Safe pays (`TopUp.CallMovesTheTopUp`).

## Properties that fail, with their exact condition

- A reservation that is committed or dropped, as every request handler does, is
  subtracted at most once (`RateLimiter.CommittedOrDroppedIsSubtractedAtMostOnce`).
  A reverted one is, unless the revert is cut off after its first subtraction
  (`RateLimiter.SubtractedAtMostOnceIff`). `RateLimitReservation::revert` has no
  caller in the repository today, so this path is not taken yet.
- Over all interleavings of at most k requests the window law holds exactly for
  k = 1 (`RateOvertaken.WindowLawHoldsIff`). For larger k it holds in every run
  whose reservations happen in the order of their clock readings
  (`RateStretch.ReservationsInAStretch`).
- A counter is exact unless a give-back lands after its window was reset
  (`RateAccounting.CountersAreExactIffReturnsAreOnTime`).
- The next-free nonce follows the chain unless the newest nonce is released
  after the chain passed it (`NonceManager.NextFreeFollowsTheChain`). The
  transaction queue, today's only caller, holds a lock from sync to release and
  never does that (`NonceManager.QueueNeverFallsBehind`).
- A drain that reads zero is final unless a caller is past the flag test
  (`Shutdown.ZeroIsFinalIffNobodyIsPastTheTest`).
- A completed delivery stays completed exactly when no worker holds an unsent
  copy of it or a result of it that is not success
  (`WebhookWorkers.CompletionIsFinalIff`).
- An invalidation holds exactly when no getter is carrying a row that the
  database no longer holds (`ReadThrough.InvalidationHoldsIff`).
- The next run of a stopped cron job is spaced exactly when the interval is over,
  the row is as late as the last run, or there is no row and no run on startup
  (`Cron.NextRunIsSpacedIff`).
- A restart delays nothing unless the row is missing or cannot be read
  (`Cron.RestartDelaysNothingIff`).
- Printed amounts read back, and both printers agree, up to 19 decimals
  (`TokenAmount.PrintedAmountsReadBack`, `TokenAmount.PrintersAgreeUpTo19`).
- Cron and API permission checks agree unless two networks share a chain and
  the first of them carries no permissions (`Permissions.ChecksAgreeIff`).
- A "sufficient" funding check is right unless its products wrap
  (`TopUp.SufficientIsRightIff`).
- A top-up is sent on its own chain unless another cached chain knows the
  funder's address (`TopUp.SenderIsOnTheChainIff`).

## Model

| member | source | states |
|---|---|---|
| `RateLimiter.RateLimiter.constructor` | crates/core/src/rate_limiting/rate_limiter.rs:37-47 | A new limiter has empty counters in all three tiers. |
| `RateLimiter.RateLimiter.CheckRelayerLimits` | crates/core/src/rate_limiting/rate_limiter.rs:183-230 | Passes exactly when one more operation would stay within the relayer tier; a refusal reports the count it came to, the limit of that operation and the window. |
| `RateLimiter.RateLimiter.CheckGlobalUserLimits` | crates/core/src/rate_limiting/rate_limiter.rs:232-275 | The same for the global tier. |
| `RateLimiter.RateLimiter.CheckUserLimits` | crates/core/src/rate_limiting/rate_limiter.rs:277-325 | The same for the user tier, with the count, limit and window in the answer; a limit of the largest u64 always allows and counts nothing. |
| `RateLimiter.RateLimiter.CheckTiers` | crates/core/src/rate_limiting/rate_limiter.rs:136-168 | The three checks in order, relayer, global, user: the first that refuses answers with its own numbers. |
| `RateLimiter.RateLimiter.ReserveUserOperation` | crates/core/src/rate_limiting/rate_limiter.rs:327-356 | One more on the user counter, resetting it in place when its window is over; no other counter changes. |
| `RateLimiter.RateLimiter.ReserveGlobalUserOperation` | crates/core/src/rate_limiting/rate_limiter.rs:358-398 | The same for the global counter, only when that tier is configured. |
| `RateLimiter.RateLimiter.ReserveRelayerOperation` | crates/core/src/rate_limiting/rate_limiter.rs:400-436 | The same for the relayer counter, only when that tier is configured. |
| `RateLimiter.RateLimiter.RevertUserOperation` | crates/core/src/rate_limiting/rate_limiter.rs:438-455 | One less on the user counter, never below zero and never creating a counter. |
| `RateLimiter.RateLimiter.RevertGlobalUserOperation` | crates/core/src/rate_limiting/rate_limiter.rs:457-476 | The same for the global counter. |
| `RateLimiter.RateLimiter.RevertRelayerOperation` | crates/core/src/rate_limiting/rate_limiter.rs:478-497 | The same for the relayer counter. |
| `RateLimiter.RateLimiter.CheckAndReserve` | crates/core/src/rate_limiting/rate_limiter.rs:126-181 | All checks, then all reservations: the key is the header or else, when configured, the relayer; a refusal names the first tier that refuses with its count, limit and window and changes no counter; a request without a key changes none; an admitted one returns a live reservation. |
| `RateLimiter.RateLimitReservation.Commit` | crates/core/src/rate_limiting/rate_limiter.rs:516-518 | Committing changes no counter, now or when the handle is dropped. |
| `RateLimiter.RateLimitReservation.Revert` | crates/core/src/rate_limiting/rate_limiter.rs:520-544 | Reverting subtracts once in every configured tier; the drop that follows subtracts nothing more. |
| `RateLimiter.RateLimitReservation.Drop` | crates/core/src/rate_limiting/rate_limiter.rs:547-576 | Dropping an unsettled handle subtracts once in every configured tier. |
| `RateLimiter.RateLimitReservation.RevertCancelled` | crates/core/src/rate_limiting/rate_limiter.rs:520-576 | A revert cut off while it waits for a configured tier has subtracted the tiers before it, and the drop that follows subtracts all of them. |
| `RateLimiter.EndingOnKey` | crates/core/src/rate_limiting/rate_limiter.rs:515-576 | How often each ending of a handle subtracts from every counter of every tier: commit never, drop and revert once, a cut-off revert twice from the tiers it had finished. |
| `RateLimiter.CommittedOrDroppedIsSubtractedAtMostOnce` | crates/core/src/rate_limiting/rate_limiter.rs:515-576 | Every handle that is committed or dropped, as the request handlers do, is subtracted at most once from any counter. |
| `RateLimiter.SubtractedAtMostOnceIff` | crates/core/src/rate_limiting/rate_limiter.rs:515-576 | Over all states and possible endings, a handle is subtracted at most once, if and only if its end is not a revert cut off after its first subtraction. |
| `RateLimiter.UserKeyTextIsInjective` | crates/core/src/rate_limiting/rate_limiter.rs:327-337 | The text key of a user counter determines user, relayer and operation, so two users never share a counter. |
| `RateWindow.ResetAdvancesAWindow` | crates/core/src/rate_limiting/rate_limiter.rs:338-352 | A reset moves an aligned window start forward by at least one whole window. |
| `RateWindow.WindowStartIsTheMultiple` | crates/core/src/rate_limiting/rate_limiter.rs:499-504 | Every moment belongs to the window that starts at the multiple of the window length before it. |
| `RateWindow.ReserveOnKey` | crates/core/src/rate_limiting/rate_limiter.rs:327-436 | Reserving on one key leaves every other counter of every tier alone. |
| `RateWindow.ServeOnKey` | crates/core/src/rate_limiting/rate_limiter.rs:126-181 | What a whole request does to any one counter: a refused one nothing, an admitted one exactly one reservation in each tier it touches. |
| `RateWindow.ReserveThenRevertRestoresRoom` | crates/core/src/rate_limiting/rate_limiter.rs:327-455 | An admitted request given straight back leaves every check at its reservation time with the answer it had before. |
| `RateWindow.GivenBackCountsOnlyTheOthers` | crates/core/src/rate_limiting/rate_limiter.rs:327-455 | A reservation given back at any moment of its own window counts for nothing: a later check there sees what was there before it plus every reservation made since. |
| `RateAdmission.TransactionsAdmitted` | crates/core/src/rate_limiting/rate_limiter.rs:66-89 | From empty counters, the m-th of the same transactions made at one moment is let through, if and only if m is within the transactions of the relayer limits, of the global limits and of the per-relayer user limits, each if configured, and within 100 when neither the user nor the relayer has limits; a per-relayer user limit of the largest u64 does not bind. |
| `RateAdmission.SigningsAdmitted` | crates/core/src/rate_limiting/rate_limiter.rs:66-89 | The same for signing operations by their own numbers, 50 by default. |
| `RateAdmission.TransactionAfter` | crates/core/src/rate_limiting/rate_limiter.rs:126-325 | After n admitted requests of any kind made at one moment: which tier refuses a transaction of any user on any relayer at any later or earlier time, by the fields of the configuration: which requests count together in each tier, whose interval is its window, and that a tier counts from one outside the window. |
| `RateAdmission.SigningAfter` | crates/core/src/rate_limiting/rate_limiter.rs:126-325 | The same for a signing operation. |
| `RateWindowLaw.AdmissionsInAStretch` | crates/core/src/rate_limiting/rate_limiter.rs:327-356 | Over every serial run without reverts: operations on one key whose first and last are at most m windows apart number at most (m + 1) times the limit. |
| `RateWindowLaw.BoundIsReached` | crates/core/src/rate_limiting/rate_limiter.rs:327-356 | The factor m + 1 cannot be improved: it is attained for every limit, every m and every window of at least two seconds. |
| `RateStretch.ReservationsInAStretch` | crates/core/src/rate_limiting/rate_limiter.rs:126-181 | The window law for concurrent requests: with at most k in flight, no give-backs and reservations on a key in the order of their clock readings, readings at most m windows apart number at most (m + 1) * (limit + k - 1). |
| `RateStretch.OneAtATimeKeepsTheLaw` | crates/core/src/rate_limiting/rate_limiter.rs:126-181 | One request at a time keeps the window law in every configuration, however long its steps take. |
| `RateOvertaken.WindowLawHoldsIff` | crates/core/src/rate_limiting/rate_limiter.rs:327-356 | Over all interleavings of at most k requests without give-backs, readings at most m windows apart number at most (m + 1) * (limit + k - 1), if and only if k = 1. |
| `RateOvertaken.OvertakenReadingBreaksTheLaw` | crates/core/src/rate_limiting/rate_limiter.rs:327-356 | For every limit and every k of at least two, a run in which one overtaken clock reading lets 3 * limit + 3 * k - 4 reservations have readings within one window length. |
| `RateKept.KeptInAStretch` | crates/core/src/rate_limiting/rate_limiter.rs:126-181 | In every serial run whose give-backs are on time: operations on a key that are never given back, the first and the last at most m windows apart, number at most (m + 1) * limit. |
| `RateInterleaving.CountersStayNearTheLimit` | crates/core/src/rate_limiting/rate_limiter.rs:126-181 | In every interleaving of at most k requests whose clock readings, checks and reservations are separate steps, with any reverts and abandonments: no limited counter exceeds limit + k - 1, and with k = 1 none exceeds the limit. |
| `RateInterleaving.AloneIsServed` | crates/core/src/rate_limiting/rate_limiter.rs:126-181 | A concurrent request that nobody interrupts runs exactly its checks up to the refusing tier, or all six steps, and leaves the counters as the serial request does. |
| `RateCrowd.BoundIsReached` | crates/core/src/rate_limiting/rate_limiter.rs:126-181 | Some interleaving of k requests does bring a counter to limit + k - 1, for every limit and every k. |
| `RateAccounting.CountersAreExactIffReturnsAreOnTime` | crates/core/src/rate_limiting/rate_limiter.rs:338-352 | Throughout a serial run with reverts, a counter equals the reservations of its window minus those given back, if and only if each give-back lands in its own window or finds the counter at zero. |
| `RateAccounting.CountersNeverOvercount` | crates/core/src/rate_limiting/rate_limiter.rs:438-497 | On time or late, a counter never claims more than is outstanding in its window. |
| `RateAccounting.LateReturnAdmitsTooMany` | crates/core/src/rate_limiting/rate_limiter.rs:547-576 | A run in which a late give-back lets two operations into a window that allows one. |
| `Intervals.ParseIntervalReads` | crates/core/src/rate_limiting/rate_limiter.rs:49-64 | Any padded number and letter: n seconds or n minutes, at least one second, minutes wrapping at 32 bits; one minute for a number beyond 32 bits or another letter. |
| `Intervals.ParseInterval` | crates/core/src/rate_limiting/rate_limiter.rs:49-64 | Any text at all is a window of at least one second that fits 32 bits. |
| `Intervals.WordsAreOneUnit` | crates/core/src/rate_limiting/rate_limiter.rs:49-64 | The words second and seconds are one second, minute and minutes sixty, whatever white space is around them. |
| `Intervals.JunkIsAMinute` | crates/core/src/rate_limiting/rate_limiter.rs:49-64 | Text that is neither such a word nor a number with s or m is one minute. |
| `Intervals.CronIntervalReads` | crates/core/src/yaml.rs:1053-1078 | A number and a letter as the cron parser reads them: seconds, minutes, hours, days and weeks as so many seconds at 64 bits; zero and any other ASCII letter are errors. |
| `Intervals.CronRefusesFirst` | crates/core/src/yaml.rs:1053-1058 | Text that is too short or not ASCII is refused before a number is looked for. |
| `Intervals.PlusSignIsIgnored` | crates/core/src/yaml.rs:1053-1078 | A plus sign before the number changes nothing, for either parser. |
| `Intervals.ParsersAgreeOnSecondsAndMinutes` | crates/core/src/yaml.rs:1053-1078 | On an interval both can express without wrapping, the two parsers agree exactly for seconds and minutes; hours, days and weeks are one minute to the rate limiter. |
| `Intervals.AcceptedIntervalIsPositive` | crates/core/src/yaml.rs:1053-1078 | An accepted schedule is positive exactly when its 64-bit product does not wrap to zero, and exact when it does not wrap. |
| `Intervals.AcceptedScheduleCanBeZero` | crates/core/src/yaml.rs:1053-1078 | A family of accepted schedules whose interval is zero. |
| `TokenAmount.PrintedAmountsReadBack` | crates/core/src/shared/utils.rs:51-63 | Printing then reading at the same decimals is the identity on all 256-bit amounts, if and only if decimals <= 19. |
| `TokenAmount.PrintedFormIsCanonical` | crates/core/src/shared/utils.rs:51-63 | The printed form has no leading zero, no bare point, no trailing zero after the point and at most `decimals` places. |
| `TokenAmount.PrintingIsInjective` | crates/core/src/shared/utils.rs:51-63 | Different amounts print differently. |
| `TokenAmount.DivisorWrapsToZero` | crates/core/src/shared/utils.rs:51-63 | The 64-bit divisor is zero, and the printer panics on every amount, if and only if decimals >= 64. |
| `TokenAmount.CliIsPlain` | crates/cli/src/commands/balance.rs:54-74 | The CLI's printer prints the plain decimal form for up to 77 decimals. |
| `TokenAmount.PrintersAgreeUpTo19` | crates/cli/src/commands/balance.rs:54-74 | The core printer and the CLI printer agree on all 256-bit amounts, if and only if decimals <= 19. |
| `TokenAmount.TokenConfigRoundTrip` | crates/core/src/yaml.rs:776-881 | Every 256-bit token configuration survives being written and read, if and only if decimals <= 19. |
| `TokenAmount.MissingDecimalsAreEighteen` | crates/core/src/yaml.rs:796-912 | Fields without decimals are read as if they said 18. |
| `TokenAmount.SurplusDigitsAreCutOff` | crates/core/src/yaml.rs:811-816 | Fraction digits that the decimals leave no room for are cut off, not rounded. |
| `TokenAmount.UnreadableIsZero` | crates/core/src/yaml.rs:811-816 | An amount with anything but digits and a point, or at more than 77 decimals, is silently zero. |
| `NonceManager.NonceManager.constructor` | crates/core/src/transaction/nonce_manager.rs:10-12 | The manager starts at the given next-free nonce. |
| `NonceManager.NonceManager.GetAndIncrement` | crates/core/src/transaction/nonce_manager.rs:14-19 | Hands out the next-free nonce and moves past it. |
| `NonceManager.NonceManager.SyncWithOnchainNonce` | crates/core/src/transaction/nonce_manager.rs:21-26 | The next-free nonce becomes the larger of itself and the on-chain value. |
| `NonceManager.NonceManager.ReleaseUnbroadcastNonce` | crates/core/src/transaction/nonce_manager.rs:33-40 | Gives back the newest reservation and no other. |
| `NonceManager.NonceManager.AdvanceAfterPersistedReservation` | crates/core/src/transaction/nonce_manager.rs:42-48 | The next-free nonce ends above the persisted one, and at no other value than its old one or the one right after it. |
| `NonceManager.NonceManager.GetCurrentNonce` | crates/core/src/transaction/nonce_manager.rs:28-31 | Reads the next-free nonce and changes nothing. |
| `NonceManager.EveryNonceHasOneFate` | crates/core/src/transaction/nonce_manager.rs:14-48 | Over every run releasing only live reservations: live nonces are below the next-free one, every nonce from the start to it is exactly one of live, used, skipped or a gap, and the next reservation is none of these. |
| `NonceManager.PersistedIsNeverReserved` | crates/core/src/transaction/queue_system/transactions_queues.rs:94-104 | Over every run: a nonce persisted with a transaction is used from then on, and the next-free nonce stays above it whatever is reserved, released, synced or advanced later. |
| `NonceManager.SavedIsNeverReserved` | crates/core/src/transaction/nonce_manager.rs:14-48 | The same for a reservation that was saved: no later reservation gets its nonce. |
| `NonceManager.JumpsGoNoFurther` | crates/core/src/transaction/nonce_manager.rs:21-48 | Sync and advance jump exactly to the larger of the old value and the on-chain value or the successor of the persisted nonce, and skip only nonces below what they name. |
| `NonceManager.RestoresIffReleasedInReverse` | crates/core/src/transaction/nonce_manager.rs:33-40 | Releasing k nonces takes the next-free nonce back by k, if and only if they are released newest first. |
| `NonceManager.EachReleaseGivesBackAtMostOne` | crates/core/src/transaction/nonce_manager.rs:33-40 | Releases in any order give back at most one each. |
| `NonceManager.NextFreeFollowsTheChain` | crates/core/src/transaction/nonce_manager.rs:21-40 | The next-free nonce stays at or above every on-chain value synced so far all through a run, if and only if the run never releases the newest nonce after the chain has passed it. |
| `NonceManager.UncheckedReleaseFallsBehind` | crates/core/src/transaction/nonce_manager.rs:21-40 | A run of three calls without that check that falls behind the chain; the queue never makes these calls in this order. |
| `NonceManager.QueueNeverFallsBehind` | crates/core/src/transaction/queue_system/transactions_queues.rs:472-566 | Runs in the order of the queue (sync, reserve, then keep or release that nonce; or advance) never have the next-free nonce below a synced value at any point, whatever the chain answers and whichever saves fail. |
| `RpcAggregation.PendingNonceAcrossClients` | crates/core/src/provider/evm_provider.rs:658-692 | The nonce is the maximum, exactly when there are clients and all of them answered; otherwise the first error in order, or the no-provider error. |
| `RpcAggregation.TransactionExistsAcrossClients` | crates/core/src/provider/evm_provider.rs:694-719 | True exactly when some client knows the hash, false exactly when a non-empty list all miss; otherwise the first error in order. |
| `RpcAggregation.NonceIgnoresOrder` | crates/core/src/provider/evm_provider.rs:658-692 | A successful nonce is the same for every order of the clients. |
| `RpcAggregation.ExistenceIgnoresOrder` | crates/core/src/provider/evm_provider.rs:694-719 | So is a successful existence answer. |
| `Shutdown.ShutdownCoordinator.constructor` | crates/core/src/shutdown.rs:24-33 | Nothing active, nothing requested. |
| `Shutdown.ShutdownCoordinator.TestFlag` | crates/core/src/shutdown.rs:47-50 | The flag test of entering, as a step of its own. |
| `Shutdown.ShutdownCoordinator.AddOperation` | crates/core/src/shutdown.rs:51-53 | The increment of entering, as a step of its own. |
| `Shutdown.ShutdownCoordinator.ExitOperation` | crates/core/src/shutdown.rs:55-60 | One less, never wrapping, and the drain is woken exactly when the last guard goes. |
| `Shutdown.ShutdownCoordinator.RequestShutdown` | crates/core/src/shutdown.rs:62-70 | Sets the flag and nothing else. |
| `Shutdown.ShutdownCoordinator.OperationsRemain` | crates/core/src/shutdown.rs:85-89 | One look of the drain: true exactly when some guard is live. |
| `Shutdown.CountIsLiveGuards` | crates/core/src/shutdown.rs:43-60 | In every interleaving the counter is the number of live guards, so it never wraps. |
| `Shutdown.CommittedOnlyShrinks` | crates/core/src/shutdown.rs:43-60 | Once the flag is set, live guards and callers past the test only ever become fewer. |
| `Shutdown.ZeroIsFinalIffNobodyIsPastTheTest` | crates/core/src/shutdown.rs:68-89 | A drain that reads zero means that nothing is ever active again, if and only if no caller is between the test and the increment. |
| `Shutdown.DrainCanBeOvertaken` | crates/core/src/shutdown.rs:47-89 | An interleaving in which the drain reads zero and an operation starts afterwards. |
| `WebhookDelivery.DeliveryCell.MarkAttempt` | crates/core/src/webhooks/types.rs:132-139 | One more attempt, its time, and the next retry when a delay is given. |
| `WebhookDelivery.DeliveryCell.MarkCompleted` | crates/core/src/webhooks/types.rs:141-144 | Completed with no retry planned; everything else stays. |
| `WebhookDelivery.DeliveryCell.MarkFailed` | crates/core/src/webhooks/types.rs:146-150 | Failed with its error and no retry planned; everything else stays. |
| `WebhookDelivery.DeliveryCell.HandleFailedAttempt` | crates/core/src/webhooks/sender.rs:134-190 | A failed attempt counts, plans the next retry while one is left, and fails the delivery when none is. |
| `WebhookDelivery.SendWebhook` | crates/core/src/webhooks/sender.rs:38-109 | The delivery after one request. |
| `WebhookDelivery.SendMultipleWebhooks` | crates/core/src/webhooks/sender.rs:199-229 | A batch returns the deliveries as sent, in order, except those whose task panicked. |
| `WebhookDelivery.SurvivorAt` | crates/core/src/webhooks/sender.rs:199-229 | Each delivery whose task finished is in the results as sent, at the place given by the finished tasks before it, and there are no other results. |
| `WebhookDelivery.RetryDelayIs` | crates/core/src/webhooks/sender.rs:192-197 | Attempt n below 2^31 waits 1000 * 2^n ms up to 64 seconds, and 120 seconds from the eighth attempt on. |
| `WebhookDelivery.WrappedDelayIs` | crates/core/src/webhooks/sender.rs:192-197 | From 2^31 on the exponent is negative and the delay is zero, except for the nine attempt numbers just below 2^32. |
| `WebhookDelivery.BackoffHoldsIffNotWrapped` | crates/core/src/webhooks/sender.rs:192-197 | The delay is at least min(1000 * 2^n, 120000), if and only if n fits a signed 32-bit integer. |
| `WebhookDelivery.SendingKeepsSound` | crates/core/src/webhooks/types.rs:117-150 | Sending a delivery that may be sent keeps it sound, uses exactly one attempt or completes it, and fails it exactly on the last attempt. |
| `WebhookDelivery.SendingWrites` | crates/core/src/webhooks/sender.rs:38-190 | What sending writes, field by field: success completes; a failure counts the attempt with its start time and plans the next after the literal delay, or fails the delivery with the error when it was the last. |
| `WebhookDelivery.SingleWorkerBounds` | crates/core/src/webhooks/sender.rs:134-197 | However a single worker polls: at most max_retries requests, never both completed and failed, and the n-th retry waits at least the capped backoff. |
| `WebhookDelivery.KeptPolledItEnds` | crates/core/src/webhooks/types.rs:117-150 | Polled max_retries times, the longest backoff apart, a delivery ends in exactly one of completed and failed. |
| `WebhookDelivery.NoRetriesMeansNeverSent` | crates/core/src/webhooks/types.rs:117-130 | With max_retries = 0 a delivery is never sent and never becomes terminal. |
| `WebhookStore.WebhookManager.constructor` | crates/core/src/webhooks/manager.rs:39-68 | A manager starts with no pending delivery. |
| `WebhookStore.WebhookManager.QueueWebhook` | crates/core/src/webhooks/manager.rs:215-282 | One new delivery per matching configuration is put into the shared map. |
| `WebhookStore.WebhookManager.ReadyDeliveries` | crates/core/src/webhooks/manager.rs:292-297 | Exactly the stored deliveries that may be sent now are copied out, each once. |
| `WebhookStore.WebhookManager.WriteBack` | crates/core/src/webhooks/manager.rs:308-311 | Each result is stored under its own identifier over whatever is there. |
| `WebhookStore.WebhookManager.CleanupDeliveries` | crates/core/src/webhooks/manager.rs:316-326 | Exactly the terminal deliveries are removed. |
| `WebhookStore.EventReachesExactlyTheMatches` | crates/core/src/webhooks/manager.rs:250-282 | A configuration gets exactly one delivery from an event if it lists the chain, all networks or none, and for a low-balance alert has asked for alerts; otherwise none. The delivery carries the event type and payload, no attempt, and the configured number of attempts or three. |
| `WebhookStore.EventKeepsOthers` | crates/core/src/webhooks/manager.rs:279-282 | An event with fresh identifiers leaves every stored delivery as it was. |
| `WebhookWorkers.StoringIsMerging` | crates/core/src/background_tasks/webhook_manager_task.rs:104-109 | Storing a batch one by one is merging it into the map. |
| `WebhookWorkers.SnapshotTakesTheDue` | crates/core/src/webhooks/types.rs:117-130 | In every interleaving a worker takes along exactly the stored deliveries that are neither completed nor failed, have an attempt left and are not before their planned retry. |
| `WebhookWorkers.StepCounts` | crates/core/src/background_tasks/webhook_manager_task.rs:81-110 | A request is counted exactly when one goes out, and as lost exactly when it panics or its batch is discarded. |
| `WebhookWorkers.StoredDeliveriesAreSound` | crates/core/src/background_tasks/webhook_manager_task.rs:81-125 | In every interleaving of queueing, workers with stale copies, lost results and cleanup: a stored delivery with an attempt allowed is never both completed and failed, has used at most its attempts, is failed only with all used and open only with one left. |
| `WebhookWorkers.OnlyTerminalDeliveriesLeave` | crates/core/src/background_tasks/webhook_manager_task.rs:113-125 | Over every run, a queued delivery that is no longer stored was terminal in the map when a sweep took it. |
| `WebhookWorkers.OnlyTheSweeperRemoves` | crates/core/src/background_tasks/webhook_manager_task.rs:113-125 | In one step a stored delivery leaves the map exactly when the step is a sweep and it is terminal. |
| `WebhookWorkers.CompletionIsFinalIff` | crates/core/src/background_tasks/webhook_manager_task.rs:81-125 | In every reachable state, a completed delivery stays completed whatever happens later, if and only if no worker holds an unsent copy of it or a result of it that is not success. |
| `WebhookWorkers.StaleCopyUndoesCompletion` | crates/core/src/background_tasks/webhook_manager_task.rs:81-110 | A run of two workers after which a delivered and completed delivery is open again. |
| `WebhookWorkers.ExclusiveWorkersBoundSends` | crates/core/src/background_tasks/webhook_manager_task.rs:81-125 | With one worker per delivery at a time: at most max_retries requests, not counting those whose result was never recorded. |
| `WebhookWorkers.RequestsAreUnbounded` | crates/core/src/background_tasks/webhook_manager_task.rs:81-110 | Without exclusivity there is no bound: for every n some run requests a new delivery, even one with a single attempt allowed, at least n times. |
| `WebhookWorkers.FinishedIsFinal` | crates/core/src/background_tasks/webhook_manager_task.rs:81-125 | A terminal delivery with no copy out is never requested again and never stored differently. |
| `WebhookWorkers.ExclusiveCompletionIsFinal` | crates/core/src/background_tasks/webhook_manager_task.rs:81-125 | With one worker per delivery at a time, completion and failure are final whatever happens later. |
| `Cron.CronJobState.MarkCronJobRan` | crates/core/src/background_tasks/cron_job_task.rs:48-67 | The row becomes the given time exactly when the save succeeds. |
| `Cron.CronJobState.NextCronJobDelay` | crates/core/src/background_tasks/cron_job_task.rs:136-177 | The startup delay in every case, and the anchor that is written when there is no row. |
| `Cron.CronJobState.EnqueueCronJobTransaction` | crates/core/src/background_tasks/cron_job_task.rs:197-243 | Only a queued transaction is saved as a run. |
| `Cron.RunsAreSpaced` | crates/core/src/background_tasks/cron_job_task.rs:103-177 | Across any restarts, failed saves, failed reads and failed attempts: successive runs are at least one interval apart, unless the save of the first was lost and the process stopped in between. |
| `Cron.SteadyRunsAreOneIntervalApart` | crates/core/src/background_tasks/cron_job_task.rs:123-133 | A job that is not stopped, wakes and enqueues as soon as it can and loses no time saving queues one run per turn, the first one interval from now and each exactly one interval after the one before, whether or not saves succeed. |
| `Cron.TurnsQueueTheirRuns` | crates/core/src/background_tasks/cron_job_task.rs:123-133 | However late it wakes, however long an attempt takes and whichever attempts fail: a job that is not stopped queues exactly one run per successful attempt, one interval plus its lateness after the end of the attempt before. |
| `Cron.WakesOneIntervalLater` | crates/core/src/background_tasks/cron_job_task.rs:123-133 | After an attempt, queued or not and saved or not, the job sleeps until exactly one interval later and can wake at no moment before that. |
| `Cron.StartSleepsUntil` | crates/core/src/background_tasks/cron_job_task.rs:136-177 | What a starting process sleeps until in each case: a whole interval after a failed read, one interval after the row or at once when that is over, at once for a job that runs on startup, and a whole interval after the anchor otherwise. |
| `Cron.MarksAreKept` | crates/core/src/background_tasks/cron_job_task.rs:197-243 | A queued run keeps its time, and once marked as saved or cut it stays so, over every later run. |
| `Cron.NextRunIsSpacedIff` | crates/core/src/background_tasks/cron_job_task.rs:103-177 | In every reachable stopped state the next run is at least one interval after the last whatever happens, if and only if the interval is over, or the row is at least as late as that run, or there is no row and the job does not run on startup. |
| `Cron.LostSaveRunsTwice` | crates/core/src/background_tasks/cron_job_task.rs:103-177 | A run of a job that runs on startup in which a lost save makes it run twice at the same moment. |
| `Cron.DueAfterRestartIsTheMachines` | crates/core/src/background_tasks/cron_job_task.rs:103-177 | The due time after a restart is the one the state machine computes. |
| `Cron.RestartDelaysNothingIff` | crates/core/src/background_tasks/cron_job_task.rs:136-177 | In every reachable state of a sleeping job, a restart does not make it due later, if and only if the row can be read and is there (or the job runs on startup), or a whole interval fits anyway. |
| `Cron.RestartsCannotStarve` | crates/core/src/background_tasks/cron_job_task.rs:136-177 | With a stored row the job stays due one interval after it, however often the process is restarted. |
| `Cron.UnsavedAnchorStarves` | crates/core/src/background_tasks/cron_job_task.rs:153-167 | Without a row, a restart that cannot save the anchor makes the job due a whole interval later each time. |
| `TtlCache.Cache.InsertWithExpiry` | crates/core/src/shared/cache.rs:94-104 | The entry expires the given time from now; no other entry changes. |
| `TtlCache.Cache.Insert` | crates/core/src/shared/cache.rs:90-92 | The entry expires in ten minutes. |
| `TtlCache.Cache.Get` | crates/core/src/shared/cache.rs:106-114 | Exactly an entry that has not expired is answered. |
| `TtlCache.Cache.Delete` | crates/core/src/shared/cache.rs:116-118 | The entry is gone and handed back, expired or not. |
| `TtlCache.Cache.Sweep` | crates/core/src/shared/cache.rs:120-129 | Exactly the expired entries go, and no later get can tell. |
| `TtlCache.Cache.GetThrough` | crates/core/src/relayer/get_relayer.rs:13-27 | The read-through getter answers the cached row or else the database and caches that; a "none" answer always comes from the database, and a database error leaves the cache alone. |
| `TtlCache.Cache.Invalidate` | crates/core/src/relayer/cache.rs:33-35 | The row of one key is gone from the cache, every other entry stays. |
| `TtlCache.KeysAreInjective` | crates/core/src/transaction/cache.rs:8-10 | The cache keys of relayers and transactions never collide. |
| `ReadThrough.RunKeepsTags` | crates/core/src/transaction/cache.rs:12-31 | In every interleaving of getters, writers and the sweeper, no getter finds a value of another kind under its key. |
| `TtlCache.SweepIsInvisible` | crates/core/src/shared/cache.rs:90-129 | Over any operations, every get answers as if nothing had ever been swept. |
| `ReadThrough.HitsAreRecentRows` | crates/core/src/transaction/get_transaction.rs:12-26 | In every interleaving, a row answered from the cache was read from the database by a getter that filled the cache less than 600 seconds ago, and was not invalidated after that fill. |
| `ReadThrough.FilledAnswersForTenMinutes` | crates/core/src/shared/cache.rs:90-114 | A filled entry answers with what was read for exactly the next 600 seconds. |
| `ReadThrough.AtomicHitsFollowInvalidations` | crates/core/src/transaction/get_transaction.rs:12-26 | With uninterrupted getters it was in the database less than 600 seconds ago and after the last invalidation. |
| `ReadThrough.InvalidationHoldsIff` | crates/core/src/relayer/cache.rs:33-35 | At every invalidation: from then on the cache answers only rows that the database holds from then on, if and only if no getter is carrying a row that the database no longer holds. |
| `ReadThrough.LateFillSurvivesInvalidation` | crates/core/src/relayer/get_relayer.rs:13-27 | A run in which such a getter fills the cache with an old row after the invalidation. |
| `Permissions.AddressesRoundTrip` | crates/core/src/yaml.rs:708-768 | Writing and reading an address list never changes who is meant, and changes the value only for a list of one. |
| `Permissions.BuildTables` | crates/core/src/startup.rs:455-496 | The permission and internal-only tables of the whole configuration, in order. |
| `Permissions.NetworkPermissionValidate` | crates/core/src/app_state.rs:310-360 | Accepts exactly when no entry of the chain denies, and otherwise answers with the first denial of the first denying entry. |
| `Permissions.EntryAllowsIff` | crates/core/src/app_state.rs:318-356 | An entry allows a transaction, or the signing of typed data, unless it names the relayer and has set the flag of that very action, lists other recipients only, or has set the native-transfer flag for a value; an unset flag forbids nothing. |
| `Permissions.FirstReason` | crates/core/src/app_state.rs:318-356 | The reason given is the action first, then the recipient, then the value. |
| `Permissions.RestrictedIff` | crates/core/src/startup.rs:480-495 | A relayer is internal on a chain, if and only if some top-up of a network of that chain is funded by it and does not say internal_only: false. |
| `Permissions.ValidateCronJobTransactionPermissions` | crates/core/src/background_tasks/cron_job_task.rs:296-344 | Accepts exactly when no entry of the chain's first network denies; a value that does not parse counts as zero. |
| `Permissions.TableFindsFirstWithPermissions` | crates/core/src/app_state.rs:106-111 | Looking a chain up in the table finds the first network of the chain that has permissions. |
| `Permissions.ChecksAgreeIff` | crates/core/src/background_tasks/cron_job_task.rs:301-344 | The cron check and the API check over the startup tables agree on all requests, if and only if the chain's first network has permissions or no other has, or all the entries the API reads are harmless. |
| `Permissions.ChecksAgreeOnDistinctChains` | crates/core/src/background_tasks/cron_job_task.rs:301-344 | With distinct chain ids they always agree. |
| `Permissions.HarmfulEntryDenies` | crates/core/src/app_state.rs:318-356 | An entry denies some transaction exactly when it names somebody and forbids something. |
| `Permissions.InternalOnlyFiltersAgree` | crates/core/src/background_tasks/cron_job_task.rs:261-270 | For any configuration the cron filter excludes exactly the relayers that `restricted` reports. |
| `Permissions.CronUsesWhomTheApiAllows` | crates/core/src/background_tasks/cron_job_task.rs:272-283 | With distinct chain ids a cron job draws from exactly the unpaused relayers it names that the API would let send the same transaction. |
| `Cidr.ContainsIsSharedPrefix` | crates/core/src/policy/ip_allowlist.rs:18-20 | A block contains exactly the addresses of its family that share its prefix (section 3.1 of RFC 4632). |
| `Cidr.WidestAndNarrowest` | crates/core/src/policy/ip_allowlist.rs:18-23 | Prefix length zero is the whole family; /32 is one host of version 4 and /128 one of version 6. |
| `Cidr.BlocksNest` | crates/core/src/policy/ip_allowlist.rs:18-20 | Two blocks that share an address are nested. |
| `Cidr.HostBitsDoNotMatter` | crates/core/src/policy/ip_allowlist.rs:18-20 | Any member of a block names the same block. |
| `Text.TrimDropsPadding` | crates/core/src/policy/ip_allowlist.rs:12-15 | White space around a text never changes what it trims to. |
| `Text.TrimStrips` | crates/core/src/policy/ip_allowlist.rs:12-15 | Trimming takes white space off both ends, all of it and nothing else. |
| `Policy.PaddedRuleIsTheSame` | crates/core/src/policy/ip_allowlist.rs:12-26 | Padding around a rule never matters. |
| `Policy.FirstDecidingRuleAnswers` | crates/core/src/policy/ip_allowlist.rs:37-44 | The answer is that of the first rule that admits the client or cannot be read, and "not allowed" when there is none. |
| `Policy.ValidatedIffReadable` | crates/core/src/policy/ip_allowlist.rs:28-34 | Startup accepts a list exactly when every rule can be read, although it asks with one sentinel address. |
| `Policy.ValidatedListsDecide` | crates/core/src/policy/ip_allowlist.rs:28-44 | A list accepted at startup never fails for any client and allows it exactly when some rule admits it. |
| `PolicyDecision.AdmitsIff` | crates/core/src/policy/ip_allowlist.rs:12-26 | A rule admits a client, if and only if its trimmed text is a block of the same family whose prefix the client shares, or else the client's own address. |
| `PolicyDecision.ListAnswers` | crates/core/src/policy/ip_allowlist.rs:37-44 | A list admits a client, if and only if some rule admits it and every rule before can be read; it is an error, if and only if some rule cannot be read and no rule before admits. |
| `Policy.RuleOrderDoesNotMatter` | crates/core/src/policy/ip_allowlist.rs:37-44 | For such a list neither order nor repetition matters. |
| `Policy.LostSecretIsTheOperators` | crates/core/src/policy/signature.rs:60-64 | A missing or blank secret is reported as such for every request, and nothing else is. |
| `Policy.TokenIsGoodStrictlyBeforeExp` | crates/core/src/policy/signature.rs:53-99 | A request is never accepted, or it carries a token that is accepted strictly before its `exp` and at no moment from then on (section 4.1.4 of RFC 7519). |
| `PolicyDecision.TokenIsAcceptedIff` | crates/core/src/policy/signature.rs:53-99 | A request is accepted, if and only if the secret is there and not blank, and the configured header (x-appsmith-signature by default) carries a token that decodes under the secret to an `exp` after now. |
| `PolicyDecision.RefusedTokenErrors` | crates/core/src/policy/signature.rs:53-99 | Which error a refused request gets: the secret first, then the header, then the token. |
| `PolicyDecision.PolicyPassesIff` | crates/core/src/policy/mod.rs:13-56 | For every configuration and every request: it passes, if and only if every entry about the relayer admits its known address and its token; otherwise the first entry that does not gives the status: 403 for an address that is unknown or not on the list, 500 for a list that cannot be read so far or a lost secret, 401 when only the token is bad, IP before JWT. |
| `PolicyDecision.AcceptedAtStartupIff` | crates/core/src/yaml.rs:385-415 | Startup accepts exactly the entries whose rules are all blocks or addresses and whose signature controls name a secret that is there and, if any, a usable header. |
| `PolicyDecision.AcceptedPolicyFailsOnlyOnLostSecrets` | crates/core/src/yaml.rs:1247-1257 | With a configuration accepted at startup the answer is an internal error, if and only if the first entry to refuse admits the address and has lost its secret; while the secrets stay, never. |
| `Policy.PoliciesCompose` | crates/core/src/policy/mod.rs:13-56 | Entries compose with "and", the earlier list answering first. |
| `TopUp.AutomaticTopUpTask.constructor` | crates/core/src/background_tasks/automatic_top_up_task.rs:47-64 | An empty relayer cache and nothing queued. |
| `TopUp.AutomaticTopUpTask.RefreshRelayerCache` | crates/core/src/background_tasks/automatic_top_up_task.rs:89-109 | Every chain holds the rows read for it last, one that could not be read its old rows, and only rows of that chain. |
| `TopUp.LastReadIs` | crates/core/src/background_tasks/automatic_top_up_task.rs:89-109 | The rows read last for a chain are the answer at its last position that brought any. |
| `TopUp.AutomaticTopUpTask.ResolveRelayerAddresses` | crates/core/src/background_tasks/automatic_top_up_task.rs:575-660 | The targets: registered addresses only, never the funder; a database error ends a list but empties "all". |
| `TopUp.AutomaticTopUpTask.SendTopUp` | crates/core/src/background_tasks/automatic_top_up_task.rs:442-572 | Queues one transaction exactly when every guard passes, and nothing otherwise; the guard of a Safe, its signature, never passes. |
| `TopUp.AutomaticTopUpTask.ProcessTopUps` | crates/core/src/background_tasks/automatic_top_up_task.rs:235-439 | One pass over one asset: targets below their minimum, the funding check, then the sends; what it queues is what `TopUpDelivery.PassTopsUpExactly` says. |
| `TopUp.AutomaticTopUpTask.ProcessTokens` | crates/core/src/background_tasks/automatic_top_up_task.rs:205-223 | One pass per configured token, in order. |
| `TopUp.AutomaticTopUpTask.ProcessTopUpConfig` | crates/core/src/background_tasks/automatic_top_up_task.rs:165-232 | Native currency first, then every token, on the same targets. |
| `TopUp.ResolvedCounts` | crates/core/src/background_tasks/automatic_top_up_task.rs:575-660 | Each address is a target exactly as often as it is asked for, the funder and unregistered addresses never. |
| `TopUpDelivery.TargetsAreThoseAskedFor` | crates/core/src/background_tasks/automatic_top_up_task.rs:575-660 | The targets are the addresses asked for, in their order, without the funder and the unregistered. |
| `TopUp.CallMovesTheTopUp` | crates/core/src/background_tasks/automatic_top_up_task.rs:484-517 | A direct call moves exactly the top-up amount of the asset from the sender to the recipient; through a Safe it would move it from the Safe. |
| `TopUp.CreateSafeTransaction` | crates/core/src/safe_proxy.rs:281-344 | A Safe transaction is never created: its nonce is read, and then there is no signature. |
| `TopUp.SafeQueuesNothing` | crates/core/src/safe_proxy.rs:281-344 | With a Safe a configuration queues nothing, whatever is answered. |
| `TopUp.SufficientIsRightIff` | crates/core/src/background_tasks/automatic_top_up_task.rs:663-709 | A "sufficient" answer means that the balances cover all top-ups with gas, if and only if its 256-bit products did not wrap. |
| `TopUp.TimesIsProduct` | crates/core/src/background_tasks/automatic_top_up_task.rs:684-685 | The sums the check is stated with are the products of the source. |
| `TopUp.WrappedCheckFundsNothing` | crates/core/src/background_tasks/automatic_top_up_task.rs:684-708 | With some amount two top-ups are judged affordable by a funder with nothing. |
| `TopUp.QueuedTotalIsWithinBalances` | crates/core/src/background_tasks/automatic_top_up_task.rs:235-439 | In a pass whose check answered "sufficient" without wrapping, everything queued plus estimated gas is within the balances read; tokens and gas separately for a token. |
| `TopUp.PayersCanAlwaysPay` | crates/core/src/background_tasks/automatic_top_up_task.rs:663-709 | A rightly sufficient pass asks nobody to pay more than it has, for every configuration and whatever is answered. |
| `TopUp.UnreadBalanceFailsOpen` | crates/core/src/background_tasks/automatic_top_up_task.rs:299-305 | A balance that cannot be read, native or token, lets the pass queue what it would have queued with enough. |
| `TopUp.PassTopsUpTheNeedy` | crates/core/src/background_tasks/automatic_top_up_task.rs:244-331 | Whatever is answered, every queued entry is the exact top-up of a registered target, not the funder, that was below its minimum. |
| `TopUpDelivery.PassIsAllOrNothing` | crates/core/src/background_tasks/automatic_top_up_task.rs:235-439 | Whatever is answered, a pass queues nothing or exactly one top-up for each target in need whose send goes through, in order: nobody is funded more often than listed. |
| `TopUpDelivery.PassTopsUpExactly` | crates/core/src/background_tasks/automatic_top_up_task.rs:235-439 | What a pass queues, exactly, when the totals fit 256 bits: nothing if the balances were read and do not cover amounts and gas for all targets in need; otherwise one top-up for each target in need whose send goes through, in their order and as often as listed. |
| `TopUpDelivery.CheckFailsIff` | crates/core/src/background_tasks/automatic_top_up_task.rs:663-709 | The funding check answers no, if and only if the balances were read and fall short of the amounts with 21000 gas, or 65000 for a token, at the price read or 20 gwei. |
| `TopUpDelivery.SendQueuesIff` | crates/core/src/background_tasks/automatic_top_up_task.rs:442-572 | A send queues its one top-up, if and only if there is no Safe, the recipient is a registered relayer other than the funder, the funder is cached or stored, and the queue accepts. |
| `TopUpDelivery.SenderIsTheFirstCached` | crates/core/src/background_tasks/automatic_top_up_task.rs:528-548 | The sender is the first relayer with the funder's address on the first cached chain that has one. |
| `TopUpDelivery.SenderIsTheStoredRow` | crates/core/src/background_tasks/automatic_top_up_task.rs:528-548 | When no cached chain has one, the sender is the row stored for this chain, if any. |
| `TopUpDelivery.EveryoneInNeedIsToppedUp` | crates/core/src/background_tasks/automatic_top_up_task.rs:235-439 | When the balances cover the totals and no send fails, the recipients are exactly the targets below their minimum, in order and with multiplicity. |
| `TopUpDelivery.NobodyInNeedIsForgotten` | crates/core/src/background_tasks/automatic_top_up_task.rs:165-232 | Over a whole configuration: every target below the minimum of any configured asset is topped up in that asset when the balances cover all targets and the sends work. |
| `TopUp.ConfigPassIsConfigured` | crates/core/src/background_tasks/automatic_top_up_task.rs:165-232 | Everything one configuration queues is a configured top-up of a relayer of the chain that was asked for and is not the funder. |
| `TopUp.SenderIsOnTheChainIff` | crates/core/src/background_tasks/automatic_top_up_task.rs:528-548 | A top-up is queued for a relayer of the chain being topped up, whatever the hash map's order, if and only if no other cached chain has a relayer with the funder's address. |

## Left out

- RateWindow.ReserveOnKey: counters are unbounded numbers; the wrap of a u64 after 2^64 operations is not modelled.
- NonceManager.EveryNonceHasOneFate: nonces are unbounded numbers; the end of the 64-bit range is not modelled.
- RateLimiter.RateLimitReservation.Drop: the subtraction runs at once instead of in a spawned task; `RateInterleaving` and `RateAccounting` let it land at any later moment.
- RateWindowLaw.AdmissionsInAStretch: serial runs without reverts; reverts and concurrency are the subject of `RateAccounting`, `RateInterleaving` and `RateStretch`.
- RateLimiter.RateLimiter.CheckAndReserve: hexadecimal formatting of the relayer address and HTTP header decoding are inputs.
- TokenAmount.PrintedAmountsReadBack: the reader is modelled on plain decimal text; signs, underscores and hexadecimal are never printed.
- TokenAmount.TokenConfigRoundTrip: YAML quoting and the other fields of the configuration file.
- Shutdown.CountIsLiveGuards: the relaxed atomics are modelled as sequentially consistent.
- Shutdown.ShutdownCoordinator.RequestShutdown: the broadcast to subscribers and the timed wait that follow the flag.
- Shutdown.ZeroIsFinalIffNobodyIsPastTheTest: liveness of the drain and its timeout, since a wake-up between the load and the wait can be missed and end in the timeout.
- WebhookDelivery.SendWebhook: the HTTP request, the signature header and the database log of attempts are an outcome.
- WebhookDelivery.RetryDelayIs: the floating-point power is an exact integer with the default settings (1000 ms, factor 2.0, 120000 ms).
- WebhookStore.WebhookManager.QueueWebhook: the four queueing functions of the manager are one, by kind of event; serialisation failures queue nothing and are not modelled.
- WebhookWorkers.StoredDeliveriesAreSound: identifiers are assumed never to repeat (random UUIDs).
- Cron.RunsAreSpaced: one process at a time; two processes sharing a row are not modelled.
- ReadThrough.HitsAreRecentRows: rows are versions; what a relayer or transaction record contains is not part of this model.
- Permissions.CronUsesWhomTheApiAllows: the random draw among the available relayers, and the encoding of the transaction's data.
- Permissions.NetworkPermissionValidate: personal signing has its own switch and check, which would only repeat this one.
- Policy.FirstDecidingRuleAnswers: the text grammars of addresses and blocks are inputs; only their order, trimming and the empty rule are modelled.
- Policy.TokenIsGoodStrictlyBeforeExp: the token's signature, algorithm and claims format are one opaque answer; header names are compared as given.
- PolicyDecision.PolicyPassesIff: how the client address is found from the connection or a forwarding header.
- TopUp.AutomaticTopUpTask.ProcessTopUps: the native and the token functions of the source are the same loop and are modelled as one method.
- TopUp.AutomaticTopUpTask.SendTopUp: wallet indexes, the Safe's nonce and the transaction queue are answers; Safe encoding is never reached.
- TopUp.QueuedTotalIsWithinBalances: several passes that read the same balance are each bounded on their own.
- Wallet managers, Safe hashing, the transaction queue, gas estimation, blob prices, HTTP routes, the CLI, the SDKs and the Postgres schema are not part of this model.
