# Verification of the MultiSubs card, settlement and treasury core

A Dafny model of the stateful core of the MultiSubs platform, with proofs about it. `dafny verify dfyconfig.toml`
checks the whole project.

Code that updates state in place is a class whose methods are proved against pure specification functions; protocols
whose steps interleave are state machines with one transition function and runs over any sequence of steps. A call
that reverts, and a step that is not enabled, changes nothing. The properties are about the specification functions
and about every run.

| files | what they model |
|---|---|
| `Decimal`, `JsNumbers`, `SpendScript` | the Lua spend script's arithmetic on decimal strings, the script, and the BigInt function that does the same job |
| `Authorization` | concurrent card authorizations against one cache entry, one Redis command at a time |
| `RateLimit` | the request limiter |
| `SpendSettler` | on-chain settlement with its 200-slot circular buffer |
| `SettlementProtocol`, `SettlementFinality`, `SettlementLiveness`, `SettlementAttempts`, `SettlementService` | the settlement service against that contract: safety, what a given-up settlement can still do, termination, numbering and gas of attempts, and `processJob` itself |
| `Treasury`, `TreasuryValue`, `TreasuryContracts` | tenant share accounting, the second module on the same Safe, and the value of a position |
| `Addresses`, `TenantRegistry`, `SafeFactory` | the registry and the CREATE2 factory |
| `Watcher` | the chain indexer's cursor and rows |
| `Words`, `Wrappers` | word sizes; Option and Result |

## Environment

What the code reads from outside is a parameter of a call or of a step, and any value is allowed unless said here.

- The Morpho vault is seen through the Safe's balances before and after a call, as the contracts see it. The
  bookkeeping results hold for every vault that burns exactly the shares it is asked to redeem (EIP-4626, "Methods",
  `redeem`). The value results also need it to round in its own favour (EIP-4626, "Security Considerations");
  `TreasuryValue.StandardVaultRounds` shows that a vault quoting one share price does.
- Hashes and CREATE2 addresses (EIP-1014) are free constructors, so equal addresses come from equal parts.
- Block times do not go back, and fit 128 bits. The indexer's events are final two blocks behind the head; settlements
  may be undone by reorganizations of any depth.
- A key that expires counts as written to those who watch it, as in Redis 7, and a connection is not lost between a
  WATCH and its EXEC. Which connection a call uses is a parameter of the authorization model.
- The node returns all events of the blocks it is asked for.
- Anyone may send the Safe shares of a vault; only the two modules take them out. A lending pool takes exactly the
  amount it is supplied.
- The backend reads its clock before Redis counts a request, by any delay. An expiry is set with the increment it follows.
- Cached amounts and limits are decimal strings without leading zeros, as `BigInt.toString` writes them.
- Callers are authorized, nothing is paused and no call is reentered.

## Where the code falls short of what one might expect

Each point names the lemma with the exact condition under which the property does hold, and most also a lemma with a
concrete run or input on which it fails.

- The script and the BigInt function agree on an amount exactly when its text denotes it (`SpendScript.PathsAgree`):
  always below 2^53 (`SafeAmountsAgree`), but beyond JavaScript prints the shortest digits that read back as the number,
  which may denote another (`PathsDisagreeOnLargeNumber`).
- backend/src/server.ts:49 creates one Redis connection for all requests, and a connection has one watch: two calls in
  the fallback can both be debited the last unit (`Authorization.SharedWatchOverspends`). On any connections, debits stay
  within the budget throughout a run exactly if every EXEC that goes through has read what was left of it
  (`WithinBudgetExactly`): so it is as long as the script does all spending (`ScriptsAffordable`), or at most one call at
  a time is between WATCH and EXEC on a connection (`EpochAffordable`), and in all runs exactly if no two calls share a
  connection (`OwnConnectionsExactly`).
- A declined authorization may have been debited (`Authorization.LateDeclineKeepsDebit`): exactly if it missed the
  deadline after its debit, or a debiting command of it lost its reply (`DeclinedDebitedExactly`). The client library may
  send a script again after a lost connection; a call is debited once for each time it takes effect (`DebitsExactly`).
- The limiter is documented as a sliding window (backend/src/lib/redis.ts:9) but counts in aligned windows: a span of one
  window length respects the limit on every timely trace exactly if it starts on a window edge, and any other span admits
  twice the limit on some (`RateLimit.SpanRespectsLimitExactly`). A trace is counted right exactly if every request
  arrives before the expiry (`CountsExactly`), for which arriving within a second after its window is enough
  (`CounterOutlivesWindow`); a later one passes uncounted (`LateArrivalPasses`).
- A settlement marked `settled` can be undone, because one confirmation is taken as final
  (`SettlementProtocol.ReorgUnsettles`): what the service says is settled is so throughout a run exactly if every
  reorganization spares what the service has seen (`ClaimsOkExactly`).
- A settlement marked `failed` may have moved funds, or may yet (`SettlementProtocol.FailedMayHaveMovedFunds`): never,
  exactly if all its transactions have reverted (`SettlementFinality.FailedIsFinalExactly`).
- The deliveries of a settlement are attempts 1, 2, 3, ... exactly if a job for it came from outside once
  (`SettlementAttempts.AttemptsInOrder`); delivered again, it can be attempted more often, though boundedly
  (`DeliveriesBounded`). Its transactions are sent with non-decreasing gas exactly if they are sent in the order of their
  attempts (`GasInOrderExactly`): always if the job came once (`GasNeverFalls`), but not when an earlier attempt is
  delivered again after a later one (`GasFallsWhenRedelivered`).
- A rolling spend is the true 24-hour sum exactly when at most 200 settlements are that recent
  (`SpendSettler.RollingSpendExact`).
- The second module checks the tenants' shares when it withdraws or redeems, if it has been told of the treasury, and
  never when it supplies a token to a lending pool, which may be the vault's own share (`Treasury.UnwiredCanUncover`,
  `SupplyUncovers`). The tenants stay covered exactly if every call leaves their shares (`CallKeepsCoverExactly`,
  `CoveredThroughoutExactly`), and once wired exactly if every such supply does (`WiredRunCoveredExactly`).
- A redemption reverts exactly when basis times shares does not fit a word (`Treasury.Redemption`); single shares can
  always be redeemed, so every position can (`FullRedemption`).
- The registry's reverse lookup stays exact exactly when a Safe is registered while it maps to no tenant
  (`TenantRegistry.RegisteringKeepsExact`), and throughout a run exactly when all are (`ExactThroughoutExactly`);
  registered twice, a Safe is a user of two tenants and maps to one (`RegisteredTwice`).
- The indexer runs in every replica of the backend, two as deployed (k8s/backend-deployment.yaml:11), on one cursor that
  is read and later written without a check. Committed ranges can overlap and the cursor can go back
  (`Watcher.OverlappingPollsMoveCursorBack`): the ranges tile exactly if every commit finds the cursor where its poll
  read it (`TilesExactly`), and the cursor never goes back exactly if no commit ends before it
  (`CursorNeverFallsExactly`). No event is skipped either way (`NoGap`, `CommitsCover`).
- Without the settler's address the indexer sees no events and its cursor still moves (`Watcher.UnconfiguredSkips`): no
  event is ever skipped exactly if the address is configured, or there is nothing to index (`SkipsNothingExactly`).
- An indexer write error that is only logged can lose the row (`Watcher.SwallowedWriteLosesRow`): an event has a row
  exactly if some write of it succeeded (`RowIffWritten`).

## Model

| member | source | states |
|---|---|---|
| Decimal.CanonicalIsDecimal | backend/src/lib/redis.ts:128-168 | a decimal string without leading zeros is the decimal form of the number it denotes; with DecimalDenotes, the two directions are inverse |
| Decimal.DecimalDenotes | backend/src/lib/redis.ts:97-99 | the decimal form of a number has no leading zeros and denotes the number |
| Decimal.StrGteDecides | backend/src/lib/redis.ts:128-132 | comparing lengths first and bytes second decides >= on the numbers |
| Decimal.StrAdd | backend/src/lib/redis.ts:134-149 | the carry loop returns a string that denotes the sum, for all digit strings, and the decimal form of the sum when neither operand has leading zeros |
| Decimal.StrSub | backend/src/lib/redis.ts:151-168 | the borrow loop returns the decimal form of the difference, or of its complement to the next power of ten when the first number is the smaller |
| Decimal.SubtractExact | backend/src/lib/redis.ts:151-168 | the loop ends without a borrow, and the result is the difference, exactly when the first number is at least the second |
| SpendScript.AuthStore.LuaSpend | backend/src/lib/redis.ts:115-206 | on success the stored entry has exactly the amount moved from the balance to both spent counters and its limits kept; on any other reply, and under any other key, nothing changes; the reply is that of the numeric charge |
| SpendScript.AuthStore.BigIntSpend | backend/src/lib/redis.ts:55-111 | the WATCH/MULTI/EXEC function, uncontended, does just the same |
| SpendScript.ChargeErrors | backend/src/lib/redis.ts:176-195 | a charge passes exactly if the balance and both limits, where not 0, allow it; which check each error names |
| SpendScript.SpendsCompose | backend/src/lib/redis.ts:170-205 | two spends in a row on a store, by either path, both pass if and only if one spend of their sum would, and move just that |
| SpendScript.LuaChecks | backend/src/lib/redis.ts:176-195 | the three string checks refuse with the same error as the numeric charge, in the same order |
| SpendScript.LuaUpdate | backend/src/lib/redis.ts:198-200 | the string updates yield the decimal form of the debited budget |
| SpendScript.BigIntChecks | backend/src/lib/redis.ts:80-95 | the BigInt checks refuse as the numeric charge does |
| SpendScript.PathsAgree | backend/src/lib/redis.ts:214-220 | both paths reply alike on every store if and only if the amount's text denotes the amount |
| SpendScript.SafeAmountsAgree | backend/src/lib/redis.ts:212-219 | an amount below 2^53 is charged alike by both paths on every store, because its printed digits read back as it |
| SpendScript.PathsDisagreeOnLargeNumber | backend/src/lib/redis.ts:77-77 | a number below 10^21 whose printed digits read back as it but denote another amount is charged differently by the two paths |
| JsNumbers.SafeIntegersReadExactly | backend/src/lib/redis.ts:218-218 | digits that read as a double below 2^53 denote exactly that double |
| SpendScript.ChargesCompose | backend/src/lib/redis.ts:176-200 | two charges in a row pass exactly when their sum would, and leave the same budget |
| Authorization.WatchesKept | backend/src/lib/redis.ts:64-107 | on any connections, a step that ends no watch but its own keeps this: a watch that still stands means the call has read the current entry |
| Authorization.DebitsExactly | backend/src/services/authorization-engine.ts:407-449 | in every run a call was debited as often as a script or EXEC for it took effect: once per repeated script, and once more if it got past its debit or slipped |
| Authorization.DebitedAtMostOnce | backend/src/services/authorization-engine.ts:169-189 | in every interleaving in which no script is sent twice a call is debited at most once, exactly once with its own amount if approved, and not at all before its update |
| Authorization.DeclinedDebitedExactly | backend/src/services/authorization-engine.ts:166-214 | in every run a declined call was debited if and only if it missed the deadline after its debit, a debiting command of it lost its reply, or its script was repeated after taking effect |
| Authorization.ReportsItsBalance | backend/src/services/authorization-engine.ts:169-189 | in every run an approved call reports the balance the entry had right after the call's debit |
| Authorization.PassedACheck | backend/src/services/authorization-engine.ts:116-152 | in every run a call gets past its checks only on an entry that affords its amount |
| Authorization.SpendDecides | backend/src/services/authorization-engine.ts:412-426 | the script debits a call if it can pay, declines it if not, and sends it to the fallback exactly if there is no entry |
| Authorization.FailedTryRepeats | backend/src/services/authorization-engine.ts:428-449 | a try of the fallback that finds no entry or whose EXEC is refused is repeated, the third declines |
| Authorization.AtMostThreeTries | backend/src/services/authorization-engine.ts:428-449 | in every run a call tries the fallback at most three times |
| Authorization.WatchLifetime | backend/src/lib/redis.ts:64-107 | a connection watches from a WATCH on, and no longer after an EXEC or UNWATCH of any call on it |
| Authorization.StepInOrderExactly | backend/src/lib/redis.ts:64-107 | on any connections, a step other than an overwrite leaves the entry at the budget less all debits, and these affordable, if and only if an EXEC that goes through has read what was left |
| Authorization.WithinBudgetExactly | backend/src/services/authorization-engine.ts:116-180 | on any connections and from any reachable entry, between two overwrites all debits together fit the balance and every non-zero limit that held at the start, throughout the run, if and only if every EXEC that goes through has read what was left, however stale the checks and however often a script is sent |
| Authorization.EpochAffordable | backend/src/services/authorization-engine.ts:116-180 | so they do where at most one call at a time is between WATCH and EXEC on a connection |
| Authorization.ScriptsAffordable | backend/src/lib/redis.ts:170-205 | and so they do on any connections as long as the script does all spending |
| Authorization.OwnConnectionsExactly | backend/src/lib/redis.ts:64-107 | that holds in all runs if and only if no two calls share a connection |
| Authorization.SharedWatchOverspends | backend/src/server.ts:48-50 | for any two calls on one connection, a run in which both are debited the last unit |
| Authorization.ApprovalsFit | backend/src/services/authorization-engine.ts:116-189 | on any connections, where every EXEC that goes through has read what was left, any calls approved between two overwrites together fit the starting balance and its non-zero limits |
| Authorization.LateDeclineKeepsDebit | backend/src/services/authorization-engine.ts:170-180 | a call that misses the deadline after its update is declined and stays debited |
| Authorization.AuthorizationEngine.AtomicSpendUpdate | backend/src/services/authorization-engine.ts:407-449 | the script with its fallback loop, undisturbed, applies one charge and returns the new entry or nothing |
| RateLimit.RateLimiter.CheckRateLimit | backend/src/lib/redis.ts:256-275 | where requests are in time, one is allowed exactly if fewer than `limit` requests of the tenant came before it in its window; the rest of the limit is what remains |
| RateLimit.CountsExactly | backend/src/lib/redis.ts:262-269 | every request gets its number in its window if and only if every one arrives before the expiry the first of its window has set |
| RateLimit.CounterOutlivesWindow | backend/src/lib/redis.ts:266-269 | for that it is enough that each arrives within a second after its window has ended, which is what the extra second of the expiry is for |
| RateLimit.LateArrivalPasses | backend/src/lib/redis.ts:266-269 | two requests of one window, the second delayed by a window length and a second, both pass a limit of 1 |
| RateLimit.AllowedPerWindow | backend/src/lib/redis.ts:262-274 | of requests in time exactly the first `limit` of a tenant are allowed per aligned window |
| RateLimit.RateBound | backend/src/lib/redis.ts:256-275 | of requests in time at most twice the limit is allowed in any span of one window length |
| RateLimit.SpanRespectsLimitExactly | backend/src/lib/redis.ts:262-274 | for a positive limit a span of one window length admits at most the limit on every timely trace if and only if it starts on a window edge; any other admits twice the limit on some timely trace |
| RateLimit.EdgesAreMultiples | backend/src/lib/redis.ts:262-263 | starting on an edge is being a multiple of the window length |
| SpendSettler.SpendSettlerModule.Settle | contracts/src/SpendSettler.sol:126-157 | settles exactly if the amount is positive, allowed, word-sized and has arrived, the token is new and the total fits; then the history has just this settlement more, with buffer, head, count, nonce, total and token set in agreement; otherwise it names the first failing check and changes nothing |
| SpendSettler.SettlesExactly | contracts/src/SpendSettler.sol:126-149 | that condition, and the history after a call |
| SpendSettler.SettleErrors | contracts/src/SpendSettler.sol:126-149 | which error a call gives that does not settle |
| SpendSettler.SettledIsReceived | contracts/src/SpendSettler.sol:140-152 | in every run the issuer has received at least what is settled |
| SpendSettler.CountsForADay | contracts/src/SpendSettler.sol:222-237 | a settlement counts for the 86,400 seconds after its time; with WindowSplits this fixes the window sum |
| SpendSettler.SpendSettlerModule.RecordSpend | contracts/src/SpendSettler.sol:240-253 | writing at the head and advancing it keeps the buffer that of the history |
| SpendSettler.SpendSettlerModule.GetRollingSpend | contracts/src/SpendSettler.sol:222-237 | the backward scan with early exit returns the sum of the buffered settlements that are not older than 24 hours |
| SpendSettler.BufferHoldsRecent | contracts/src/SpendSettler.sol:240-253 | the buffer holds the last 200 settlements, each at its index modulo 200 |
| SpendSettler.SettleKeepsHistory | contracts/src/SpendSettler.sol:126-157 | every call keeps tokens new, amounts positive and word-sized, times in order and the total in range |
| SpendSettler.RollingSpendExact | contracts/src/SpendSettler.sol:222-253 | the rolling spend never exceeds the 24-hour sum over all history and equals it if and only if at most 200 settlements are in the window |
| SpendSettler.RollingSpendBounded | contracts/src/SpendSettler.sol:222-237 | the rolling spend is at most the total settled, and the sum of 200 amounts is far from overflowing |
| SpendSettler.NonceCountsTokens | contracts/src/SpendSettler.sol:129-154 | settled tokens are as many as settlements, and as the nonce says until all 2^256 tokens are used |
| SpendSettler.EveryRunAccounts | contracts/src/SpendSettler.sol:126-157 | the same for every run of calls with block times in order |
| SettlementProtocol.InvKept | backend/src/services/settlement-service.ts:136-222 | every step, failures, redelivery and reorganizations included, keeps jobs, transactions and chain in agreement |
| SettlementProtocol.StatusKept | backend/src/services/settlement-service.ts:292-329 | a step changes the status of a token only by marking a delivery for it settled, or failed after its last attempt |
| SettlementProtocol.StatusIsLastWritten | backend/src/services/settlement-service.ts:292-329 | in every run a token's status is the last one written for it |
| SettlementProtocol.MineDecides | contracts/src/SpendSettler.sol:126-157 | a mined transaction succeeds exactly if it has gas and the contract accepts it, and is reverted otherwise |
| SettlementProtocol.Safety | backend/src/services/settlement-service.ts:136-222 | in every run, reorganizations included, a token moves funds at most once and only for an amount of a job the queue accepted; unless one has undone a settlement the service had seen, a status `settled` is only given to tokens that did |
| SettlementProtocol.ClaimsOkExactly | backend/src/services/settlement-service.ts:172-189 | tokens the service has seen settled or marked so are settled throughout a run if and only if every reorganization spares them |
| SettlementProtocol.ReorgUnsettles | backend/src/services/settlement-service.ts:172-180 | a run that ends with status `settled` and no settlement |
| SettlementFinality.SettledIffSucceeded | contracts/src/SpendSettler.sol:126-157 | in every run a token is settled on the chain if and only if a transaction of the service for it succeeded |
| SettlementFinality.FundsMayMoveExactly | backend/src/services/settlement-service.ts:172-212 | for a token nobody works on or brings back, and short of a reorganization, funds have moved or can still move if and only if a transaction succeeded or is pending with an amount the contract accepts |
| SettlementFinality.FailedIsFinalExactly | backend/src/services/settlement-service.ts:207-220 | a `failed` status is final, funds never moved nor moving later, if and only if all transactions of the token reverted |
| SettlementProtocol.FailedMayHaveMovedFunds | backend/src/services/settlement-service.ts:172-212 | a run that ends with status `failed` and the funds moved |
| SettlementLiveness.TrackedKept | backend/src/services/settlement-service.ts:193-220 | every fair step leaves each ended delivery with a status for its token or a live later attempt, even when the queue ignores an id it knows |
| SettlementLiveness.WorkLowers | backend/src/services/settlement-service.ts:199-220 | every effective step of the service lowers the remaining work, retries included |
| SettlementLiveness.NeverStuck | backend/src/services/settlement-service.ts:136-222 | a live delivery always has an effective step |
| SettlementLiveness.EveryJobEnds | backend/src/services/settlement-service.ts:136-222 | when writes succeed and workers live, the service makes boundedly many moves, has one as long as an enqueued token is unmarked, and then every enqueued token is marked |
| SettlementAttempts.AttemptsInOrder | backend/src/services/settlement-service.ts:101-111 | in every run, whatever ids the queue forgets, deliveries for a token are attempts 1, 2, 3, ... one after the other if and only if a job for it came from outside at most once; then there are at most max(1, maxRetries) |
| SettlementAttempts.DeliveriesBounded | backend/src/services/settlement-service.ts:199-220 | in every run a token is delivered at most max(1, maxRetries) times for each accepted or repeated job |
| SettlementAttempts.GasInOrderExactly | backend/src/services/settlement-service.ts:266-270 | in every run with one estimate for a token, of which a bump is at least a unit, its transactions are sent with non-decreasing gas if and only if they are sent in the order of their attempts |
| SettlementAttempts.GasByAttempt | backend/src/services/settlement-service.ts:168-170 | in every run with one estimate for a token, each of its transactions has the gas of the attempt it was sent in |
| SettlementAttempts.GasNeverFalls | backend/src/services/settlement-service.ts:266-270 | so the gas never falls in a run in which a job for the token came from outside at most once |
| SettlementAttempts.GasFallsWhenRedelivered | backend/src/services/settlement-service.ts:266-270 | a run in which the first attempt, delivered again after the second, gets less gas for the same estimate |
| SettlementService.SettlementService.ProcessJob | backend/src/services/settlement-service.ts:136-222 | one delivery is a run of protocol steps, sends at most one transaction for the job's own token, amount and bumped gas, ends settled, retried or failed exactly as the environment decides, and touches no other delivery and no other token's status |
| SettlementService.SettlementService.Attempt | backend/src/services/settlement-service.ts:143-192 | the try block succeeds exactly when the token was seen settled or its transaction was sent, mined without revert and its receipt received |
| Treasury.ReleaseSucceeds | contracts/src/TreasuryVault.sol:222-231 | no subtraction of the accounting underflows: a release reverts only on an empty position or where basis times shares exceeds a word |
| Treasury.ReleaseKeepsLedger | contracts/src/TreasuryVault.sol:222-231 | releasing shares keeps both totals equal to the sums over tenants and leaves no basis without shares |
| Treasury.CreditSucceeds | contracts/src/TreasuryVault.sol:164-171 | a deposit is recorded exactly if neither total leaves its word |
| Treasury.CreditKeepsLedger | contracts/src/TreasuryVault.sol:164-171 | crediting a deposit keeps both totals equal to the sums too |
| Treasury.CallKeepsCoverExactly | contracts/src/DeFiInteractor.sol:135-240 | wired or not, a call keeps coverage if and only if what it takes of the treasury's vault shares plus the tenants' shares is within what the Safe holds |
| Treasury.CoveredThroughoutExactly | contracts/src/DeFiInteractor.sol:350-352 | wired or not, coverage holds throughout a run if and only if every call of it does so |
| Treasury.WiredRunCoveredExactly | contracts/src/DeFiInteractor.sol:90-270 | once wired, every run of both modules, migrations and allowlist changes included, is accounted, and covered throughout if and only if every supply to a lending pool leaves the tenants' shares |
| Treasury.EveryRunCovered | contracts/src/DeFiInteractor.sol:90-206 | so every wired run of deposits, withdrawals, redemptions and migrations is covered |
| Treasury.SupplyUncovers | contracts/src/DeFiInteractor.sol:214-240 | wired or not, a supply of the treasury's vault shares to an allowlisted pool takes shares that belong to tenants |
| Treasury.FromDeployment | contracts/src/DeFiInteractor.sol:304-312 | all of that from deployment on |
| Treasury.UnwiredCanUncover | contracts/src/DeFiInteractor.sol:307-312 | without the wiring one redemption breaks coverage |
| Treasury.Redemption | contracts/src/TreasuryVault.sol:242-280 | in a covered book a redemption of shares the tenant has goes through if and only if basis times shares fits a word |
| Treasury.FullRedemption | contracts/src/TreasuryVault.sol:242-280 | a whole position can always be redeemed, share by share if need be, and no other changes |
| Treasury.WindDown | contracts/src/TreasuryVault.sol:341-348 | redeeming every position of any covered book, in any order, brings both totals to 0 and lets the vault be replaced |
| TreasuryValue.PiecesBound | contracts/src/TreasuryVault.sol:222-227 | after n partial redemptions from (d, s) to (d', s'): d * s' <= d' * s < d * s' + n * s |
| TreasuryValue.SplittingCostsLittle | contracts/src/TreasuryVault.sol:268-273 | n pieces leave at least the basis of one redemption and at most n - 1 units more |
| TreasuryValue.YieldExactly | contracts/src/TreasuryVault.sol:287-298 | the yield is the value of the shares above their cost, rounded down to a unit, and 0 exactly if that is less than a unit |
| TreasuryValue.WorthExactly | contracts/src/interfaces/IMorphoVault.sol:9-51 | a value is the exact one rounded down |
| TreasuryValue.RoundsByLessThanAShare | contracts/src/interfaces/IMorphoVault.sol:9-51 | the standard vault rounds minted shares down and burned shares up, each by less than a share |
| TreasuryValue.StandardVaultRounds | contracts/src/interfaces/IMorphoVault.sol:9-51 | a vault that rounds as EIP-4626 asks meets the rounding assumption |
| TreasuryValue.StandardWithdrawalKeepsCover | contracts/src/DeFiInteractor.sol:135-168 | against such a vault a withdrawal of the second module keeps coverage if and only if the shares its amount costs, rounded up, can be spared |
| TreasuryValue.ReleaseKeepsAccount | contracts/src/TreasuryVault.sol:268-273 | a release paid at the share price keeps shares times price within the basis, and pays no more than the basis falls |
| TreasuryValue.NoGainWithoutPriceRise | contracts/src/TreasuryVault.sol:120-298 | in every run at a share price that never rises, what a tenant received plus the value of its shares never exceeds what it deposited, and its yield is 0 |
| TreasuryValue.PaymentsFollowCalls | contracts/src/TreasuryVault.sol:120-280 | what counts there as paid in and out is what the tenant's successful calls move, and nothing else |
| TreasuryContracts.DepositMeans | contracts/src/TreasuryVault.sol:120-174 | a deposit goes through exactly if something, and at least the minimum, is minted and no total overflows; then totals, position and the Safe's shares grow together, nothing else changes, and the accounts stay in order and covered |
| TreasuryContracts.WithdrawalMeans | contracts/src/TreasuryVault.sol:181-234 | a withdrawal goes through exactly if estimate and burned shares are the tenant's, within the limit, and the product fits a word; totals, position and the Safe's shares fall together, and the basis left is the exact share rounded up by less than a unit |
| TreasuryContracts.RedemptionMeans | contracts/src/TreasuryVault.sol:242-280 | the same for exactly the given shares and a minimum of USDC |
| TreasuryContracts.MigrationMeans | contracts/src/TreasuryVault.sol:341-348 | the vault can be replaced exactly when every single tenant has no shares |
| TreasuryContracts.DepositErrors | contracts/src/TreasuryVault.sol:120-174 | which error a deposit gives that does not go through |
| TreasuryContracts.WithdrawalErrors | contracts/src/TreasuryVault.sol:181-234 | the same for withdrawals |
| TreasuryContracts.RedemptionErrors | contracts/src/TreasuryVault.sol:242-280 | the same for redemptions |
| TreasuryContracts.MigrationErrors | contracts/src/TreasuryVault.sol:341-348 | the same for replacing the vault |
| TreasuryContracts.MorphoErrors | contracts/src/DeFiInteractor.sol:90-206 | the same for the second module's vault calls |
| TreasuryContracts.AaveErrors | contracts/src/DeFiInteractor.sol:214-277 | the same for its pool calls |
| TreasuryContracts.TreasuryVault.DepositForTenant | contracts/src/TreasuryVault.sol:120-174 | the method keeps the accounts in order and the tenants covered, succeeds under exactly that condition with exactly that effect, and otherwise changes nothing; it is a step of the run model |
| TreasuryContracts.TreasuryVault.WithdrawForTenant | contracts/src/TreasuryVault.sol:181-234 | the same for withdrawals: the value returned is what the position lost |
| TreasuryContracts.TreasuryVault.RedeemForTenant | contracts/src/TreasuryVault.sol:242-280 | the same for redemptions: the value returned is the USDC that came in |
| TreasuryContracts.TreasuryVault.SetMorphoVault | contracts/src/TreasuryVault.sol:341-348 | replaces the vault exactly when no tenant holds shares, so that coverage is never lost by it |
| TreasuryContracts.DeFiInteractor.CheckTenantShareSafety | contracts/src/DeFiInteractor.sol:350-358 | in an orderly state it passes exactly if the tenants stay covered in the treasury's vault, or the treasury is not known |
| TreasuryContracts.DeFiInteractor.DepositToMorpho | contracts/src/DeFiInteractor.sol:90-128 | keeps the accounts and coverage of both modules, adds exactly what was minted to one balance of the Safe, and otherwise changes nothing |
| TreasuryContracts.DeFiInteractor.WithdrawFromMorpho | contracts/src/DeFiInteractor.sol:135-168 | takes exactly what was burned from one balance; a covered treasury stays covered if known, and otherwise if and only if the burned and the tenants' shares are within the old balance |
| TreasuryContracts.DeFiInteractor.RedeemFromMorpho | contracts/src/DeFiInteractor.sol:175-206 | the same for exactly the given shares |
| TreasuryContracts.DeFiInteractor.SupplyToAave | contracts/src/DeFiInteractor.sol:214-240 | takes exactly the amount from one balance, and keeps the tenants covered if and only if it leaves their shares, whether the treasury is known or not |
| TreasuryContracts.DeFiInteractor.WithdrawFromAave | contracts/src/DeFiInteractor.sol:248-277 | keeps the accounts and coverage of both modules, adds exactly what was measured to one balance, and otherwise changes nothing |
| TreasuryContracts.DeFiInteractor.SetTreasuryVault | contracts/src/DeFiInteractor.sol:307-312 | wires the treasury once, and the pair is in order from then on if and only if the tenants are covered at that moment |
| TenantRegistry.ArrayFacts | contracts/src/TenantRegistry.sol:15-28 | an array whose elements know their slots has no duplicates, holds exactly the members, and is as long as the count |
| TenantRegistry.LeaveKeepsTenant | contracts/src/TenantRegistry.sol:118-138 | swap-and-pop keeps every stored index pointing at its member |
| TenantRegistry.RemovalTakesOne | contracts/src/TenantRegistry.sol:118-138 | removal takes exactly the one user out of the array |
| TenantRegistry.EveryRunConsistent | contracts/src/TenantRegistry.sol:71-138 | in every run arrays, membership, indices, counts and the reverse lookup agree, and exactly the members can be removed |
| TenantRegistry.RegisteringKeepsExact | contracts/src/TenantRegistry.sol:100-113 | a registration keeps the reverse lookup exact if and only if the Safe mapped to no tenant |
| TenantRegistry.RemovingKeepsExact | contracts/src/TenantRegistry.sol:118-138 | a removal keeps it exact |
| TenantRegistry.ExactThroughoutExactly | contracts/src/TenantRegistry.sol:71-138 | it is exact throughout a run if and only if every user the run registers mapped to no tenant |
| TenantRegistry.RegisteredTwice | contracts/src/TenantRegistry.sol:100-113 | a Safe registered under a second tenant is a user of both and maps to the second |
| TenantRegistry.PagesTile | contracts/src/TenantRegistry.sol:153-173 | pages of any size at offsets 0, L, 2L, ... put together are the array: each user once, in order |
| TenantRegistry.TenantRegistryContract.GetUsersForTenant | contracts/src/TenantRegistry.sol:153-173 | the copying loop returns the page and the total |
| TenantRegistry.TenantRegistrationMeans | contracts/src/TenantRegistry.sol:71-79 | a tenant registers exactly once, with the given Safe, and starts active and without users; nothing else changes |
| TenantRegistry.ActivationMeans | contracts/src/TenantRegistry.sol:83-95 | only a registered tenant is switched, and nothing but the switch changes |
| TenantRegistry.RegistryErrors | contracts/src/TenantRegistry.sol:71-138 | which error a call gives that does not go through |
| TenantRegistry.UserRegistrationMeans | contracts/src/TenantRegistry.sol:100-113 | a Safe joins the end of an active tenant's array exactly if it is not in it, and then maps to the tenant; no other tenant or lookup changes |
| TenantRegistry.RemovalMeans | contracts/src/TenantRegistry.sol:118-138 | a Safe can be removed exactly if it is in the array; then the array has the other users and the Safe maps to no tenant; nothing else changes |
| TenantRegistry.TenantRegistryContract.RegisterTenantCall | contracts/src/TenantRegistry.sol:71-79 | the method does just that and keeps arrays, indices, counts and lookups in agreement, or reverts |
| TenantRegistry.TenantRegistryContract.RegisterUserCall | contracts/src/TenantRegistry.sol:100-113 | the same for registering a user |
| TenantRegistry.TenantRegistryContract.RemoveUserCall | contracts/src/TenantRegistry.sol:118-138 | the same for swap-and-pop removal, which never indexes out of range |
| SafeFactory.DeploymentsPredictable | contracts/src/SafeFactory.sol:193-305 | deployed Safes are distinct within and across tenants, a tenant's nonce is its number of Safes, and its n-th Safe is at the address predicted for (tenant, signer, n) |
| SafeFactory.ReverseLookupExact | contracts/src/SafeFactory.sol:299-300 | when only this factory registers users, a Safe is a user of a tenant if and only if it maps to it |
| SafeFactory.NeverCollides | contracts/src/SafeFactory.sol:232-234 | until a nonce wraps no deployment meets an address that has code, for the Safe and for its modules |
| SafeFactory.NextKeepsInv | contracts/src/SafeFactory.sol:219-305 | every deployment, configuration change, registry change and foreign deployment keeps all of that |
| SafeFactory.DeploySucceeds | contracts/src/SafeFactory.sol:219-305 | until a nonce wraps a deployment succeeds exactly if arguments, settings, setup and the tenant's registration allow it: no address is taken and no Safe already registered |
| SafeFactory.DeploymentMeans | contracts/src/SafeFactory.sol:219-305 | a deployment adds one Safe at the predicted, so far empty address to the tenant's list, registers it, changes no other list and keeps the invariant |
| SafeFactory.DeployedCode | contracts/src/SafeFactory.sol:219-345 | a deployment puts code exactly at the Safe's address and, for custody model A, at those of its settler, roles and delay modules |
| SafeFactory.PredictionsDiffer | contracts/src/SafeFactory.sol:193-207 | predictions are equal exactly for the same tenant, signer and nonce, and are CREATE2 addresses of the Safe's clone |
| SafeFactory.DeployErrors | contracts/src/SafeFactory.sol:219-305 | which error a deployment gives that does not go through |
| SafeFactory.SafeFactoryContract.DeploySafeCall | contracts/src/SafeFactory.sol:219-305 | the method does just that and returns the predicted address, or reverts and changes nothing |
| Watcher.NoGap | backend/src/services/watcher.ts:114-206 | with any failures and any number of pollers, of the events the node returns one has its own row exactly if a write of it succeeded, every one from the start block to the cursor without a row is among the writes whose error was only logged, and every row is an event that was fetched |
| Watcher.SkipsNothingExactly | backend/src/services/watcher.ts:271-274 | no event of the chain is ever skipped if and only if the settler's address is configured, or there is nothing to index |
| Watcher.RowIffWritten | backend/src/services/watcher.ts:315-337 | in every run an event of the chain has a row if and only if some write of it succeeded |
| Watcher.TilesExactly | backend/src/services/watcher.ts:183-206 | with any pollers, committed ranges are consecutive, disjoint and tile the blocks from the start to the cursor if and only if every commit finds the cursor where its poll read it |
| Watcher.CursorNeverFallsExactly | backend/src/services/watcher.ts:197-206 | with any pollers, the cursor never goes back if and only if no commit ends before it |
| Watcher.CommitsCover | backend/src/services/watcher.ts:114-155 | with any pollers, in whatever order they commit, every block from the start to the cursor is committed at least once |
| Watcher.OnePollerTiles | backend/src/services/watcher.ts:183-206 | with one poller at a time every commit does, so the ranges tile and the cursor never goes back |
| Watcher.TiledOnce | backend/src/services/watcher.ts:126-155 | where ranges tile, each block up to the cursor is committed exactly once and no other is |
| Watcher.CommitsBehindHead | backend/src/services/watcher.ts:118-119 | every committed range ends two blocks behind a polled head |
| Watcher.SwallowedWriteLosesRow | backend/src/services/watcher.ts:331-336 | a run in which a logged write error leaves the cursor past an event without a row |
| Watcher.OverlappingPollsMoveCursorBack | backend/src/services/watcher.ts:77-112 | a run in which two pollers move the cursor back |
| Watcher.WrittenMeans | backend/src/services/watcher.ts:315-337 | writing a range keeps every row there was, and adds for each other token the first event that could be written |
| Watcher.WatcherService.PersistAll | backend/src/services/watcher.ts:144-147 | the loop does just that, and goes on after an error |
| Watcher.WatcherService.Poll | backend/src/services/watcher.ts:114-179 | a poll is a run of the steps; its rows, cursor, failure count and next delay are exactly those of its outcome |
| Watcher.PollFailsExactly | backend/src/services/watcher.ts:117-179 | a poll fails, and counts for the circuit breaker, exactly if head, cursor, logs or the commit do not answer, and commits exactly if there is a range and all of them do |
| Watcher.LogsJoin | backend/src/services/watcher.ts:276-300 | the events fetched for a range are those of its blocks in order, each once |

## Left out

- HTTP routes, middleware, the SDK, webhooks, KYC, card issuing, deployment scripts and database plumbing: input and output.
- The internals of Safe, ERC-20, Morpho and Aave; what supplying a token other than a vault share does.
- `claimRewards`, which runs calldata the model cannot see.
- `snapshotYield`, operator and address setters, pausing, and the views that return one field.
- `yield-manager.ts`: one line of arithmetic.
- The cache overwrites of the indexer and of `refreshCache`: any overwrite is a step, and spend results are stated between two of them.
- The engine's steps 1 to 3 and 7 (card, KYC, merchant category): a call may be declined at any point before its debit.
- The loss of a Redis connection between a WATCH and its EXEC, after which nothing is watched.
- `lastUpdated`, time-to-live values of the cache, and amounts that are not non-negative integers.
- Deposit rows of the indexer, which a replay creates again.
- `_buildModuleSetupData`: it only lays out the arguments of the new Safe's setup call.
- What a reorganization deeper than two blocks does to the indexer.
- Authorization.AuthorizationEngine.AtomicSpendUpdate: stated for a store nothing else writes meanwhile; the loop under contention is the state machine of the same module.
- SpendScript.AuthStore.BigIntSpend: stated without contention; its WATCH, GET and EXEC under contention are steps of the authorization state machine.
- SettlementAttempts.GasInOrderExactly: stated where a bump is at least one unit of gas; below that the gas of two attempts can be equal.
- SettlementFinality.FundsMayMoveExactly: stated for the time without a reorganization, because one can bring a reverted transaction back.
- Treasury.EveryRunCovered: stated for runs without supplies to a lending pool, because such a supply is not checked and can take tenants' shares; WiredRunCoveredExactly covers the runs with them.
