# Solana token monitor, modelled in Dafny

`token-monitor.js` defines `SolanaTokenMonitor`. It subscribes to the log notices of the
SPL token program. For each notice it fetches the transaction and works out the token
transfers in it by comparing the pre- and post-token balances. It then hands each transfer
record to a handler. This project models three pieces of it:

- **The balance-diff engine** (`parseTokenTransfers`; `balance_diff.dfy`,
  `balance_diff_props.dfy`).
  - The pre- and post-balance lists are joined on the key `${accountIndex}-${mint}`, in a
    JavaScript `Map` that remembers insertion order.
  - Each changed entry becomes a record with the amount `post − pre`, where an absent side
    counts as 0n. The direction is `receive` exactly when that amount is positive.
  - The JavaScript `||` fall-throughs are kept as written: for the mint, the account index
    and the decimals.
  - `ParseTokenTransfers` builds the map and pushes the records in loops, just as the source
    does. The functions `Merge`, `Emit` and `TokenTransfers` specify it.
  - The lemmas state the result without mentioning the map:
    - each key gets the last snapshot from each list;
    - the keys keep first-occurrence order;
    - one record is made per changed key whose mint passes the filter;
    - the parse fails exactly when some account cannot be looked up.
- **The subscription supervisor** (`monitorTokenTransfers` and `stop`; `monitor.dfy`,
  `monitor_props.dfy`).
  - Class `TokenMonitor` holds the `isMonitoring` flag. It also records every subscribe
    attempt and backoff sleep the loop makes.
  - Subscribe outcomes are inputs, one per loop iteration. So is whether `stop()` is called
    while that iteration waits.
  - The function `Retry` specifies the loop. The lemmas derive from it:
    - the retry schedule (delay `retryDelay × k` after the k-th consecutive failure);
    - the counter resetting on success;
    - the ceiling;
    - the effect of `stop()`.
- **The notice dispatch** (`processLogs`). The `getTransaction` outcome and whether each
  handler call throws are inputs. The calls made are recorded in order.

Behaviour of the source worth noting, which the model keeps:

- **A changed (non-zero) pre-only balance at account index 0 makes the whole parse fail**,
  unless the mint filter skips it first. A zero pre-only balance there is skipped as
  unchanged (line 113) before its account is looked up.
  `pre?.accountIndex || post?.accountIndex` turns 0 into `undefined`. Indexing
  `staticAccountKeys` with `undefined` gives `undefined`, and `.toBase58()` then throws.
  The catch in `processLogs` swallows the error, so the transaction delivers nothing.
  `PreOnlyBalanceAtIndexZeroFails` states this.
- **A handler that throws ends delivery for the rest of that transaction.** The `for` loop
  and the `catch` enclose the whole delivery, so the remaining transfers are not delivered.
- **`stop()` only clears the flag.** It does not remove subscriptions already made, and it
  does not cut a sleep short.
- **Exhausting the retries leaves `isMonitoring` true.**
- **A successful subscribe leads straight to the next subscribe call.** Once the awaited
  `onLogs` call resolves, the counter is reset to 0 and, with the flag still set, the loop
  calls `onLogs` again (lines 22-35).

## Model

| member | source | states |
|---|---|---|
| BalanceDiff.ParseTokenTransfers | token-monitor.js:76-132 | the transfer list the method returns is exactly the one `TokenTransfers` defines: `Ok([])` when meta or either balance list is missing, otherwise the emitted records or the lookup error |
| BalanceDiff.SeedBalanceMap | token-monitor.js:86-91 | the pre-balance pass builds, in place, the map in which every pre-balance's key holds `{pre: balance, post: null}`; a later balance with the same key overwrites the entry but keeps the key's position |
| BalanceDiff.OverlayBalanceMap | token-monitor.js:93-100 | the post-balance pass sets `post` on an existing key or adds `{pre: null, post}` at the end, matching `OverlayPosts` |
| BalanceDiff.EmitTransfers | token-monitor.js:102-131 | the iteration over the map, in key order, skips filtered and unchanged entries, pushes one record per other entry and stops at the first failing account lookup, matching `Emit` |
| BalanceDiff.EmitErrorPersists | token-monitor.js:115-120 | once the record pass fails on a key, the whole parse fails with that error (the throw leaves the loop) |
| BalanceDiffProperties.MergeEntries | token-monitor.js:86-100 | the merged map holds exactly the keys seen in either list; under each key are the last pre-snapshot and the last post-snapshot for it, absent when there is none |
| BalanceDiffProperties.MergeOrder | token-monitor.js:86-102 | the map's keys list every key of the pre list followed by the post list exactly once, in first-occurrence order, which is the order `for … of` visits them |
| BalanceDiffProperties.SelectedKeys | token-monitor.js:102-113 | a key yields a record if and only if it was seen in either list, its difference post − pre (an absent side counting as 0) is non-zero, and its resolved mint passes the filter; the selected keys keep first-occurrence order |
| BalanceDiffProperties.TransferOfKey | token-monitor.js:113-127 | for a changed key, the record is built if and only if its account resolves (not a pre-only key at the falsy index 0, and inside `staticAccountKeys`); the record carries the key's difference, direction, account, mint, decimals, signature, slot and block time |
| BalanceDiffProperties.EmitSelected | token-monitor.js:102-129 | the record pass over any list of keys succeeds if and only if every selected key's account resolves; on success it holds one matching record per selected key, in order |
| BalanceDiffProperties.TransfersAreBalanceDiffs | token-monitor.js:76-132 | the transfer list fails exactly when some selected key's account does not resolve; otherwise it has one record per selected key, in order, with amount post − pre ≠ 0, `receive` if and only if positive, the key's own account, the mint taken from the pre side and, when that is empty, from the post side (so the key's mint whenever it is non-empty), and the transaction's first signature, slot and block time; with a target mint every record carries it |
| BalanceDiffProperties.MissingMetaYieldsNothing | token-monitor.js:79-81 | missing meta, or a missing pre- or post-balance list, yields `Ok([])` |
| BalanceDiffProperties.AbsentMintYieldsNothing | token-monitor.js:103-107 | filtering on a non-empty mint that no balance carries yields `Ok([])` |
| BalanceDiffProperties.SingleKeyTransfers | token-monitor.js:102-129 | for any target mint, a transaction whose map holds one changed key yields nothing when the key's resolved mint does not pass the filter, and otherwise exactly that key's record or its lookup error |
| BalanceDiffProperties.BalanceChangeIsOneTransfer | token-monitor.js:103-127 | in any transaction whose pre and post lists each hold one balance of the same mint, account index i and decimals, going from `before` to `after` ≠ `before`, and any target mint: a target the mint does not pass gives `Ok([])`; otherwise the result is a single record of `after − before` with that mint and decimals, `receive` if it grew and `send` if it shrank, for the account at index i (index 0 included), carrying the transaction's first signature, slot and block time; an index outside `staticAccountKeys` makes the parse fail with that index instead |
| BalanceDiffProperties.PreOnlyBalanceIsSend | token-monitor.js:103-127 | in any transaction whose only balance is a positive one present before and not after, at account index i > 0, and any target mint: a target the resolved mint (none for the empty string) does not pass gives `Ok([])`; otherwise the result is a single `send` record of minus that amount for the account at index i, with the mint, or no mint when it is the falsy empty string; an index outside `staticAccountKeys` makes the parse fail with that index instead |
| BalanceDiffProperties.PreOnlyBalanceAtIndexZeroFails | token-monitor.js:103-120 | in any transaction whose only balance is a non-zero one present before and not after, at account index 0, and any target mint: a target the resolved mint does not pass skips the key and gives `Ok([])`; otherwise the parse fails with the lookup of `undefined`, whatever the transaction's accounts |
| BalanceDiffProperties.PostOnlyBalanceIsReceive | token-monitor.js:103-127 | in any transaction whose only balance is a positive one present after and not before, at any account index i (0 included), and any target mint: a target the mint does not pass gives `Ok([])`; otherwise the result is a single `receive` record of that amount for the account at index i; an index outside `staticAccountKeys` makes the parse fail with that index instead |
| Monitor.LoopIsRetry | token-monitor.js:22-47 | the loop as the method runs it (accumulating effects) and the recursive definition `Retry` give the same effects, exit and flag |
| Monitor.TokenMonitor.constructor | token-monitor.js:5-8 | a new monitor is not monitoring and has made no attempts |
| Monitor.TokenMonitor.Stop | token-monitor.js:166-169 | the flag is clear afterwards; calling `stop()` again changes nothing |
| Monitor.TokenMonitor.MonitorTokenTransfers | token-monitor.js:10-48 | sets the flag and runs the retry loop; the attempts and sleeps it appends, the way it ends and the flag it leaves are those of `Retry` from counter 0; `maxRetries <= 0` makes no attempt |
| Monitor.TokenMonitor.ProcessLogs | token-monitor.js:50-74 | a notice with `err` set makes no call; otherwise the transaction is fetched first; a rejected fetch, a null transaction or a failed parse makes no handler call; otherwise the handler gets the parsed transfers in order, with the context, up to and including the first call that throws |
| Monitor.TokenMonitor.DeliverTransfers | token-monitor.js:68-70 | one handler call per transfer, in order, stopping after the first call that throws |
| MonitorProperties.FailuresFromCounter | token-monitor.js:36-46 | from counter k < maxRetries, maxRetries − k failures alternate attempts with sleeps `retryDelay × (k+1)`, … and then leave the loop with no final sleep |
| MonitorProperties.AllFailuresExhaust | token-monitor.js:22-46 | maxRetries ≥ 1 consecutive failures from the start make exactly maxRetries attempts, sleep `retryDelay × k` after the k-th failure for k < maxRetries and not after the last, and leave the loop with the flag still set |
| MonitorProperties.DefaultRetrySchedule | token-monitor.js:11-46 | with the default options (5 retries, 1000 ms), five failures give five attempts with sleeps of 1000, 2000, 3000 and 4000 ms, then give up |
| MonitorProperties.RetryKeepsBackoff | token-monitor.js:35-46 | from any loop head with counter k, every sleep falls while the failure streak (started at k, reset by a success) is between 1 and maxRetries − 1 and lasts `retryDelay` times that streak; giving up happens with the streak at maxRetries |
| MonitorProperties.BackoffGrowsWithConsecutiveFailures | token-monitor.js:35-46 | over a whole run, each sleep at position i lasts `retryDelay` times the number of consecutive failures just before it, where a success resets that count to 0, and that number is between 1 and maxRetries − 1; giving up means maxRetries consecutive failures |
| MonitorProperties.SuccessResetsCounter | token-monitor.js:35-41 | whatever the counter, a success followed by a failure sleeps `retryDelay`, the delay of a first failure |
| MonitorProperties.StopPreventsFurtherAttempts | token-monitor.js:22-47 | when `stop()` is called during iteration j, no attempt follows iteration j's, the loop ends at the flag check or the ceiling, and it leaves the flag clear once that attempt was made |

## Left out

- `Connection` and the network: `onLogs` and `getTransaction` are outcomes given as inputs. The RPC URL, commitment levels and `TOKEN_PROGRAM_ID` play no part.
- The callback that `onLogs` registers (lines 26-32) and its `try`/`catch` are not modelled as a stored callback. Instead, `ProcessLogs` models one delivery of a notice, and the outer catch only logs.
- Concurrency: a notice's delivery is not interleaved with the loop. A `stop()` from another task is reduced to a per-iteration input, applied after that iteration's attempt. The flag is read only at the loop head.
- Subscriptions that succeeded are never removed, in the source as in the model. Nothing tracks how many are live.
- `sleep` and timers: the delay is recorded as an effect, and no time passes.
- The loop input is finite. `Exit.InputEnded` marks a run that ran out of modelled iterations. The source's loop has no such end.
- `uiAmount` (line 123) is left out because it is floating-point arithmetic.
- `BigInt(…)` of malformed strings: amounts are unbounded integers already, so `BigInt` parsing cannot fail in the model.
- `toBase58()` and `PublicKey`: accounts are opaque addresses. The record holds the address, not its text.
- `amount: difference.toString()`: the record holds the integer itself.
- `defaultTransferHandler` (lines 134-152) and all console output: they only format and print text.
- `monitorSpecificToken` and `monitorAllTokens` (lines 154-164) only call `monitorTokenTransfers` with a target mint or `null`, and with no retry options. The mint or `null` they pass reaches the model as the `target` parameter of `ProcessLogs` (`Some(mint)` or `None`). The omitted options are the defaults `DefaultMaxRetries` and `DefaultRetryDelay`, which `DefaultRetrySchedule` covers.
- The command-line entry point and the SIGINT handler (lines 176-195), along with `process.exit`.
- `logs.err` is kept only as a flag. The subscription `context` is kept as one integer that is passed through to the handler unchanged.
- `ProcessLogs` and `MonitorTokenTransfers` are separate: the target mint and the handler are parameters of `ProcessLogs` rather than being captured by the callback.
