# async-semaphore in Dafny

A model of `Semaphore.js`, a counting semaphore in the style of Java's
`java.util.concurrent.Semaphore` for a single-threaded event loop. The
semaphore holds a signed permit counter (`available`), a queue of pending
acquirers (each a permit count and a handler) and a fairness flag fixed at
construction. `acquire` enqueues and then runs the grant scan, `release`
credits the counter and then runs the scan. The scan (`_checkSemaphore`)
walks the queue once from the head. It removes each entry whose request fits
in the counter, debits the counter and defers the handler. A fair semaphore
stops at the first entry that does not fit. A non-fair one skips that entry
and goes on.

The project has three modules:

- `Permits` (Permits.dfy): the raw argument a JavaScript caller may pass
  (`Absent`, `Number(n)`, `Text(parsed)`, `Function`), what `parseInt` reads
  from it, and `ParsePermits`, the total coercion `_parsePermits`.
- `GrantScan` (GrantScan.dfy): the scan as pure functions. `Pass` is the loop
  and `Scan` is the loop behind its guard (`available == 0` or an empty
  queue). It also holds the lemmas for what the scan promises: accounting,
  affordability, order preservation, fair prefix, non-fair skipping.
- `AsyncSemaphore` (Semaphore.dfy): class `Semaphore`, with the source's
  fields `available`, `acquirers` and `isFair`. A field `scheduled` stands in
  for the `process.nextTick` queue: granting an entry appends its handler id
  there. `CheckSemaphore` holds the guard of `_checkSemaphore`; its loop is
  `GrantLoop`, which splices `acquirers` and adjusts `idx` and `len` as the
  source does, one grant (`GrantAt`) at a time. The two together are proved
  equal to `Scan`. Ghost fields `requests`, `granted` and `credited` record
  the history. `Valid()` states the bookkeeping every operation keeps:
  - every enqueued entry is either still queued or granted, exactly once;
  - the handlers scheduled are those of the granted entries, in grant order;
  - the counter plus everything granted equals what the owner put in
    (initial permits plus releases, minus reductions and drains).

Consequences of the code that a reader of the method names might not expect:

- The guard of the scan tests `!this.available`, so a negative counter does
  not stop the scan. A request at or below a negative counter is granted,
  and the grant raises the counter. A zero counter stops the scan even for a
  request of zero or less. `NegativeCounterStillScans` shows both.
- The doc comment of `_parsePermits` (Semaphore.js:171) says it returns 0
  for invalid or negative input. The code returns the caller's default for
  a falsy argument or NaN, and passes negative integers through unchanged.
  The model follows the code.
- `parseInt` reads a number through its string form. From 10^21 on that
  form is exponential (`1e+21`), so only the sign and the leading digit are
  read: `release(1e21)` credits a single permit. `ExponentFormArgument`
  shows it.

## Model

| member | source | states |
|---|---|---|
| `Permits.IsFalsy` | Semaphore.js:178 | a falsy argument is one that parseInt reads as NaN or zero; a number is falsy exactly when it is 0 |
| `Permits.ParseInt` | Semaphore.js:182 | undefined, null, false, NaN and functions read NaN; a number always reads a number, itself below 10^21 in magnitude, otherwise a single digit 1-9 with its sign; a string reads its leading integer |
| `Permits.ParsePermits` | Semaphore.js:177-185 | a falsy argument (numeric 0 included) gives the default; otherwise the integer parseInt reads, sign included; the result is always the default or that integer |
| `Permits.ZeroArgument` | Semaphore.js:177-185 | `Number(0)` gives the default, so `release(0)` and `acquire(0)` use 1 and `reducePermits(0)` uses 0; the string "0" gives 0; with a non-zero default no number yields 0 |
| `Permits.ExponentFormArgument` | Semaphore.js:182 | 10^21 reads 1 and -10^21 reads -1, while 10^20 reads whole |
| `GrantScan.Handlers` | Semaphore.js:58-66 | the handler list has one entry per queued acquirer |
| `GrantScan.HandlersAt` | Semaphore.js:58-66 | entry `i` of the handler list is the handler of acquirer `i`, so the list is in queue order |
| `GrantScan.HandlersAppend` | Semaphore.js:124-128 | handlers of granted entries, deferred one after another, keep their concatenated order |
| `GrantScan.TotalAppend` | Semaphore.js:121 | the permits debited by two runs of grants add up |
| `GrantScan.InterleavingMultiset` | Semaphore.js:119 | splitting the queue into grants and survivors loses or duplicates no entry |
| `GrantScan.Pass` | Semaphore.js:104-129 | after the loop, the remaining and granted entries number as many as the queue; that no entry is lost or duplicated is `PassSplits` |
| `GrantScan.Scan` | Semaphore.js:93-130 | after the scan, guard included, the remaining and granted entries number as many as the queue; that no entry is lost or duplicated is `ScanSplits` |
| `GrantScan.ScanZeroOrEmpty` | Semaphore.js:95-101 | a zero counter or an empty queue leaves queue and counter as they were and grants nothing |
| `GrantScan.PassConserves` | Semaphore.js:106-129 | over the loop, the final counter plus the requests granted equals the starting counter |
| `GrantScan.ScanConserves` | Semaphore.js:93-130 | after a scan, `available` plus the sum of the granted requests equals `available` before it |
| `GrantScan.PassAffordable` | Semaphore.js:109-121 | in the loop, each granted request is at most the counter left after the earlier grants |
| `GrantScan.ScanAffordable` | Semaphore.js:109-121 | a waiter is granted only when its request is at most the counter left after the earlier grants; the exact debit is `ScanConserves` (in total) and `GrantAt` (per grant) |
| `GrantScan.PassKeepsNonNegative` | Semaphore.js:109-121 | the loop never takes a non-negative counter below zero |
| `GrantScan.ScanKeepsNonNegative` | Semaphore.js:93-130 | a scan starting from a non-negative counter ends with a non-negative counter, whatever the requests |
| `GrantScan.PassSplits` | Semaphore.js:104-129 | the loop splits the queue into grants and survivors, each in queue order |
| `GrantScan.ScanSplits` | Semaphore.js:93-130 | after a scan, the queue is the old queue minus the granted entries in their old relative order; the grants are in queue order; each old entry is in exactly one of the two |
| `GrantScan.FairPassPrefix` | Semaphore.js:109-113 | a fair loop grants a prefix and leaves the rest intact, the head of the rest asking for more than the counter |
| `GrantScan.FairScanGrantsPrefix` | Semaphore.js:93-113 | a fair scan grants a prefix of the queue, and the queue afterwards is exactly the rest; if the scan ran and something is left, the head of it asks for more than the final `available` |
| `GrantScan.UnfairPassLeavesUnaffordable` | Semaphore.js:109-116 | with positive requests, a non-fair loop never raises the counter, and every survivor asks for more than the final counter |
| `GrantScan.UnfairScanLeavesUnaffordable` | Semaphore.js:93-116 | non-fair mode with positive requests: every waiter still queued after a scan asks for more than the final `available`; skipped waiters do not stop the scan |
| `GrantScan.BargingExample` | Semaphore.js:106-129 | requests [5, 2] with 3 permits: non-fair grants the 2 and leaves [5] with 1 permit; fair grants nothing and keeps 3 |
| `GrantScan.NegativeCounterStillScans` | Semaphore.js:95-101 | a scan runs with a negative counter (request -2 with counter -1 is granted and the counter becomes 1) and does nothing with a zero counter, even for a request of -1 |
| `AsyncSemaphore.ScanFrom` | Semaphore.js:106-129 | the remaining and granted entries of the in-place loop number as many as the queue and the earlier grants, and the grants made before the current position stay first in grant order; that no entry is lost or duplicated follows through `ScanFromIsPass` and `ScanSplits` |
| `AsyncSemaphore.ScanFromIsPass` | Semaphore.js:104-129 | the in-place loop (`splice(idx--, 1)`, `len--`) from any position computes the pass over the not-yet-visited suffix, with the skipped entries kept in front |
| `AsyncSemaphore.ScanFromStart` | Semaphore.js:93-130 | the in-place loop from the head, once the guard has passed, computes `Scan` |
| `AsyncSemaphore.FinishScan` | Semaphore.js:93-130 | where the in-place loop stops is the outcome of `Scan`, and the granted entries, debits and handlers keep the books |
| `AsyncSemaphore.ScanKeepsBooks` | Semaphore.js:104-128 | a scan moves its grants from the queue to the granted history, debits their requests, and schedules their handlers after the earlier ones |
| `AsyncSemaphore.Semaphore.constructor` | Semaphore.js:10-20 | `available` is the parsed permits with default 0; the queue and the deferred calls are empty; `isFair` is true only when a boolean true was passed |
| `AsyncSemaphore.Semaphore.AvailablePermits` | Semaphore.js:27-29 | returns the current counter |
| `AsyncSemaphore.Semaphore.GetQueueLength` | Semaphore.js:73-75 | returns the queue length, which is the number of `acquire` calls not yet granted |
| `AsyncSemaphore.Semaphore.GetQueueAcquirers` | Semaphore.js:58-66 | returns a new sequence whose entry `i` is the handler of queued acquirer `i`, which is `Handlers` of the queue |
| `AsyncSemaphore.Semaphore.Acquire` | Semaphore.js:37-51 | appends exactly one entry at the tail (count 1 when a function comes first, else the parsed permits with default 1), then the state, grant history included, is that of the scan over the extended queue; the bookkeeping invariant is kept |
| `AsyncSemaphore.Semaphore.Release` | Semaphore.js:82-88 | adds the parsed permits (default 1) to `available`, with no upper bound, then the state, grant history included, is that of the scan with the credited counter |
| `AsyncSemaphore.Semaphore.CheckSemaphore` | Semaphore.js:93-130 | the guard and the in-place loop leave `acquirers`, `available` and the deferred handlers exactly as `Scan` says: the granted entries join the history and their handlers are appended in grant order; the bookkeeping invariant is kept |
| `AsyncSemaphore.Semaphore.GrantLoop` | Semaphore.js:104-129 | the loop with `idx`, `len` and the fair `return` ends in the state `ScanFrom` computes from the head; grants are appended to the history and their handlers to `scheduled` |
| `AsyncSemaphore.Semaphore.GrantAt` | Semaphore.js:118-128 | one grant: `splice(idx, 1)` removes exactly entry `idx`, the counter drops by its request, its handler is scheduled last |
| `AsyncSemaphore.Semaphore.DrainPermits` | Semaphore.js:137-142 | returns the old `available` and sets it to 0 without touching the queue, so a second call returns 0 |
| `AsyncSemaphore.Semaphore.ReducePermits` | Semaphore.js:149-153 | subtracts the parsed amount (default 0), possibly below zero; the queue is untouched and no scan runs |
| `AsyncSemaphore.Semaphore.TryAcquire` | Semaphore.js:162-168 | returns whether `available` is at least the parsed request (default 1); it changes no state |

## Left out

- `process.nextTick` and calling the handlers (Semaphore.js:124-128): a grant appends the handler's id to `scheduled`; the handlers are never run, and their asynchronous timing is runtime behaviour.
- Handler identity and the `this` binding of `handler.call(this)`: handlers are natural-number ids. An `acquire` without a handler is not distinguished.
- JavaScript coercion of arbitrary values: an argument is one of four cases. Fractional numbers are not modelled (`parseInt(2.7)` is 2, and a truthy `0.5` reads 0). A string is represented only by the integer `parseInt` reads from it, or by NaN.
- Permits.ParsePermits: a `Number(n)` is exact, as a safe integer (magnitude below 2^53) is. Above 2^53 a JavaScript number is a rounded double, and `parseInt` reads its shortest printed digits, which the model does not reproduce; the exponent form from 10^21 on is modelled.
- AsyncSemaphore.Semaphore.Release: `available` is an unbounded integer, so the `+=` and `-=` at Semaphore.js:85, 121 and 152 are exact; in JavaScript they round once the counter passes 2^53 in magnitude. The same holds for `ReducePermits` and `GrantAt`.
- The fairness argument: `Option<bool>`, with `None` for any value that is not a boolean.
- Concurrency: none exists in the source. Every operation runs to completion in one synchronous call, and the methods are sequential.
