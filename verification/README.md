# Bourse: a verified model of the trading back end

Bourse is a paper-trading service.  Orders are placed over an API, executed by
background workers that lease jobs from a durable queue, and recorded as
double-entry legs in an append-only stream from which every balance is derived.
A rate limiter protects the API and a short-lived cache serves portfolio views.

The project models these parts at the level of single SQL statements and Lua
scripts and proves what holds in every state of every run, under every
interleaving of workers, crashes, stale executions, reapers, replays and cancels.
`dafny verify dfyconfig.toml` checks all of it.

## How it is organised

| files | part |
|---|---|
| `Prelude`, `Model` | int64 wrap-around, orders, entries, the two legs of a trade |
| `JobTables`, `QueueMachine`, `QueueSafety`, `RetryBound`, `RetryTight`, `RunTimes` | the job queue: tables, worker executions, clock; conservation, lease exclusivity, retry bounds |
| `Book`, `LedgerMachine`, `LedgerSafety` | one portfolio run sequentially, and any number of ExecuteOrder transactions interleaved |
| `System`, `SystemSafety`, `EndToEnd`, `TradeLegs`, `OneTrade`, `Pricing`, `Settlement`, `Submits`, `PollChain`, `PollPrompt`, `PollForks`, `Races`, `Projection` | queue, ledger, orders and handlers together; end-to-end guarantees, exact conditions where one fails, and the runs that show it |
| `TokenBucket`, `TokenHeaders`, `SlidingWindow`, `SlidingHeaders`, `RequestCounter` | the two rate-limit scripts against limiters that never forget, and the counter behind the members |
| `SnapshotCache`, `PortfolioView` | cached views against the ledger, and the derivation of a view |
| `JobRepository`, `TradingService`, `Limiter`, `SnapshotStore`, `PortfolioService` | the repositories and services as classes whose methods update state in place, each proved against the functions above |

A run is a sequence of states with the steps between them.  `QueueMachine` and
`LedgerMachine` are machines of their own; `System` is their product with the
orders table and the handlers' program counters, and `Projection` shows that every
run of the product projects to a run of each.  A job id is the position of its
enqueue, an order id the position of its insert, and a trade id is the pair of
order and execution that drew it.

Hypotheses are named predicates and appear only where a theorem needs them:
*timely* (`TimelyOn`, `TimelyFor`: no execution of the job in question acts after its
lease has expired), *atomic reap* (`AtomicReap`: both statements of the reaper see one
clock value), *uninterrupted* (`Uninterrupted`: no crash between the two statements of
MoveToDead), and `NonnegativeLease`.  For the first three a run shows what happens
without them: `Races.StaleWorkerTradesTwice` and `RetryTight.BoundIsReached`,
`RetryTight.SplitReapUnbounded`, and `QueueSafety.OneCrashSuffices`.

## What the code does that its comments do not say

* "It is idempotent" (of ExecuteOrder, `trading_service.go:162`): an order has one trade at most if and
  only if no other fill of it commits between the read and the commit of one
  (`TradeLegs.OneTradeIff`).  That holds when the executions of the order's job are timely
  (`OneTrade.AtMostOneTrade`); a stale one can break it
  (`Races.StaleWorkerTradesTwice`), because the status read is not repeated under the row
  lock, where a second look would do (`TradeLegs.RecheckSuffices`).
* "cancels an order that has not yet executed" (`trading_service.go:264`): the cancel
  overwrites a trade if and only if a fill commits between its read and its unguarded
  write (`TradeLegs.CancelOverwritesIff`, and the run `Races.CancelOverwritesFill`); and a
  cancelled order is filled after all if and only if an execution that had read it before
  commits a fill (`TradeLegs.CancelIsFinalIff`, and the run `Races.FillOverridesCancel`).
  Both runs have timely workers.
* "a repeated submit with the same key returns the original order"
  (`trading_service.go:119`): it does if and only if that order was stored before its lookup
  (`Submits.FoundIff`, `Submits.FoundIsOriginal`); it fails on the unique index if and only
  if one was stored between its lookup and its insert (`Submits.RefusedIff`), which two
  overlapping submits bring about from every state (`Submits.OverlappingSubmits`).
* The double-entry check (`trading_service.go:232`) can never fail, also when
  `quantity * price` wraps; the legs then do not balance, and
  `Book.WrapMakesValue` ends up with books worth 2^64 paise more than the seed.
* A crash between the two statements of MoveToDead leaves a row that, once its lease has
  expired, makes the reaper's first statement fail on a duplicate key, for all jobs
  (`QueueSafety.FirstReapFailsIff`, `QueueSafety.OneCrashSuffices`); with an atomic reaper
  nothing is ever reaped again (`QueueSafety.ReaperStopsForGood`).
* "a crashed worker's reclaim still counts toward the cap" (`job_repository.go:35`): stale
  workers raise the number of claims to as many as `2 * max_attempts - 1`, and a lease that
  runs out between the reaper's two statements leaves it unbounded.
* "exactly one recurring poll_quotes job" (`worker.go:66`) holds if and only if the chain
  was seeded once, no job's handler enqueued a successor twice, and every job with a
  successor is done (`PollChain.OnePollIff`).  Two workers that start together seed twice
  (`PollForks.TwoSeedersSeedTwice`); one crash between a handler's enqueue and the
  completion of its job forks the chain for good (`PollForks.CrashForksTheChain`).  Poll
  executions that complete in time keep one chain one (`PollPrompt.PromptChainIsOne`).
* A token bucket with `rate <= 0` never refills, except that its key expires after a
  second of silence and comes back full.  So the bucket limits to its rate, exactly, if and
  only if the rate is positive or nothing is ever admitted (`TokenBucket.BucketIsExactIff`,
  `TokenBucket.IntervalBoundIff`, `TokenBucket.TotalBoundIff`), keeps its Remaining header if
  and only if the rate is not negative or the capacity at most one
  (`TokenHeaders.RemainingIsPromisedIff`), and its Retry-After header if and only if the rate
  is positive and the capacity at least one (`TokenHeaders.RetryAfterHonouredIff`).
* `l.counter++` (`ratelimit.go:139`) is not synchronised: overlapping calls of one process
  can draw the same sorted-set member in the same millisecond
  (`RequestCounter.OverlappingCallsCollide`), as can two processes; the set then counts
  those admissions once (`SlidingWindow.CountExactIff`).
* Invalidating before the commit is called fine "because a miss simply recomputes"
  (`trading_service.go:253-254`): a reader that queried before the commit can store its
  view after the invalidation, so a trade can stay invisible for 5 s plus the
  reader's own delay, and no longer (`SnapshotCache.StalenessIsReached`,
  `SnapshotCache.ServedIsRecent`).

## Model

| member | source | states |
|---|---|---|
| `Model.DoubleEntryNeverFires` | Bourse/internal/service/trading_service.go:219-235 | the double-entry test passes for every order, price and sequence number, also when quantity * price wraps |
| `Model.TradeBalancesIff` | Bourse/internal/model/model.go:25-33 | the exact value of the two legs sums to side * (product - wrapped product), and to zero if and only if the product fits an int64 |
| `Book.LookupHoldings` | Bourse/internal/repository/entry_repository.go:27-58 | reading the holdings map with zero for a missing key is the sum of direction * quantity over the stream |
| `Book.FillMoves` | Bourse/internal/service/trading_service.go:205-241 | a fill raises (lowers) the instrument of a purchase (sale) by exactly the quantity and lowers (raises) the cash by exactly the wrapped cost, and moves no other balance |
| `Book.BalanceIsFlows` | Bourse/internal/repository/entry_repository.go:31-58 | a point-in-time balance is the quantity that came in by then minus the quantity that went out by then |
| `Book.ReplayedPositions` | Bourse/internal/service/trading_service.go:205-241 | after any bodies, shares are those bought minus those sold by the fills, and cash is the seed minus costs plus proceeds |
| `Book.BodySolvent` | Bourse/internal/service/trading_service.go:205-241 | one transaction body keeps every balance nonnegative for every int64 quantity and price, wrapped products included |
| `Book.ReplayedTrail` | Bourse/internal/service/trading_service.go:219-244 | running bodies one by one leaves the seed followed, fill by fill, by the two adjacent legs, numbered without gaps |
| `Book.ReplayedValue` | Bourse/internal/repository/entry_repository.go:31-58 | for every asOf the included entries are worth the seed plus the drift of the included wrapped products; both legs of a fill are included or neither |
| `Book.WrapMakesValue` | Bourse/internal/service/trading_service.go:205-235 | a concrete wrapping order that passes every check, spends all the cash and adds 2^64 to the books' worth |
| `LedgerMachine.CommitIsBody` | Bourse/internal/service/trading_service.go:196-257 | committing the statement-by-statement buffer of the lock holder changes the committed rows exactly as the atomic body does, with the same verdict |
| `LedgerMachine.LedgerStep` | Bourse/internal/repository/portfolio_repository.go:37-55 | every statement of every transaction keeps: lock and holder agree, what the holder has read is still committed, and the rows are those of the winners' bodies in lock order |
| `LedgerSafety.Serialisable` | Bourse/internal/service/trading_service.go:196-257 | in every state of every interleaving, entries and seq_counter are those of whole bodies run in lock-acquisition order, which for the committed ones is the commit order, each with the order and price read beforehand |
| `LedgerSafety.Solvent` | Bourse/internal/service/trading_service.go:197-241 | in every state of every interleaving of validated orders, cash and every position are nonnegative, also with repeated executions and wrapping products |
| `LedgerSafety.PositionsAreTrades` | Bourse/internal/service/trading_service.go:197-241 | in every state of every interleaving of validated orders, each share position is what the committed fills bought minus what they sold, and the cash is the seed minus what they paid plus what they earned |
| `LedgerSafety.AuditTrail` | Bourse/internal/service/trading_service.go:197-244 | entry i carries seq i + 1 and seq_counter is the number of entries, under any mix of fills, rejections, rollbacks and repeats |
| `LedgerSafety.LegsAreNeighbours` | Bourse/internal/service/trading_service.go:219-241 | two entries share a trade id only as the neighbouring stock and cash leg of one fill, with opposite directions and one timestamp |
| `LedgerSafety.AppendOnly` | Bourse/internal/repository/entry_repository.go:18-25 | no step changes or removes a committed entry: the stream at one state is a prefix of the stream at any later one |
| `LedgerSafety.ValueConserved` | Bourse/internal/repository/entry_repository.go:31-58 | at any asOf from the seed on, under any interleaving, included entries are worth exactly the seed if every fill's product fits an int64, and otherwise the seed plus an exact drift |
| `QueueMachine.ConservedStep` | Bourse/internal/repository/job_repository.go:62-150 | every queue statement keeps: rows and snapshots agree with the enqueue log, no id is lost, the tables overlap exactly at unfinished or cut MoveToDead calls |
| `QueueMachine.ExclusiveStep` | Bourse/internal/repository/job_repository.go:32-110 | if a job's executions are timely, a live one holds the job's current lease and there is at most one, whatever executions of other jobs do |
| `QueueSafety.JobConservation` | Bourse/internal/repository/job_repository.go:62-150 | in every run each enqueued id and no other is in jobs or dead_letters, and queued + inflight + done + dead is the number of enqueues plus the unfinished and cut MoveToDead calls |
| `QueueSafety.DisjointTables` | Bourse/internal/repository/job_repository.go:76-85 | with uninterrupted MoveToDead the tables overlap exactly in the jobs now between its statements and the four counts exceed the enqueues by exactly those; with none there, the tables are disjoint and the counts add up |
| `QueueSafety.FirstReapFailsIff` | Bourse/internal/repository/job_repository.go:87-101 | in every state of every run the first reaping statement fails if and only if an expired, exhausted job is between the statements of a MoveToDead or was cut there |
| `QueueSafety.ReaperStopsForGood` | Bourse/internal/repository/job_repository.go:76-110 | once a MoveToDead was cut, its lease has expired and nobody works on the job, then in every continuation with an atomic reaper and nonnegative leases its row never changes and no reaping statement changes anything |
| `QueueSafety.OneCrashSuffices` | Bourse/internal/repository/job_repository.go:76-85 | such a state is reached by timely workers with one enqueue and one crash |
| `RetryBound.LifeBound` | Bourse/internal/worker/worker.go:101-122 | within one life, from an enqueue or a replay to the next replay (atomic reap, nonnegative leases), a job with cap m >= 1 is claimed at most 2m - 1 times plus once for each execution of an earlier life that could still retry when the life began, whatever stale executions do |
| `RetryBound.AttemptsBound` | Bourse/internal/worker/worker.go:101-122 | in its first life it is claimed at most 2m - 1 times |
| `RetryBound.AttemptsWithinCap` | Bourse/internal/worker/worker.go:101-122 | in every life, if the job's own executions are timely it is claimed at most m times |
| `RetryTight.BoundIsReached` | Bourse/internal/worker/worker.go:110-121 | for every m >= 1 a run satisfying the same hypotheses claims the job exactly 2m - 1 times |
| `RunTimes.NoEarlyClaim` | Bourse/internal/repository/job_repository.go:42-48 | in every run a job is claimed only while queued and at or after the run time that its enqueue, its last retry or its last replay wrote |
| `RunTimes.NotBeforeItsTime` | Bourse/internal/repository/job_repository.go:21-48 | in every run no job is claimed before the run time of its enqueue, whatever retries and replays wrote |
| `RetryTight.SplitReapUnbounded` | Bourse/internal/repository/job_repository.go:87-110 | without atomic reap, for every n a run with timely workers claims the job n times |
| `SystemSafety.SysOkStep` | Bourse/internal/service/trading_service.go:99-258 | every step of the whole system keeps queue, ledger, outbox, orders, handlers and transactions consistent with one another |
| `SystemSafety.SysOkRun` | Bourse/internal/worker/worker.go:80-173 | so does every run |
| `SystemSafety.KeysAreUnique` | Bourse/migrations/0001_init.sql:28-41 | in every state of every run no two orders share a nonempty idempotency key |
| `Submits.TakenIff` | Bourse/internal/service/trading_service.go:119-155 | in every run of overlapping submits a key is taken if and only if an earlier insert stored an order with it |
| `Submits.FoundIff` | Bourse/internal/service/trading_service.go:119-126 | a submit returns a stored order, and creates none, if and only if an order with its key was stored before its lookup |
| `Submits.FoundIsOriginal` | Bourse/internal/service/trading_service.go:119-126 | the order it returns is the one the first submit with that key stored |
| `Submits.RefusedIff` | Bourse/internal/service/trading_service.go:128-160 | a submit whose lookup missed is refused, and changes nothing, if and only if an order with its key was stored between its lookup and its insert; otherwise it stores order and job |
| `Submits.OverlappingSubmits` | Bourse/internal/service/trading_service.go:119-158 | from every reachable state two submits under a free key whose lookups come before either insert end with one order stored and the other submit refused |
| `Submits.ToSystem` | Bourse/internal/service/trading_service.go:148-155 | every run with overlapping submits is a run of the system, so its theorems apply |
| `EndToEnd.NoOrderStranded` | Bourse/internal/service/trading_service.go:148-155 | in every state of every run the job enqueued with a pending order is queued, inflight or dead-lettered |
| `EndToEnd.StatusMoves` | Bourse/internal/repository/order_repository.go:63-75 | a step changes an order only by a cancel, a rejection, the commit of its own transaction (filled at its price, or rejected) or its settlement, and only in status and fill price |
| `EndToEnd.FilledHasSettleJob` | Bourse/internal/worker/worker.go:153-173 | in every state of every run a filled order has a settle job that is queued, inflight or dead-lettered |
| `Settlement.SettleClaimWaits` | Bourse/internal/service/trading_service.go:248-252 | in every run a settle job is claimed no earlier than 86 400 000 ms after the commit of the fill that enqueued it |
| `Settlement.SettledADayLater` | Bourse/internal/worker/worker.go:164-172 | in every run an order is settled no earlier than 86 400 000 ms after a fill of it committed |
| `Settlement.PollWaits` | Bourse/internal/worker/worker.go:233-236 | the successor that a poll handler enqueues is claimed no earlier than 15 000 ms later |
| `Pricing.FillHasItsQuote` | Bourse/internal/service/trading_service.go:175-241 | in every run a fill goes back to a quote its execution took and a transaction it began, and appends a stock leg and a cash leg with the order's instrument, quantity and side and the time of that beginning, priced at the quote for a market order and at the limit for a limit order whose quote was no worse |
| `Pricing.RejectedForItsQuote` | Bourse/internal/service/trading_service.go:180-194 | in every run an order rejected outside a transaction is a limit order whose execution took a quote worse than its limit, and books and queue stay as they were |
| `Pricing.CommitWeighsTheBooks` | Bourse/internal/service/trading_service.go:205-217 | in every run a committing transaction leaves its order filled if and only if the committed cash covers the wrapped cost of a purchase, or the committed shares the quantity of a sale, and rejected otherwise |
| `EndToEnd.PollChainNeverDies` | Bourse/internal/worker/worker.go:175-238 | once seeded, the latest poll_quotes job is queued, inflight or dead-lettered and never done |
| `TradeLegs.LegsCountFills` | Bourse/internal/service/trading_service.go:196-257 | in every run an order gains two legs with each fill and none otherwise |
| `TradeLegs.PendingHasNoTrade` | Bourse/internal/service/trading_service.go:236-247 | a pending order has no legs in every state of every run, stale workers included |
| `TradeLegs.CancelOverwritesIff` | Bourse/internal/service/trading_service.go:264-279 | a cancel that reads at step i and writes at step j leaves two legs for each fill in between, so it overwrites a trade if and only if a fill committed in between |
| `TradeLegs.CancelIsFinalIff` | Bourse/internal/service/trading_service.go:270-278 | after a cancel's write the order gains legs if and only if an execution that had read it before the write commits a fill |
| `TradeLegs.CancelIsFinal` | Bourse/internal/service/trading_service.go:270-278 | if no execution was engaged with the order when the cancel was written, it never trades again |
| `TradeLegs.SecondTradeIff` | Bourse/internal/service/trading_service.go:166-204 | each fill belongs to an execution that read the order as pending, and is a second trade if and only if another fill committed between that read and this commit |
| `TradeLegs.OneTradeIff` | Bourse/internal/service/trading_service.go:162-258 | in every run an order has at most two legs if and only if no other fill of it commits between the read and the commit of one |
| `TradeLegs.RecheckSuffices` | Bourse/internal/service/trading_service.go:197-204 | if each fill belongs to an execution that found the order still pending when it took the row lock, the order has at most one trade, whatever stale workers do |
| `OneTrade.AtMostOneTrade` | Bourse/internal/service/trading_service.go:162-258 | if the executions of the order's own job are timely, the order has no legs or two in every state of every run, and none while pending or once rejected |
| `OneTrade.FilledHasItsTrade` | Bourse/internal/service/trading_service.go:236-252 | a filled or settled order has its legs in the books in every run, and exactly two if its own executions are timely |
| `PollChain.PollCount` | Bourse/internal/worker/worker.go:175-238 | in every state of every run the outstanding poll jobs number the seeds, plus the repeated rearms, plus the rearmed jobs that are not done |
| `PollChain.OnePollIff` | Bourse/internal/worker/worker.go:66-78 | exactly one poll job is outstanding if and only if there was one seed, no job was rearmed twice and every rearmed job is done |
| `PollChain.SeededOnce` | Bourse/internal/worker/worker.go:66-78 | if no check overlaps another call and none happens while a poll job is dead-lettered, the chain is seeded at most once in every run, across restarts and abandoned calls |
| `PollPrompt.PromptChainIsOne` | Bourse/internal/worker/worker.go:101-107 | if seeding is done alone, poll executions are timely and those that have enqueued the successor complete before their leases run out, then there is at most one seed and no job is rearmed twice, and every rearmed job is done or about to be completed |
| `PollForks.TwoSeedersSeedTwice` | Bourse/internal/worker/worker.go:67-77 | two overlapping calls of seedPoller leave two queued poll jobs |
| `PollForks.CrashForksTheChain` | Bourse/internal/worker/worker.go:101-107 | a run with timely workers, one seed and an atomic reaper in which one crash leaves two chains |
| `Races.StaleWorkerTradesTwice` | Bourse/internal/service/trading_service.go:166-204 | a run in which one execution outlives its lease writes four legs for one order |
| `Races.CancelOverwritesFill` | Bourse/internal/repository/order_repository.go:63-75 | a run with timely workers ends with a cancelled order that has two legs |
| `Races.FillOverridesCancel` | Bourse/internal/service/trading_service.go:264-279 | a run with timely workers in which an order is cancelled without legs and then filled |
| `Projection.ToQueue` | Bourse/internal/worker/worker.go:80-122 | every run of the system projects to a run of the queue machine whose steps are exactly the queue parts of the system's steps, in order, each taken from the same queue state |
| `Projection.ToLedger` | Bourse/internal/service/trading_service.go:36-47 | every run of the system projects to a run of the ledger machine over validated orders whose steps are exactly the ledger parts of the system's steps, in order |
| `Projection.SystemSolvent` | Bourse/internal/service/trading_service.go:197-241 | every balance of every portfolio is nonnegative in every state of every run of the whole system |
| `Projection.SystemPositions` | Bourse/internal/service/trading_service.go:197-241 | in every state of every run of the whole system every balance is bought minus sold, or seed minus costs plus proceeds |
| `Projection.SystemSerialisable` | Bourse/internal/service/trading_service.go:196-257 | the committed books of the whole system are those of whole bodies; the grants are the LockForUpdate statements of the system run in order, and those that committed are its commits in order |
| `Projection.SystemAttemptsBound` | Bourse/internal/service/trading_service.go:152-154 | inside the whole system an order's job is claimed at most nine times before its first replay, whatever stale workers do |
| `TokenBucket.BucketIsExact` | Bourse/internal/ratelimit/ratelimit.go:29-52 | for nondecreasing times, and a positive rate or a capacity below one, the script (key expiry included) denies a request if and only if admitting it would make some interval from an earlier or equal request exceed burst + rate * elapsed |
| `TokenBucket.BucketIsExactIff` | Bourse/internal/ratelimit/ratelimit.go:29-52 | that holds on all nondecreasing sequences if and only if the rate is positive or the capacity below one |
| `TokenBucket.IntervalBound` | Bourse/internal/ratelimit/ratelimit.go:29-52 | no interval between two requests holds more than burst + rate * elapsed admissions of the script, for the configurations the next row names |
| `TokenBucket.IntervalBoundIff` | Bourse/internal/ratelimit/ratelimit.go:29-52 | that holds on all nondecreasing sequences if and only if the capacity is not negative and the rate is positive, or both are zero |
| `TokenBucket.TotalBound` | Bourse/internal/ratelimit/ratelimit.go:29-52 | for arbitrary clocks total admissions of the script are at most burst + rate * (sum of forward clock jumps), for the same configurations |
| `TokenBucket.TotalBoundIff` | Bourse/internal/ratelimit/ratelimit.go:29-52 | that holds on all sequences if and only if the configuration is one of those |
| `TokenBucket.ExpiryUnobservable` | Bourse/internal/ratelimit/ratelimit.go:37-48 | with a positive rate the expiring key gives the same decisions and stored tokens as one that never expires, on every sequence of times |
| `TokenBucket.ExpiryUnobservableIff` | Bourse/internal/ratelimit/ratelimit.go:46-48 | expiry changes no decision on any nondecreasing sequence if and only if the rate is positive or the capacity is below one |
| `TokenBucket.StillDrained` | Bourse/internal/ratelimit/ratelimit.go:46-48 | without refill a drained key still denies 999 ms after its last request |
| `TokenBucket.ComesBackFull` | Bourse/internal/ratelimit/ratelimit.go:46-48 | and admits again 1000 ms after it, so that one request more than the capacity is admitted |
| `TokenHeaders.RemainingIsPromised` | Bourse/internal/ratelimit/ratelimit.go:45-51 | on the expiring key, for a rate that is not negative, after Remaining = k the next k requests are admitted whenever they arrive |
| `TokenHeaders.RemainingIsPromisedIff` | Bourse/internal/ratelimit/ratelimit.go:38-51 | for nondecreasing times that promise is kept on all sequences if and only if the rate is not negative or the capacity is at most one |
| `TokenHeaders.RemainingIsExact` | Bourse/internal/ratelimit/ratelimit.go:41-51 | for every configuration, after Remaining = k the first k further requests in the same instant are admitted and the next one is denied |
| `TokenHeaders.ResetIsExact` | Bourse/internal/ratelimit/ratelimit.go:49-51 | for a positive rate the reset is the least whole number of seconds after which the bucket, left alone, is full: full then, and not full after any smaller number |
| `TokenHeaders.RetryAfterHonoured` | Bourse/internal/middleware/ratelimit.go:30-41 | after any sequence of requests that ends in a denial, a request Retry-After seconds later with only denials in between is admitted, for capacity >= 1 and a positive rate, key expiry included |
| `TokenHeaders.RetryAfterHonouredIff` | Bourse/internal/middleware/ratelimit.go:30-41 | that holds after all sequences if and only if the capacity is at least one and the rate positive |
| `SlidingWindow.CountsLog` | Bourse/internal/ratelimit/ratelimit.go:61-69 | whatever the members, what is left after expiry and pruning is the set that the unpruned log defines |
| `SlidingWindow.RefinesLog` | Bourse/internal/ratelimit/ratelimit.go:55-73 | for nondecreasing times and distinct members each decision is "fewer than limit admissions in (now - window, now]" over the whole history |
| `SlidingWindow.WindowBound` | Bourse/internal/ratelimit/ratelimit.go:55-73 | every half-open interval of one window's length holds at most limit admissions |
| `SlidingWindow.CountExactIff` | Bourse/internal/ratelimit/ratelimit.go:62-68 | the size of the set is at most the log's count, and equals it if and only if no two counted admissions share a member |
| `SlidingWindow.ScriptCountsIff` | Bourse/internal/ratelimit/ratelimit.go:61-68 | what ZCARD returns is the log's count if and only if no two counted admissions share a member |
| `RequestCounter.OneAtATimeIsDistinct` | Bourse/internal/ratelimit/ratelimit.go:138-142 | if the calls of Allow come one at a time, no two requests of the process carry the same member |
| `RequestCounter.OverlappingCallsCollide` | Bourse/internal/ratelimit/ratelimit.go:139-140 | two calls that load the counter together draw the same member |
| `RequestCounter.AtomicIncrementsCollide` | Bourse/internal/ratelimit/ratelimit.go:139-140 | so do two calls whose increments do not interleave, because the member loads the counter again |
| `SlidingHeaders.CollidingMembersUnlimited` | Bourse/internal/ratelimit/ratelimit.go:61-68 | with a limit of two or more, every one of n requests that share member and instant is admitted, for every n, starting from no key |
| `SlidingHeaders.RemainingIsPromised` | Bourse/internal/ratelimit/ratelimit.go:70-72 | after Remaining = k the next k requests are admitted whenever they arrive and whatever their members |
| `SlidingHeaders.RemainingIsExact` | Bourse/internal/ratelimit/ratelimit.go:62-72 | for a positive window, after Remaining = k the first k further requests in the same instant with members of their own are admitted and the next one is denied |
| `SlidingHeaders.ResetIsWindow` | Bourse/internal/ratelimit/ratelimit.go:72 | the reset is the window in whole seconds, rounded up |
| `SlidingHeaders.RetryAfterHonoured` | Bourse/internal/middleware/ratelimit.go:30-41 | after any sequence of requests that ends in a denial, a request Retry-After seconds later with only denials in between is admitted, for a limit of at least one |
| `SnapshotCache.ServedIsRecent` | Bourse/internal/service/trading_service.go:287-292 | over every interleaving with the statements of the ledger, a view served from the cache is the holdings of one committed state and includes every entry committed at least 5 s + d earlier when readers take at most d |
| `SnapshotCache.ComputedIsRecent` | Bourse/internal/service/trading_service.go:301-335 | a view computed on a miss is the holdings of one committed state and includes every entry committed more than d before it is returned |
| `SnapshotCache.StalenessIsReached` | Bourse/internal/service/trading_service.go:253-256 | from every reachable state in which a trade is about to commit, a run serves the state before the trade 1 ms short of 5 s + d after its commit |
| `PortfolioView.LessIff` | Bourse/internal/service/trading_service.go:327-329 | the order used is the lexicographic one: a proper prefix, or smaller at the first difference |
| `PortfolioView.SortPositions` | Bourse/internal/service/trading_service.go:327-329 | the result is sorted by instrument and holds the same positions |
| `PortfolioView.Gather` | Bourse/internal/service/trading_service.go:312-326 | for any walk of the map the loop gathers each nonzero non-cash holding exactly once and the wrapped sum of quantity * price |
| `PortfolioView.BuildView` | Bourse/internal/service/trading_service.go:306-330 | for any walk the view shows the cash, and exactly one position for each nonzero non-cash holding, with its quantity, its quote or 0, and their int64 product, in order; the specification does not mention the walk |
| `PortfolioView.ViewIsUnique` | Bourse/internal/service/trading_service.go:310-330 | only one view satisfies it, so the map's iteration order is unobservable |
| `PortfolioView.TotalIsExactIff` | Bourse/internal/service/trading_service.go:321-330 | the market value is the wrapped sum of quantity * price over the view's positions, and the total is cash plus that sum, exact if and only if it fits an int64 |
| `JobRepository.JobRepository.Enqueue` | Bourse/internal/repository/job_repository.go:19-30 | inserts a queued row with the given kind, priority, run time and cap and no attempts, refused by the primary key |
| `JobRepository.JobRepository.Pick` | Bourse/internal/repository/job_repository.go:42-48 | the row found is queued, unlocked and due, and no other such row has a higher priority, or the same and an earlier run time; none is found only if no unlocked queued row is due |
| `JobRepository.JobRepository.Claim` | Bourse/internal/repository/job_repository.go:32-60 | takes such a row, makes it inflight with the lease and one more attempt and changes nothing else, or changes nothing because no unlocked queued row is due |
| `JobRepository.JobRepository.Complete` | Bourse/internal/repository/job_repository.go:62-66 | marks the row done by id alone, whoever holds the lease |
| `JobRepository.JobRepository.Retry` | Bourse/internal/repository/job_repository.go:68-74 | requeues the row by id alone |
| `JobRepository.JobRepository.MoveToDead` | Bourse/internal/repository/job_repository.go:76-85 | inserts the snapshot into dead_letters and then deletes the row; a duplicate key changes nothing |
| `JobRepository.JobRepository.ReapExpired` | Bourse/internal/repository/job_repository.go:87-110 | row by row: an inflight row whose lease is past goes to dead_letters when its attempts have reached the cap and back to the queue otherwise, every other row is untouched; returns both counts; a duplicate key changes nothing |
| `JobRepository.JobRepository.Replay` | Bourse/internal/repository/job_repository.go:133-150 | moves a dead letter back as a queued job with priority 0, cap 5 and no attempts, due now, or reports not found or a duplicate key and changes nothing |
| `JobRepository.JobRepository.Stats` | Bourse/internal/repository/job_repository.go:152-175 | the first three are the numbers of queued, inflight and done rows and add up to the table; the fourth is the size of dead_letters |
| `JobRepository.BackoffGrows` | Bourse/internal/worker/worker.go:117-118 | the backoff is nondecreasing, doubles until it reaches the cap and stays between 1 and 300 seconds |
| `JobRepository.BackoffSeconds` | Bourse/internal/worker/worker.go:117-118 | 1, 2, 4, 8, 16, 32, 64, 128 and 256 seconds after 0 to 8 attempts, and 300 from 9 on |
| `JobRepository.Process` | Bourse/internal/worker/worker.go:101-122 | completes, retries after the backoff or dead-letters, deciding by the claimed snapshot's attempts |
| `TradingService.ValidatedIff` | Bourse/internal/service/trading_service.go:99-146 | a request passes the checks if and only if side, type, limit price, quantity and instrument are acceptable, and its order has the side, type, limit, portfolio, key, instrument and quantity requested, pending and without a price |
| `TradingService.QueryHoldings` | Bourse/internal/repository/entry_repository.go:31-58 | one pass over the stream yields, for every instrument, the sum over the entries created by asOf (or all), and fails if and only if one such sum does not fit a bigint |
| `TradingService.TradingService.CreatePortfolio` | Bourse/internal/service/trading_service.go:49-83 | refuses a negative seed, and otherwise opens a book with the seed entry numbered 1, or an empty one |
| `TradingService.TradingService.PlaceOrder` | Bourse/internal/service/trading_service.go:96-160 | a new key stores exactly the requested order together with its execution job (priority 10, due now, cap 5), a known key returns the stored order, and it fails if and only if the request is unacceptable or the portfolio is missing, changing nothing |
| `TradingService.TradingService.CancelOrder` | Bourse/internal/service/trading_service.go:264-279 | succeeds if and only if the order exists and is pending, changes only its status and returns the stored row |
| `TradingService.TradingService.ExecuteOrder` | Bourse/internal/service/trading_service.go:162-258 | a decided order is left alone; a limit order with a worse quote is rejected; otherwise, at the limit or the quote, too little cash or shares rejects it, and a covered order appends its two entries, becomes filled at that price, schedules its settlement in 86 400 000 ms and drops the cached view; an error changes nothing |
| `TradingService.TradingService.Weigh` | Bourse/internal/service/trading_service.go:201-217 | aborts when a sum does not fit or the cost is not positive, refuses when cash or shares do not suffice, else fills, as the atomic body decides |
| `TradingService.TradingService.TwoLegs` | Bourse/internal/service/trading_service.go:219-235 | builds the two legs, field by field, and they pass the double-entry test |
| `TradingService.TradingService.Transact` | Bourse/internal/service/trading_service.go:196-257 | the imperative transaction computes the atomic body, and drops the cached view exactly when it fills |
| `Limiter.Limiter.TokenScript` | Bourse/internal/ratelimit/ratelimit.go:29-52 | the reply and the stored hash in terms of the hash before: full when it is missing or idle for its time to live, else refilled by the rate and capped, one token taken when there is one; remaining and reset of what is left |
| `Limiter.Limiter.SlidingScript` | Bourse/internal/ratelimit/ratelimit.go:55-73 | the reply and the stored set in terms of the set before: pruned, counted against the limit, the member added when admitted |
| `Limiter.Limiter.Allow` | Bourse/internal/ratelimit/ratelimit.go:130-165 | mode "sliding" draws a fresh serial and runs the window on the truncated rate; any other mode runs the bucket and leaves the rest alone |
| `SnapshotStore.Cache.SetSnapshot` | Bourse/internal/cache/cache.go:74-83 | a stored view is served for exactly the next five seconds |
| `SnapshotStore.Cache.InvalidateSnapshot` | Bourse/internal/cache/cache.go:85-88 | no later lookup finds the dropped view |
| `PortfolioService.Portfolio` | Bourse/internal/service/trading_service.go:285-336 | a cached current view is returned unchanged; otherwise the view is that of the holdings included by asOf, and only a current one is stored |

## Left out

- HTTP routing, controllers, JSON, configuration, main functions and the frontend: thin mappings with no hard property; of the middleware only the meaning of the rate-limit headers is used.
- Postgres, Redis and driver internals: each SQL statement and each Lua script is one atomic step; a statement that fails is a step that is not enabled, followed by a rollback.
- A transaction's writes become visible together at its commit.  Waiting for the row lock of an order held by another transaction is therefore not modelled; the model allows every order of such writes, which includes those that waiting allows.
- Market data: a quote is an arbitrary int64 or a failure.
- Webhook delivery and the alert scan of the poll handler: the handler succeeds or fails at will, and alert jobs may be enqueued at any time.
- Which runnable job is claimed: the machines may claim any runnable row, since rows locked by other claims are skipped; the order is proved of `JobRepository.JobRepository.Claim` for any set of locked rows.
- The run time that Retry writes is arbitrary in the machines; the backoff itself is in `JobRepository.Process`.
- Worker clocks and the database clock are one clock.  It never steps back, except in the rate limiter, where `TokenBucket.TotalBound` covers arbitrary clocks.
- attempts, seq_counter and the limiter's request counter are unbounded integers: their overflow is not modelled.
- Text that no decision reads is not modelled: last_error, reason, portfolio names, died_at, the creation time of orders and jobs.
- Uuids do not collide: ids are positions, and a trade id is the pair of order and execution.
- Token-bucket arithmetic is over reals: neither floating-point rounding nor Redis number formatting is covered, nor a change of configuration or mode on an existing key.
- The snapshot machine covers the cache of one portfolio; quotes are read afresh for every computed view and are not part of its staleness bound.
- The classes run one call at a time; interleaving is what the state machines are for.
- Stocks, Trending, History, ListDead, alerts and MarkProcessed: easy or unused.
