# Verification of the flash-sale order service

A Dafny model of a Go order service, with proofs about every run of it. The
service sells limited activity stock: requests race for it through a Redis
counter and user set, orders and stock live in MySQL, a RabbitMQ worker makes
orders payable, and repair loops expire, requeue, close and reconcile.

`dafny verify dfyconfig.toml` checks everything.

## How it is built

| files | what they hold |
|---|---|
| `Keys`, `Model`, `Ledger` | keys, rows and constants; each database transaction as a function from the committed database to a commit or a rollback |
| `Events` | the few effects a committed transaction can have, and the guard of each |
| `Terms` | what each transaction accepts, answers and changes, said on the rows and not through its function |
| `Causes`, `Prices` | why an order came to be and why its status moved; prices, windows and addresses over every run |
| `ActivityStock`, `Lifecycle`, `Cart`, `Coupons`, `Stamps` | one invariant each, over every run of transactions |
| `RedisStock` | the two Lua scripts on abstract state, and the store class on a keyspace of strings that computes them |
| `Protocol`, `ProtocolSafety` | the two-store protocol as a state machine whose steps are single scripts, single transactions and single faults, and the invariant of every step |
| `ProtocolMarks`, `ProtocolRuns` | the marks of one activity step by step; its laws over runs, and what they say about Reserve and the fallback |
| `ProtocolBooks`, `ProtocolLimits` | all runs, evictions and overwrites included; exactly when Redis promises too much, and a run for each way there |
| `ProtocolDb`, `AnyCache` | the database side of a protocol run, and the same with the cache replaced by an arbitrary one |
| `Statements` | the create transaction split into its SQL statements |
| `CreatePaths` | the path with the cache against the path without it |
| `RepairLoops`, `Recovery`, `Passes` | loops over stale lists with other clients in between, and the recovery theorem |
| `Clients`, `OrderService` | the service class; each method is proved to perform protocol steps while others act between its calls |
| `Reconcile` | the reconcile pass on the live store |
| `RetryQueue` | acknowledgement, retry and dead letter with crashes |
| `TokenBucket`, `LoadGen`, `Metrics` | the rate limiter, the load generator, the metrics endpoint |

Main results, each for all inputs and all interleavings: the two-store law of
an activity with its exact leak (`ProtocolRuns.RunTwoStores`, `DriftIsStranded`)
and, for runs in which anything goes wrong, `ProtocolBooks.DriftLaw` and
`FallbackExactly`; safety under any cache (`AnyCache.AnyCacheIsSafe`) and at
statement level (`Statements.ScriptSafe`); the exact conditions, answers and
effects of every transaction (`Terms`), the status table with its causes
(`Causes.StatusCause`, `CancelledByOwner`) and every order at its price
(`Prices.ProtocolPrices`); restore-once and payment safety
(`Lifecycle.RunReturns`, `RunPayments`); conservation of cart and coupon stock
(`Cart.RunCart`, `Coupons.RunCoupons`); recovery, on values and in the class
(`Recovery.EverythingRecovers`, `OrderService.OrderService.Recover`); message
conservation and the retry law (`RetryQueue.CopiesConserved`, `FailsExactly`);
the closed form of the rate limiter (`TokenBucket.ClosedForm`).

## What the proofs found

Four ways lead from a Reserve that succeeds to a database that answers sold out.
`ProtocolBooks.FallbackExactly` says for every run when that happens, and the
limits below are exact in every state in which the marks of the activity part
into settled, in flight and leaked:

- A prewarm that lands after a first reservation overwrites the counter and
  keeps the user set (`ProtocolLimits.LatePrewarmRun`). Redis then promises more
  than MySQL has left if and only if an order is settled or a request is in
  flight; marks that have only leaked do no harm (`PrewarmOverPromises`).
- A reconcile repair counts in-flight requests as differences and gives their
  units out again (`RepairRun`). Redis then promises too much if and only if more
  requests are in flight than orders are being given back (`RepairOverPromises`).
- A restore whose commit fails after its Redis release leaves a live order
  without its mark, and the freed unit can be reserved again
  (`RolledBackCancelRun`). The marks still part if and only if the order is of
  the cart or another activity, or its holder has a stranded mark
  (`RollbackEvictsExactly`).
- A create that commits and whose reply is lost goes on to release the mark of
  the order it has placed (`LostReplyRun`). The lost reply alone does no harm,
  and if the release is lost too the outcome is an ordinary commit
  (`LostTwiceIsCommit`). The marks still part after that release if and only if
  its user has neither a settled order nor another request in flight
  (`StrayReleaseEvictsExactly`).

Other findings:

- The expired branch of a checkout saves EXPIRED and then fails its
  transaction, so that status is never stored (`Coupons.RunCoupons`).
- A fault that strands the mark of a user without an order locks that user out
  of the activity for good: no order ever, every Reserve answered duplicate
  (`ProtocolBooks.StrandedForever`).
- The expired count of an expiry pass includes rows its re-check skipped. It is
  the number of orders closed if and only if every row that goes well passes its
  re-check (`RepairLoops.HitsAtMost`, with a counterexample in `SkippedRun`). The
  counters of a compensation pass are exact.
- A reconcile pass whose repair call fails has counted one difference more than
  it lists (`Reconcile.ReconcileStock`).
- A crash between a retry's publish and its acknowledgement respawns the retry,
  and the message can fail over more often than its limit allows
  (`RetryQueue.RespawnFailsThrice`). `FailsExactly` counts its failures in every
  run and says exactly when they exceed the limit. A crash after a dead letter's
  publish does not make them, though the message is then buried twice.

Where the repository's documents and its code differ, the model follows the code:

- docs/ARCHITECTURE.md:236-239 lists four changes of activity status; the code
  lets an administrator set any of the three statuses from any other, and so does
  `Ledger.UpdateActivityStatus`.
- docs/ARCHITECTURE.md:419 gives `expired_count` as the outcome of an expiry
  pass; the code also counts rows that were no longer open.

## Assumptions

- A committed database transaction is one atomic step; SQLite has one connection
  (internal/database/database.go:38-39). MySQL's default isolation is weaker for
  transactions that read a row and save it; only the create path is also modelled
  at statement level.
- `UpdateActivityStatus` reads and saves a whole row without a transaction
  (internal/service/catalog.go:108-113). It is one atomic status change here;
  otherwise it could overwrite a stock change and conservation would be false.
- A restore releases Redis inside its transaction
  (internal/service/order.go:859-862). In the protocol these are two steps, and
  the transaction keeps the database to itself in between. Transactions outside
  the protocol's restores are single steps.
- The broker keeps every message whose publish returned no error. The publishing
  channel is not in confirm mode (internal/service/rabbitmq.go:83-91), so a
  broker that drops such a message loses it; that is outside the model.
- User ids are positive and Redis keys do not expire during a run, except in
  `AnyCache`, where the cache may do anything.
- Money, stock and counters are unbounded integers; rates, times and latencies
  are exact reals.
- Order numbers, row ids and the clock are inputs. A colliding order number is a
  failed insert that rolls back.

## Model

| member | source | states |
|---|---|---|
| Keys.DecimalRoundTrip | internal/service/redis_stock.go:130-136 | a printed decimal reads back as the number it was, and holds no colon |
| Keys.ActivityOrderKeyInjective | internal/model/model.go:146-152 | two orders share the `user:activity` key only if they share user and activity, so the unique index means one order per pair |
| Keys.FamilyKeyInjective | internal/service/redis_stock.go:130-136 | a Redis key determines its activity and its family |
| Keys.RedisKeysApart | internal/service/redis_stock.go:130-136 | stock keys and user-set keys are injective in the activity, and no stock key is a user-set key |
| Keys.KeyTexts | internal/service/redis_stock.go:130-136 | the text of the two keys of an activity |
| RedisStock.ScriptsKeepSum | internal/service/redis_stock.go:16-52 | neither script changes counter plus number of marked users, for any activity whose counter exists |
| RedisStock.ReleaseUndoesReserve | internal/service/redis_stock.go:16-52 | a release after a successful reserve restores every counter and user set, keeping only the lazy initialisation |
| RedisStock.ReserveReplies | internal/service/redis_stock.go:16-41 | the reply codes -1, -2 and 0 have their exact conditions; only 0 takes a unit and marks the user, and the counter it reports is the one left |
| RedisStock.ReleaseGives | internal/service/redis_stock.go:43-52 | a marked user's release gives one unit and the mark back; for anybody else it does nothing |
| RedisStock.CounterWritten | internal/service/redis_stock.go:97-104 | writing one counter key changes that counter and nothing else in the keyspace |
| RedisStock.MembersWritten | internal/service/redis_stock.go:28-52 | writing one user-set key changes that set and nothing else in the keyspace |
| RedisStock.OneMember | internal/service/redis_stock.go:22-52 | adding or removing one user's decimal text changes that user's membership only |
| RedisStock.RedisStockStore.Reserve | internal/service/redis_stock.go:69-91 | on the string keyspace, Reserve has the outcome and the effect of the script; each code becomes its own answer |
| RedisStock.RedisStockStore.Release | internal/service/redis_stock.go:121-124 | on the string keyspace, Release has the effect of the script |
| RedisStock.RedisStockStore.SetStock | internal/service/redis_stock.go:97-104 | the counter is overwritten and the user set stays |
| RedisStock.RedisStockStore.GetStock | internal/service/redis_stock.go:106-119 | the counter if it exists, and whether it does |
| Events.StepEvent | internal/service/order.go:259-482 | every transaction of every service is one guarded event or nothing, and only creates place orders, only restores return stock, only new activities issue it |
| Events.OneOrderRow | internal/service/order.go:259-639 | a transaction writes at most one order row |
| Events.StockAside | internal/service/order.go:745-824 | outside placing and returning, no transaction touches activity stock or who holds a live order |
| ActivityStock.EventConserves | internal/service/order.go:342-386 | one event keeps stock plus live orders of every activity, stock at or above zero, and one order per user and activity |
| ActivityStock.RunConserves | internal/service/order.go:342-386 | over every run of transactions: stock never negative, stock plus live orders constant, at most one order ever per user and activity |
| ActivityStock.NewOrderWasOrderable | internal/service/order.go:353-366 | an order that a transaction commits is a cart order or its activity was published and in its window with stock left at that moment |
| ActivityStock.OrderedInWindow | internal/service/order.go:826-838 | in every run, each new order has a committing step at which its activity was orderable |
| Terms.DirectAnswers | internal/service/order.go:259-318 | a create without a cache, in a sound database: sold if and only if the activity exists, is published, in its window and in stock, the user has no order for it and the number is free, each error under its own condition; the order is at the activity's product and price without discount, one unit leaves the stock, nothing else changes |
| Terms.ReservedAnswers | internal/service/order.go:342-386 | the same for the transaction after a Reserve, in its own order of checks, with the product and price of the row read before it |
| Terms.CancelAnswers | internal/service/order.go:499-520 | in a sound database a cancel is accepted if and only if the order exists, is the user's own and is queued or waiting for payment; it then gives back exactly what the order holds |
| Terms.ExpireAnswers | internal/service/order.go:540-555 | an expiry row closes the order if and only if it is still open, and otherwise changes nothing |
| Terms.CloseAnswers | internal/service/order.go:611-630 | a closing row closes the order if and only if it still waits for payment, and otherwise changes nothing |
| Terms.RestoreGives | internal/service/order.go:849-882 | giving back never fails in a sound database; the activity gets one unit, or each product the units of the order's items, and only the order's status and stamp change besides |
| Terms.QueueAnswers | internal/service/order.go:581-590 | the worker's and the requeue row's transaction: only a queued order becomes payable, or gets the pass's stamp |
| Terms.EndAnswers | internal/service/order.go:645-661 | a running activity becomes ended, its other fields and everything else stay; one that is not running is left alone |
| Terms.PayAnswers | internal/service/order.go:745-797 | already processed if and only if the transaction number is known; the order and status reported are those of the recorded payment after the call; each error has its exact condition, and a first SUCCESS pays its order and nothing else |
| Terms.CouponAnswers | internal/service/order.go:799-824 | a claim is accepted if and only if it is the user's own, unused, its coupon in its window, and the cost reaches the threshold; each error under its own condition |
| Terms.CheckoutAnswers | internal/service/order.go:400-482 | a checkout goes through if and only if the address is the user's, the cart is not empty, every item can be served, the coupon fits and the number is free, each error under its own condition; order, items, shelves, claim and cart are then exactly these |
| Terms.ClaimAnswers | internal/service/coupon.go:52-85 | a claim is granted if and only if the coupon exists, is in its window and in stock and the user has none yet, each error under its own condition; one unit leaves the stock |
| Terms.ActivityAnswers | internal/service/catalog.go:59-89 | a new activity is accepted if and only if price and stock are positive and the product has that stock; it starts now, published, for the seconds asked for or a day |
| Terms.CatalogAnswers | internal/service/catalog.go:45-114 | an administrator sets one of three statuses and nothing else; a product needs a positive price and no negative stock |
| Terms.CouponRowAnswers | internal/service/coupon.go:27-44 | a new coupon needs a positive discount and stock and runs from now for the seconds asked for or a week |
| Causes.StatusCause | internal/service/order.go:499-639 | the status table as an if and only if: an existing order moves to a status exactly by the transaction for it, from where that move starts, a cancel only by its own user |
| Causes.BirthCause | internal/service/order.go:259-482 | an order comes to be only by a create in an open activity or a checkout to a known address, as what that sells |
| Causes.CauseInRun | internal/service/order.go:499-639 | over every run, a status that an order ends with has its cause at a step of the run |
| Causes.CancelledByOwner | internal/service/order.go:499-520 | over every run, a cancelled order was cancelled by its own user while it was open |
| Prices.ActivityStep | internal/service/catalog.go:104-114 | a step keeps product, price and window of an activity; its status changes only as an administrator sets it, or to ended when a compensation row ends it running |
| Prices.ActivityBirth | internal/service/catalog.go:78-89 | a new activity is an administrator's, published, at a positive price, with its window ahead |
| Prices.RunPrices | internal/service/order.go:291-301 | over every run whose reads were true when made, every activity order is for its activity's product at its activity's price, and every cart order goes to an address of its user |
| Prices.ProtocolPrices | internal/service/order.go:368-378 | the same in every interleaving of the protocol with every fault, although a cached create takes the price from a row read earlier |
| ProtocolSafety.HoldersCount | internal/model/model.go:135-135 | live orders of an activity and users holding one are equally many |
| ProtocolSafety.StepKeeps | internal/service/order.go:320-398 | every protocol step, fault or repair keeps the two-store invariant and every activity's issue; a step that overwrites no counter keeps the books |
| ProtocolMarks.OneMarkAfter | internal/service/redis_stock.go:28-40 | while every request in flight has its mark, no step lets two requests of one user share one |
| ProtocolMarks.SettledAfter | internal/service/order.go:320-398 | what each step does to the users with settled orders: placed orders come, restores take them away at their release, undone restores bring them back |
| ProtocolMarks.SplitAfter | internal/service/order.go:320-398 | a step that evicts no mark of an activity keeps its marks split into settled, in flight and leaked; the leak grows by the mark a fault strands and shrinks by the one that an undone restore or a release gone astray uses up |
| ProtocolMarks.EvictsExactly | internal/service/order.go:320-398 | the split survives a step if and only if the step evicts no mark: it undoes no restore whose holder has no stranded mark, and no request whose commit went unheard releases a mark that an order or another request needs |
| ProtocolRuns.RunSound | internal/service/order.go:320-398 | the two-store invariant holds in every interleaving of creates, restores, prewarms, repairs and faults, and no activity's issue ever changes |
| ProtocolRuns.CreditLaw | internal/service/order.go:714-737 | in every run the books of an activity are out by exactly what its prewarms and repairs have moved its counter |
| ProtocolRuns.MarksLaw | internal/service/order.go:320-398 | over every run without evictions at an activity, its marks part, and its leak is what faults stranded less what was used up again; a lost commit reply alone is no eviction |
| ProtocolRuns.LeakStays | internal/service/redis_stock.go:28-40 | a stranded mark stays in every run without evictions until an undone restore of the same user or a release gone astray uses it up |
| ProtocolRuns.CleanRunBalanced | internal/service/order.go:320-398 | over every run that neither evicts a mark of an activity nor moves its counter by an overwrite, whatever happens elsewhere: marks part, books are even, and the leak is exact |
| ProtocolRuns.TotalIsHolders | internal/service/order.go:849-865 | MySQL stock plus users with live orders is the issue |
| ProtocolBooks.TrackedRun | internal/service/order.go:342-386 | in every run with every fault, a user without any order for the activity has at most one request in flight, and it has its mark |
| ProtocolBooks.UnmarkedLaw | internal/service/order.go:387-393 | in every run the settled orders without a mark are those there were, plus the evictions, less those marked again or given back |
| ProtocolBooks.DriftLaw | internal/service/redis_stock.go:16-52 | after any run from the empty shop, whatever went wrong: the counter is MySQL stock plus the order being given back, plus the run's evictions not cured and its overwrite shifts, less the marks without a settled order |
| ProtocolBooks.FallbackExactly | internal/service/order.go:359-366 | after any run, the fallback answers sold out if and only if the user has no order and the run's evictions not cured plus its overwrite shifts cover the counter and all marks without a settled order |
| ProtocolBooks.FallbackNeedsTrouble | internal/service/order.go:359-366 | so a run reaches the fallback only after an order of the activity has lost its mark or an overwrite has raised its counter |
| ProtocolBooks.LockedOutRun | internal/service/redis_stock.go:28-40 | a user marked without an order or a request past its check stays so in every run with every fault |
| ProtocolBooks.StrandedForever | internal/service/order.go:329-393 | if a fault strands the mark of a user without an order, then in every later state that user has no order for the activity and every Reserve of theirs answers duplicate |
| ProtocolRuns.TwoStoreLaw | internal/service/redis_stock.go:16-52 | while the marks of an activity part, they are settled plus in flight plus leaked, and the counter is MySQL stock plus a restore under way, less in flight, less leaked, plus the credit of overwrites |
| ProtocolRuns.RunTwoStores | internal/service/redis_stock.go:16-52 | the same for every run without evictions at the activity, in terms of the marks the run stranded and reclaimed and the shifts of its overwrites |
| ProtocolRuns.ReturningHolds | internal/service/order.go:849-865 | while a restore is between its release and its commit, the order is still live in MySQL |
| ProtocolRuns.IdleDrift | internal/service/order.go:677-743 | at rest the drift a reconcile sees is the leak, and no leak means equal stocks and equal user sets |
| ProtocolRuns.SoldOutExactly | internal/service/redis_stock.go:28-40 | Reserve answers duplicate exactly to marked users, and sold out to others exactly when settled, in-flight and leaked marks use up the issue and what overwrites added |
| ProtocolRuns.FallbackUnreachable | internal/service/order.go:353-366 | while the marks part and overwrites have added no more than has leaked, a request past its Reserve finds at least one unit in MySQL, so the sold-out fallback is unreachable |
| ProtocolRuns.CleanRunNeverFallsBack | internal/service/order.go:353-366 | from the empty shop, no run clean for an activity leads a request for it past its Reserve into the sold-out fallback |
| ProtocolRuns.DriftIsStranded | internal/service/order.go:387-393 | from the empty shop, after any run clean for an activity and at rest, its MySQL stock less its counter is the number of marks stranded and not reclaimed |
| ProtocolLimits.OverPromisesExactly | internal/service/redis_stock.go:16-52 | while the marks part, the counter exceeds MySQL stock less in-flight requests (plus a restore under way) if and only if overwrites have added more than has leaked |
| ProtocolLimits.PrewarmOverPromises | internal/service/catalog.go:90-95 | a prewarm puts the books out by the users already marked, and makes Redis promise too much if and only if there is a settled order or a request in flight |
| ProtocolLimits.RepairOverPromises | internal/service/order.go:700-740 | a repair makes the two stocks equal and the books out by requests in flight plus leaks less a restore under way; it makes Redis promise too much if and only if more requests are in flight than orders are being given back |
| ProtocolLimits.RollbackEvictsExactly | internal/service/order.go:849-865 | undoing a restore after its release keeps the split if and only if it is of another activity or the cart, or its holder has a stranded mark |
| ProtocolLimits.LostTwiceIsCommit | internal/service/order.go:387-393 | losing the reply of a create that commits evicts nothing, and if its release is never sent either, the state is the one of an ordinary commit |
| ProtocolLimits.StrayReleaseEvictsExactly | internal/service/order.go:387-393 | the release after a lost commit reply keeps the split if and only if its user has neither a settled order nor another request in flight |
| ProtocolLimits.LatePrewarmRun | internal/service/catalog.go:83-95 | a run in which a prewarm lands after a first reservation and the fallback is reached |
| ProtocolLimits.RepairRun | internal/service/order.go:677-743 | a run in which a reconcile repairs while a request is in flight and the fallback is reached |
| ProtocolLimits.LostReplyRun | internal/service/order.go:342-393 | a run in which the reply of a committed create is lost, its release takes the mark of the order, and the fallback is reached |
| ProtocolLimits.RolledBackCancelRun | internal/service/order.go:849-865 | a run in which a cancel is rolled back after its release and the fallback is reached |
| Statements.ScriptSafe | internal/service/order.go:342-386 | with COUNT, UPDATE and INSERT as separate statements of many transactions, whatever each COUNT saw: stock never below zero, stock plus committed plus pending constant, keys unique |
| Statements.OneOrderPerPair | internal/model/model.go:135-135 | two rows are one row exactly when user and activity agree |
| Statements.RefusedExactly | internal/service/order.go:840-847 | the insert is refused exactly when that user already has an order for that activity |
| Statements.SerialIsAtomic | internal/service/order.go:342-386 | run without interruption, the statements do what the atomic transaction of the protocol does |
| Statements.ViewOk | internal/service/order.go:342-386 | a database in its invariant is a valid starting point for the statements |
| CreatePaths.IdleIsCoupled | internal/service/order.go:320-398 | a balanced state at rest without leaks has equal stocks and equal user sets |
| CreatePaths.SameDecision | internal/service/order.go:259-398 | from coupled stores both create paths accept the same requests and leave the same database and stock left; the errors differ exactly for a holder of a live order at zero stock, who is told duplicate instead of sold out |
| CreatePaths.CachedStaysCoupled | internal/service/order.go:320-398 | the cached path leaves the stores coupled |
| CreatePaths.CachedIsProtocol | internal/service/order.go:320-398 | the uninterrupted cached path is four protocol steps |
| AnyCache.AnyCacheIsSafe | internal/service/order.go:36-42 | with the cache replaced by one that answers or fails in any way, every run keeps all database invariants, and every new order was committed while its activity was orderable |
| AnyCache.AnyCachePrices | internal/service/order.go:368-378 | with an arbitrary cache, too, every activity order is at its activity's price |
| ProtocolDb.RunProjects | internal/service/order.go:320-639 | the database after a protocol run is the database after the run's committed transactions |
| ProtocolDb.ProtocolKeepsDb | internal/service/order.go:320-639 | all database invariants hold in every interleaving of the protocol, with every fault |
| ProtocolDb.EmptyDbOk | internal/model/model.go:1-175 | the empty database satisfies them |
| Lifecycle.RunClimbs | internal/service/order.go:499-639 | over every run an order keeps holder, amounts and creation time, and its status only climbs |
| Lifecycle.AtMostTwoChanges | internal/service/order.go:499-639 | at most two status changes per order in any run |
| Lifecycle.ReadiedAtMostOnce | internal/service/order.go:1003-1013 | however often its task is delivered, an order becomes payable at most once |
| Lifecycle.RunReturns | internal/service/order.go:849-882 | over every run an order's stock has been returned once if it is cancelled or closed and never otherwise |
| Lifecycle.RunPayments | internal/service/order.go:745-797 | over every run an order is paid if and only if it has exactly one SUCCESS payment, and recorded payments never change |
| Lifecycle.ReplayIsNoOp | internal/service/order.go:747-761 | replaying an accepted callback, at once or after any other activity and with any contents, changes nothing and says so |
| Lifecycle.PayChangesExactly | internal/service/order.go:745-797 | a callback changes the database exactly when its transaction number is new, its order exists and, for SUCCESS, waits for payment |
| Lifecycle.FinalStaysFinal | internal/service/order.go:780-783 | no cancelled, closed or paid order ever changes status |
| Stamps.RunStamps | internal/service/order.go:565-580 | row stamps never run ahead of the clock, so a zero timeout finds every row |
| Cart.TakeItemsExact | internal/service/order.go:416-433 | the stock loop takes each product down by exactly the cart's units, never below zero, and its sum is the worth of the rows it will write |
| Cart.TakeItemsDecides | internal/service/order.go:416-433 | the stock loop goes through if and only if every item can be served after those before it, and fails with the fault of the first that cannot |
| Cart.BoughtAmounts | internal/service/order.go:435-475 | after a checkout every cart order's items sum to its original amount, and its amount is that less the discount, at least zero |
| Cart.RestoreItemsExact | internal/service/order.go:867-881 | the restore loop succeeds exactly when all products exist and puts back exactly the rows' units |
| Cart.RestoreAlwaysCommits | internal/service/order.go:849-882 | in reachable states a restore never fails for want of a row |
| Cart.RunCart | internal/service/order.go:400-482 | over every run, each product's stock plus the units in live cart orders stays what it was at creation, never negative, and all amounts fit |
| Coupons.CouponUse | internal/service/order.go:799-824 | an applied coupon was unused, the user's own, in its window and its threshold reached, only its row changes, to used, and the discount is the coupon's |
| Coupons.RunCoupons | internal/service/coupon.go:52-80 | over every run: coupon stock plus claims constant and never negative, one claim per user and coupon, a claim used if and only if exactly one order refers to it, that order's amount at or above the threshold and its time inside the window, and no claim ever stored as expired |
| Coupons.ClaimedInWindow | internal/service/coupon.go:60-65 | in every run each new claim was granted to its user while the coupon was in its window and in stock |
| RepairLoops.RowSettles | internal/service/order.go:606-639 | a row's own transaction leaves it something the loop would not act on again |
| RepairLoops.RowDoes | internal/service/order.go:574-639 | exactly what an order row's transaction leaves, whatever its fate: closed with its stock given back, stamped, payable, or untouched |
| RepairLoops.EndRow | internal/service/order.go:645-661 | a row of the last loop that lands ends a running activity and changes nothing else |
| RepairLoops.EndsEach | internal/service/order.go:641-670 | every row of the last loop does that, with others acting in between |
| RepairLoops.EndsStay | internal/service/order.go:641-670 | at the end of the loop an activity whose row landed no longer runs, and is ended if its row found it running, unless an administrator has set its status since |
| RepairLoops.LoopSettles | internal/service/order.go:540-561 | with anyone else running between rows and other rows failing, after the loop a listed order whose transaction lands is no longer one the job acts on |
| RepairLoops.LoopRequeues | internal/service/order.go:574-604 | after the requeue loop every listed order whose row went well has been published again or has left the queue |
| RepairLoops.HitsClosed | internal/service/order.go:606-639 | the orders a closing loop counts all end closed, each counted once |
| RepairLoops.HitsAtMost | internal/service/order.go:540-561 | the rows a loop acts on and its failures are at most the rows listed, and all of them if and only if every row that goes well passes its re-check |
| RepairLoops.SkippedRun | internal/service/order.go:540-561 | a reachable shop and one cancel before the row: the pass counts one expired order and expires none |
| RepairLoops.LoopStep | internal/service/order.go:606-639 | one iteration over a stale list: wait for the database, re-check, act, or fail in one of three ways |
| Recovery.OrderRecovers | internal/service/order.go:565-639 | through a pass, the worker and a second pass, every order ends paid, cancelled or closed |
| Recovery.EverythingRecovers | internal/service/order.go:565-639 | from every reachable state and with no new orders, they leave every order final and every activity with its issue less its paid orders |
| Passes.ZeroTimeoutQueued | internal/service/order.go:566-580 | with zero timeouts the first query lists every queued order |
| Passes.ZeroTimeoutUnpaid | internal/service/order.go:606-610 | and the second every unpaid one, unless new orders came in |
| Passes.TwoPassesRecover | internal/service/order.go:565-672 | two passes as the code runs them, with the worker in between, recover |
| Clients.OthersKeep | internal/service/order.go:320-398 | steps of other clients leave a request in flight as it is |
| Clients.CreateDecides | internal/service/order.go:320-398 | the answer of a cached create, from the row at its check, the counter and marks at its Reserve and the rows at its commit, with every error under its own condition |
| Clients.HeldFreezes | internal/service/order.go:849-865 | on the single-connection database, while a restoring transaction is open nobody else changes it |
| OrderService.RestoreStockIn | internal/service/order.go:849-882 | the restore loop on the transaction's copy puts back what the restore transaction says, or fails as it does |
| OrderService.TakeItemsIn | internal/service/order.go:416-433 | the stock loop goes through exactly when every item can be served, and then leaves the shelves without the cart and the cart's cost; else the first fault |
| OrderService.ItemRowsIn | internal/service/order.go:461-473 | the item loop writes one row per cart item |
| OrderService.ApplyCouponIn | internal/service/order.go:799-824 | accepted exactly when the claim fits the user, the time and the amount; the expired branch's save is never visible outside |
| OrderService.OrderService.CreateOrderWithDB | internal/service/order.go:259-318 | without a cache: sold under exactly the stated conditions, at the activity's product and price, each error under its own; the order published exactly when it commits |
| OrderService.OrderService.InsertReserved | internal/service/order.go:342-386 | the transaction after a reserve, statement by statement: its exact conditions and errors, and the order at the price of the row handed in |
| OrderService.OrderService.CreateOrderWithRedis | internal/service/order.go:320-398 | with others acting between its calls and any call failing: the answer and the steps it runs are exactly those of its outcome; a success sells one unit of what the commit found, at the product and price of the row the request read; no request left behind, published exactly on success, and the stock reported is the counter right after its own Reserve |
| OrderService.OrderService.CancelOrder | internal/service/order.go:499-527 | in a sound database accepted if and only if the order is the user's own and open, each error under its own condition; then rolled back before a release takes effect, or release, then others, then commit or rollback; the answer, the rows and the steps tell which |
| OrderService.OrderService.ExpireOrders | internal/service/order.go:529-563 | the listed orders are those due, each once; every one whose transaction lands is open no longer, though others fail; the count is the rows reported well, at least those closed, and exactly those if and only if no re-check skipped a row |
| OrderService.OrderService.Compensate | internal/service/order.go:565-672 | three loops over three scans with others in between and rows failing in any way; what each scan read, each row once, the tasks published, the three counters and the failed count are exact; each activity row that lands ends a running activity, and it stays ended unless somebody sets its status |
| OrderService.OrderService.DrainTasks | internal/service/order.go:980-1020 | the worker handles tasks in order, each with any outcome, until its context is done; a task that fails is gone like one that succeeds, and the rest stay |
| OrderService.OrderService.Recover | internal/service/order.go:565-672 | two passes with the worker in between, each doing exactly that: unless orders were added meanwhile, everything ends final and only paid orders hold stock |
| OrderService.OrderService.PaymentCallback | internal/service/order.go:745-797 | replay, first callback and both errors under their exact conditions, and the order and status reported are those of the recorded payment after the call |
| OrderService.OrderService.CheckoutCart | internal/service/order.go:400-482 | goes through under exactly the stated conditions, with each error under its own; order, items, shelves, claim and cart are written together or not at all |
| OrderService.OrderService.Claim | internal/service/coupon.go:52-85 | granted under exactly the stated conditions, with each error under its own, all or nothing |
| OrderService.OrderService.CreateActivity | internal/service/catalog.go:59-96 | accepted under exactly the stated conditions with the stated row; then whatever others do, then its prewarm, which overwrites the counter and keeps the user set; a failing prewarm does not fail the call |
| Reconcile.FindRows | internal/service/order.go:682-689 | the query: every activity, or the one asked for, newest first |
| Reconcile.CountsAgree | internal/service/order.go:700-740 | whatever the store answered: items are missing plus mismatched, repaired is all of them under repair, and no item means every answer was the MySQL stock |
| Reconcile.ItemsAreDifferences | internal/service/order.go:700-740 | one item for each row whose counter was missing or different, in order, with what MySQL and Redis held; missing and mismatched counted apart |
| Reconcile.ReconcileStock | internal/service/order.go:677-743 | the pass on the live store with others in between and failing calls: it stops at the first row with a failing call and nowhere else, and report and store are exact in every case; a failing repair is counted but not listed, and has been written or not as its call was lost or never sent |
| Reconcile.RepairEqualizes | internal/service/order.go:714-737 | an undisturbed repair pass sets each checked counter to its MySQL stock and touches nothing else |
| Reconcile.SecondPassIsClean | internal/service/order.go:677-743 | a second pass then reports nothing and changes nothing |
| Reconcile.MatchMeansEqual | cmd/pressure/main.go:277-279 | the load generator's reading of an empty difference list means that the activity exists and its two stocks are equal |
| Reconcile.IdlePass | internal/service/order.go:724-740 | at rest after a clean run, a mismatch is seen exactly for the activities with leaked marks |
| Reconcile.IdleNoMismatch | internal/service/order.go:724-740 | with no leak the first pass counts no mismatch |
| RetryQueue.CodecRoundTrip | internal/service/rabbitmq.go:119-139 | a message, taken as the record its JSON stands for, survives encoding and decoding with a negative retry count read as zero; only an empty order number is refused |
| RetryQueue.DecodeReads | internal/service/rabbitmq.go:126-139 | a body is a record with an order number, else its text as a new task, else refused |
| RetryQueue.CopiesConserved | internal/service/order.go:920-978 | over every run with crashes, the decodable copies of a message are those there were plus its publish plus one per crash after a republish |
| RetryQueue.NeverLost | internal/service/order.go:920-978 | a published decodable message the broker keeps forever has a copy ready, with a worker, completed or dead |
| RetryQueue.SettleShrinks | internal/service/order.go:956-978 | every settled delivery makes the attempts left strictly fewer; only a publish, and a retry whose own delivery comes back, add to them, and by how much is exact |
| RetryQueue.RunSettles | internal/service/order.go:956-978 | so in every run settled deliveries are bounded by the attempts put in, those of respawned retries included |
| RetryQueue.FailsExactly | internal/service/order.go:956-978 | in every run, a message's failed attempts, the attempts its pending copies have left and those its completed or rejected copies left unused are its max + 1 plus max - retry for each of its retries whose delivery came back; so it exceeds max + 1 if and only if these repeats outnumber what is left and unused |
| RetryQueue.FailsAtMost | internal/service/order.go:956-978 | while every retry is acknowledged, a message fails over at most max + 1 times |
| RetryQueue.FailsExactlyFromStart | internal/service/order.go:956-978 | the exact law for a message published at any point of a run from an empty queue |
| RetryQueue.RespawnFailsThrice | internal/service/order.go:956-966 | with a limit of one retry, a crash between a retry's publish and its acknowledgement lets one message fail over three times |
| RetryQueue.RedeliveryIsHarmless | internal/service/order.go:994-1020 | however often copies are delivered, an order leaves the queue at most once |
| RetryQueue.RabbitWorker.PublishTask | internal/service/rabbitmq.go:58-68 | a task with an order number is appended; an empty one is refused |
| RetryQueue.RabbitWorker.HandleOrderFailure | internal/service/order.go:956-978 | retry below the limit, dead letter at it, true exactly when the publish returned no error |
| RetryQueue.RabbitWorker.HandleDelivery | internal/service/order.go:920-949 | each branch is one enabled step of the queue, and what it leaves is stated on the queue: dropped, put back, completed, retried or buried, and gone only when the acknowledgement may be sent and arrives |
| TokenBucket.ClosedForm | internal/middleware/rate_limit.go:56-73 | tokens found are the least room over all windows ending at the call, for every sequence of call times |
| TokenBucket.AdmittedExactly | internal/middleware/rate_limit.go:56-73 | a call passes if and only if every window ending with it has room for one |
| TokenBucket.WindowBound | internal/middleware/rate_limit.go:56-73 | no window lets through more than burst plus rate times length |
| TokenBucket.WindowLimit | internal/middleware/rate_limit.go:56-73 | the same bound in plain terms: burst plus seconds times rate |
| TokenBucket.PassesAfterInterval | internal/middleware/rate_limit.go:56-73 | a call at least one interval after the last refill passes |
| TokenBucket.SteadyClientPasses | internal/middleware/rate_limit.go:56-73 | a client that keeps the interval is never limited |
| TokenBucket.TokenBucketLimiter.constructor | internal/middleware/rate_limit.go:26-42 | a full bucket, with the defaults for missing settings and a burst of at least one |
| TokenBucket.TokenBucketLimiter.Allow | internal/middleware/rate_limit.go:56-73 | one call moves the bucket and answers as specified |
| TokenBucket.TokenBucketLimiter.AllowAll | internal/middleware/rate_limit.go:56-73 | a series of calls is answered as the closed form says |
| LoadGen.EveryIndexOnce | cmd/pressure/main.go:114-143 | under every interleaving each index below the next one is finished or in flight exactly once, no more than the workers are in flight, and a counted pool never passes its count |
| LoadGen.FinishedCounted | cmd/pressure/main.go:121-141 | when all workers have left a counted pool, exactly the indices 0 to count - 1 were called, once each |
| LoadGen.Progress | cmd/pressure/main.go:121-141 | every locked section makes progress, so a counted pool ends under every scheduler |
| LoadGen.RunLoad | cmd/pressure/main.go:114-143 | the pool under an arbitrary scheduler: one result per index 0 to count - 1, each the answer to its own call |
| LoadGen.BatchSlots | cmd/pressure/main.go:372-389 | every write uses an existing batch and an existing user, and no two the same pair |
| LoadGen.BatchGetsItsStock | cmd/pressure/main.go:374-389 | each batch gets exactly as many requests as its activity was created with |
| LoadGen.CreateBatches | cmd/pressure/main.go:372-381 | the batch stocks add up to the number of writes |
| LoadGen.PercentileIsNearestRank | cmd/pressure/main.go:175-180 | the percentile is in bounds and is the least sample that at least that fraction of the samples do not exceed |
| LoadGen.PercentileGrows | cmd/pressure/main.go:161-166 | percentiles grow with their fraction and stay at or below the maximum |
| LoadGen.Summarize | cmd/pressure/main.go:145-173 | counts per status and per message, error count and rate, mean, percentiles in order, the maximum and both throughputs, exactly |
| LoadGen.ErrorsAre | cmd/pressure/main.go:145-160 | system errors are the samples whose call failed or that answered 500 or more |
| LoadGen.Verify | cmd/pressure/main.go:264-288 | an unexpected status is an error; the verdict is positive exactly when accepted, persisted and distinct users agree, MySQL stock is what is left, and Redis matches; with nothing to query it is an error still |
| Metrics.BucketsGrow | internal/metrics/metrics.go:66-84 | buckets grow with their bound and never exceed the total |
| Metrics.Store.ObserveHTTPRequest | internal/metrics/metrics.go:66-84 | after any observations every table is what the observations say |
| Metrics.Store.IncBusinessEvent | internal/metrics/metrics.go:86-93 | exactly one counter goes up by one |
| Metrics.Store.RenderHistogram | internal/metrics/metrics.go:114-148 | each bucket value is the number of samples within its bound, values never decrease, `+Inf` equals the count, and the sum is the time of all samples |
| Metrics.SortedRequestKeys | internal/metrics/metrics.go:164-179 | all keys, in order of path, method and status |
| Metrics.KeysGoBy | internal/metrics/metrics.go:164-179 | keys go by path, then method, then status |
| Metrics.FirstDifference | internal/metrics/metrics.go:164-179 | texts go by the first character in which they differ, prefixes first |
| Metrics.OrderIsUnique | internal/metrics/metrics.go:164-179 | there is only one such order, so map iteration order never shows in the output |
| Metrics.EscapeIsOnePass | internal/metrics/metrics.go:203-208 | the three replacement passes equal escaping each character once |
| Metrics.LabelReadsBack | internal/metrics/metrics.go:199-208 | a scraper reads the label back whatever follows it: no raw line feed, no bare quote, and distinct labels stay distinct |

## Left out

- OrderService.OrderService.CheckoutCart: takes the order of cart rows from the stored cart and leaves out product names and order row ids.
- OrderService.OrderService.DrainTasks: the worker of the in-process channel; deliveries from RabbitMQ, with their retries and crashes, are steps of `RetryQueue`.
- Clients.HeldFreezes: holds on the single database connection; MySQL lets others change rows the transaction has not locked.
- RetryQueue.NeverLost: assumes that the broker keeps a message whose publish returned no error, because the channel is not in confirm mode.
- RetryQueue.CodecRoundTrip: takes a body as the record that decoding finds in it, not as JSON text.
- Reconcile.IdlePass: starts from states that clean runs reach at rest; after an overwrite or an eviction the general law is `ProtocolBooks.DriftLaw`.
- Metrics.Store.RenderHistogram: gives the values of the lines, not their text.
- The service class works on the script functions; that the string-keyed store computes them is proved for the store class, and the two classes are not joined into one heap.
- Gin handlers, routing, tokens, roles, trace ids, request timeouts and configuration: plumbing around libraries.
- The GORM, MySQL, Redis and AMQP clients: replaced by atomic steps on maps, sets and sequences.
- Redis key expiry arithmetic: expiry is covered for database safety by the arbitrary cache only.
- Operation logs, admin lists and counts, address and cart editing: they would only add easy members.
- Delivery through the in-process channel after a failed RabbitMQ publish: no channel worker runs then, so the task counts as lost until a compensation pass publishes it again.
- The prefetch limit and the order of redelivery: any unacknowledged copy may be handled or put back at any time.
- Any bound joining product stock and activity stock: the code keeps them as separate pools.
- Floating-point rounding, integer overflow and the text of floating-point numbers in the metrics output.
- Business event lines of the metrics output: same shape as the request counters.
- HTTP calls of the load generator: a call is any function from index to sample.
