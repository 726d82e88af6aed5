/**
  The flash-sale protocol: many create requests, restores, prewarms, repairs and
  other transactions interleave over MySQL and Redis. Each Lua script, each
  committed transaction and each fault is one step; a transaction that restores
  stock is two steps, because Redis is released before the commit.
 */
module Protocol {
  import opened Keys
  import opened Model
  import opened Ledger
  import opened RedisStock
  import opened ActivityStock

  /**
    Where a create request stands: activity read, Redis mark taken, transaction
    failed with the release still to come, or gone astray: its order is
    committed, it believes it failed, and the release is still to come.
   */
  datatype Phase = Loaded | Marked | Refused | Astray

  /** The request has a mark of its own. */
  predicate Carries(p: Phase) {
    p == Marked || p == Refused
  }

  datatype Request = Request(user: UserId, activityId: nat, snapshot: Activity, phase: Phase)

  datatype By = ByUser(user: UserId) | ByExpiry | ByCompensation

  /** The restoring transaction that has released Redis and not yet ended; it keeps the database to itself. */
  datatype Held = Held(who: By, no: OrderNo)

  datatype World = World(
    db: Db, redis: Redis, requests: map<nat, Request>, held: Option<Held>, prewarms: map<nat, int>)

  datatype Step =
    | Plain(st: DbStep)
    | NewActivity(a: nat, p: nat, price: int, stock: int, seconds: int)
    | Prewarm(a: nat)
    | PrewarmFails(a: nat)
    | Repair(a: nat, value: nat)
    | Begin(r: nat, user: UserId, a: nat)
    | Reserve(r: nat)
    | ReserveFails(r: nat)
    | ReserveReplyLost(r: nat)
    | CommitOrder(r: nat, no: OrderNo)
    | CommitReplyLost(r: nat, no: OrderNo)
    | TxFails(r: nat)
    | Release(r: nat)
    | Abandon(r: nat)
    | RestoreBegin(who: By, no: OrderNo)
    | RestoreCommit
    | RestoreRollback

  // ---------- steps ----------

  /** Transactions that never touch the stock cache. */
  predicate IsPlain(st: DbStep) {
    !st.OrderDirect? && !st.OrderReserved? && !st.AddActivity?
    && !st.CancelOrder? && !st.ExpireOrder? && !st.CloseUnpaidOrder?
  }

  function RestoreTx(db: Db, who: By, no: OrderNo): Tx<bool> {
    match who
    case ByUser(user) => Cancel(db, user, no)
    case ByExpiry => Expire(db, no)
    case ByCompensation => CloseUnpaid(db, no)
  }

  predicate Restores(db: Db, who: By, no: OrderNo) {
    var tx := RestoreTx(db, who, no);
    tx.Commit? && tx.value
  }

  predicate InPhase(w: World, r: nat, p: Phase) {
    r in w.requests && w.requests[r].phase == p
  }

  /** The request goes on to release. */
  predicate Releasing(w: World, r: nat) {
    InPhase(w, r, Refused) || InPhase(w, r, Astray)
  }

  function ReserveOf(w: World, r: nat): (Redis, Reply)
    requires r in w.requests
  {
    var q := w.requests[r];
    ReserveScript(w.redis, q.activityId, q.snapshot.stock, q.user)
  }

  function CreateOf(w: World, r: nat, no: OrderNo): Tx<Order>
    requires r in w.requests
  {
    var q := w.requests[r];
    CreateReserved(w.db, q.user, q.activityId, q.snapshot, no)
  }

  function Without(w: World, r: nat): World {
    w.(requests := w.requests - {r})
  }

  function MovedTo(w: World, r: nat, p: Phase): World
    requires r in w.requests
  {
    w.(requests := w.requests[r := w.requests[r].(phase := p)])
  }

  /** A step that is not enabled leaves the world as it is. */
  function Next(w: World, st: Step): World {
    match st
    case Plain(ds) =>
      if IsPlain(ds) && w.held == None then w.(db := DbNext(w.db, ds)) else w
    case NewActivity(a, p, price, stock, seconds) =>
      var tx := CreateActivity(w.db, a, p, price, stock, seconds);
      if w.held == None && tx.Commit? then w.(db := tx.db, prewarms := w.prewarms[a := stock]) else w
    case Prewarm(a) =>
      if a in w.prewarms then
        w.(redis := Overwritten(w.redis, a, w.prewarms[a]), prewarms := w.prewarms - {a})
      else w
    case PrewarmFails(a) => w.(prewarms := w.prewarms - {a})
    case Repair(a, value) =>
      if a in w.db.activities then w.(redis := Overwritten(w.redis, a, value)) else w
    case Begin(r, user, a) =>
      if r !in w.requests && a in w.db.activities && Orderable(w.db.activities[a], w.db.now) then
        w.(requests := w.requests[r := Request(user, a, w.db.activities[a], Loaded)])
      else w
    case Reserve(r) =>
      if InPhase(w, r, Loaded) then
        var (redis, reply) := ReserveOf(w, r);
        if reply.code == TAKEN then MovedTo(w, r, Marked).(redis := redis) else Without(w, r).(redis := redis)
      else w
    case ReserveFails(r) => if InPhase(w, r, Loaded) then Without(w, r) else w
    case ReserveReplyLost(r) =>
      if InPhase(w, r, Loaded) then Without(w, r).(redis := ReserveOf(w, r).0) else w
    case CommitOrder(r, no) =>
      if InPhase(w, r, Marked) && w.held == None then
        match CreateOf(w, r, no)
        case Commit(db, _) => Without(w, r).(db := db)
        case Rollback(_) => MovedTo(w, r, Refused)
      else w
    case CommitReplyLost(r, no) =>
      if InPhase(w, r, Marked) && w.held == None then
        match CreateOf(w, r, no)
        case Commit(db, _) => MovedTo(w, r, Astray).(db := db)
        case Rollback(_) => MovedTo(w, r, Refused)
      else w
    case TxFails(r) => if InPhase(w, r, Marked) then MovedTo(w, r, Refused) else w
    case Release(r) =>
      if Releasing(w, r) then
        var q := w.requests[r];
        Without(w, r).(redis := ReleaseScript(w.redis, q.activityId, q.user))
      else w
    case Abandon(r) => Without(w, r)
    case RestoreBegin(who, no) =>
      if w.held == None && Restores(w.db, who, no) && no in w.db.orders then
        var o := w.db.orders[no];
        var redis := if o.activityId > 0 then ReleaseScript(w.redis, o.activityId, o.user) else w.redis;
        w.(redis := redis, held := Some(Held(who, no)))
      else w
    case RestoreCommit =>
      if w.held.Some? then
        w.(db := After(w.db, RestoreTx(w.db, w.held.value.who, w.held.value.no)), held := None)
      else w
    case RestoreRollback => w.(held := None)
  }

  function Exec(w: World, steps: seq<Step>): World
    decreases |steps|
  {
    if steps == [] then w else Exec(Next(w, steps[0]), steps[1..])
  }

  // ---------- who holds what ----------

  ghost function HoldersIn(orders: map<OrderNo, Order>, nos: set<OrderNo>): set<UserId>
    requires nos <= orders.Keys
  {
    set no | no in nos :: orders[no].user
  }

  /** Users with a live order for the activity. */
  ghost function Holders(orders: map<OrderNo, Order>, a: nat): set<UserId> {
    HoldersIn(orders, Live(orders, a))
  }

  /** The user whose order is being given back: released in Redis, still live in MySQL. */
  ghost function Returning(w: World, a: nat): set<UserId> {
    if w.held.Some? && w.held.value.no in w.db.orders && w.db.orders[w.held.value.no].activityId == a
    then {w.db.orders[w.held.value.no].user} else {}
  }

  ghost function InFlightOf(requests: map<nat, Request>, a: nat): set<UserId> {
    set r | r in requests && requests[r].activityId == a && Carries(requests[r].phase) :: requests[r].user
  }

  ghost function InFlight(w: World, a: nat): set<UserId> {
    InFlightOf(w.requests, a)
  }

  ghost function Settled(w: World, a: nat): set<UserId> {
    Holders(w.db.orders, a) - Returning(w, a)
  }

  /** Redis marks with neither a settled order nor a request behind them. */
  ghost function Leaked(w: World, a: nat): set<UserId> {
    Buyers(w.redis, a) - Settled(w, a) - InFlight(w, a)
  }

  /** How far Redis counts more than was issued: stock plus marks against MySQL stock plus live orders. */
  ghost function Credit(w: World, a: nat): int {
    if a in w.db.activities && a in w.redis.stock then Sum(w.redis, a) - Total(w.db, a) else 0
  }

  // ---------- invariants ----------

  ghost predicate Untouched(orders: map<OrderNo, Order>, a: nat) {
    forall no :: no in orders ==> orders[no].activityId != a
  }

  /** Nothing has happened to an activity whose counter does not exist yet. */
  ghost predicate Fresh(w: World, a: nat) {
    && a in w.db.activities
    && Buyers(w.redis, a) == {}
    && Untouched(w.db.orders, a)
    && (forall r :: r in w.requests && w.requests[r].activityId == a ==>
          w.requests[r].phase == Loaded && w.requests[r].snapshot.stock == w.db.activities[a].stock)
  }

  ghost predicate CounterOk(w: World, a: nat) {
    if a in w.redis.stock then a in w.db.activities && w.redis.stock[a] >= 0
    else if a in w.db.activities then Fresh(w, a)
    else Buyers(w.redis, a) == {}
  }

  ghost predicate Sound(w: World) {
    && StockOk(w.db)
    && (forall a :: CounterOk(w, a))
    && (forall r :: r in w.requests ==> w.requests[r].activityId in w.db.activities)
    && (forall a :: a in w.prewarms ==> a in w.db.activities && w.prewarms[a] == Total(w.db, a))
    && (w.held.Some? ==> w.held.value.no in w.db.orders && Restores(w.db, w.held.value.who, w.held.value.no))
  }

  predicate SameMark(p: Request, q: Request) {
    Carries(p.phase) && Carries(q.phase) && p.activityId == q.activityId && p.user == q.user
  }

  ghost predicate OneMark(requests: map<nat, Request>, a: nat) {
    forall r, s ::
      r in requests && s in requests && requests[r].activityId == a && SameMark(requests[r], requests[s]) ==> r == s
  }

  ghost predicate Parted(w: World, a: nat) {
    && Settled(w, a) <= Buyers(w.redis, a)
    && InFlight(w, a) <= Buyers(w.redis, a)
    && Settled(w, a) !! InFlight(w, a)
  }

  /** The marks of one activity split into settled orders, in-flight requests and leaks, with one request per mark. */
  ghost predicate Whole(w: World, a: nat) {
    OneMark(w.requests, a) && (a in w.db.activities ==> Parted(w, a))
  }
}
