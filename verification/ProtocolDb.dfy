/**
  The database side of a protocol run is a run of database transactions, so
  every database invariant holds in every interleaving; and it still holds when
  the stock cache is replaced by one that answers or fails in any way.
 */
module ProtocolDb {
  import opened Keys
  import opened Model
  import opened Ledger
  import opened RedisStock
  import opened ActivityStock
  import opened Lifecycle
  import opened Protocol
  import C = Cart
  import P = Coupons
  import S = Stamps

  function RestoreStep(who: By, no: OrderNo): DbStep {
    match who
    case ByUser(user) => CancelOrder(user, no)
    case ByExpiry => ExpireOrder(no)
    case ByCompensation => CloseUnpaidOrder(no)
  }

  /** The database transactions a protocol step commits. */
  function DbStepsOf(w: World, st: Step): seq<DbStep> {
    match st
    case Plain(ds) => if IsPlain(ds) && w.held == None then [ds] else []
    case NewActivity(a, p, price, stock, seconds) =>
      if w.held == None then [AddActivity(a, p, price, stock, seconds)] else []
    case CommitOrder(r, no) => CreateStepOf(w, r, no)
    case CommitReplyLost(r, no) => CreateStepOf(w, r, no)
    case RestoreCommit => if w.held.Some? then [RestoreStep(w.held.value.who, w.held.value.no)] else []
    case _ => []
  }

  function CreateStepOf(w: World, r: nat, no: OrderNo): seq<DbStep> {
    if InPhase(w, r, Marked) && w.held == None then
      [OrderReserved(w.requests[r].user, w.requests[r].activityId, w.requests[r].snapshot, no)]
    else []
  }

  function DbTrace(w: World, steps: seq<Step>): seq<DbStep>
    decreases |steps|
  {
    if steps == [] then [] else DbStepsOf(w, steps[0]) + DbTrace(Next(w, steps[0]), steps[1..])
  }

  lemma {:induction false} DbRunAppend(db: Db, a: seq<DbStep>, b: seq<DbStep>)
    ensures DbRun(db, a + b) == DbRun(DbRun(db, a), b)
    decreases |a|
  {
    hide DbNext;
    if a == [] {
      assert a + b == b;
    } else {
      assert (a + b)[1..] == a[1..] + b;
      DbRunAppend(DbNext(db, a[0]), a[1..], b);
    }
  }

  lemma DbRunOne(db: Db, st: DbStep)
    ensures DbRun(db, [st]) == DbNext(db, st)
  {
    hide DbNext;
    assert DbRun(DbNext(db, st), [st][1..]) == DbNext(db, st);
  }

  lemma StepProjects(w: World, st: Step)
    ensures Next(w, st).db == DbRun(w.db, DbStepsOf(w, st))
  {
    hide CreateReserved, CreateActivity, Cancel, Expire, CloseUnpaid, ReserveScript, ReleaseScript;
    if DbStepsOf(w, st) != [] {
      DbRunOne(w.db, DbStepsOf(w, st)[0]);
    }
  }

  /** The database after a protocol run is the database after the run's transactions. */
  lemma {:induction false} RunProjects(w: World, steps: seq<Step>)
    ensures Exec(w, steps).db == DbRun(w.db, DbTrace(w, steps))
    decreases |steps|
  {
    hide Next, DbStepsOf;
    if steps == [] {
    } else {
      StepProjects(w, steps[0]);
      RunProjects(Next(w, steps[0]), steps[1..]);
      DbRunAppend(w.db, DbStepsOf(w, steps[0]), DbTrace(Next(w, steps[0]), steps[1..]));
    }
  }

  // ---------- all database invariants together ----------

  ghost predicate DbOk(db: Db) {
    StockOk(db) && ReturnsOk(db) && PaymentsOk(db) && C.CartOk(db) && P.CouponsOk(db) && S.StampsOk(db)
  }

  /** What any later database owes an earlier one. */
  ghost predicate DbLater(db: Db, db': Db) {
    && DbOk(db') && Conserves(db, db') && Climbs(db.orders, db'.orders) && KeepsPayments(db, db')
    && C.CartKept(db, db') && P.CouponsKept(db, db')
  }

  lemma EmptyDbOk(now: int)
    ensures DbOk(EmptyDb(now))
  {
  }

  lemma DbRunOk(db: Db, steps: seq<DbStep>)
    requires DbOk(db)
    ensures DbLater(db, DbRun(db, steps))
  {
    hide DbRun, S.StampsOk, StockOk, Conserves, ReturnsOk, PaymentsOk, C.CartOk, P.CouponsOk, Climbs, KeepsPayments,
      C.CartKept, P.CouponsKept;
    RunConserves(db, steps);
    RunReturns(db, steps);
    RunPayments(db, steps);
    RunClimbs(db, steps);
    C.RunCart(db, steps);
    P.RunCoupons(db, steps);
    S.RunStamps(db, steps);
    KeptMeansOk(db, DbRun(db, steps));
  }

  lemma KeptMeansOk(db: Db, db': Db)
    ensures Conserves(db, db') ==> StockOk(db')
    ensures C.CartKept(db, db') ==> C.CartOk(db')
    ensures P.CouponsKept(db, db') ==> P.CouponsOk(db')
  {
    hide StockOk, C.CartOk, P.CouponsOk;
  }

  /** Every database property, in every interleaving of the protocol, with every fault. */
  lemma ProtocolKeepsDb(w: World, steps: seq<Step>)
    requires DbOk(w.db)
    ensures DbLater(w.db, Exec(w, steps).db)
  {
    hide DbOk, DbLater, Exec, DbTrace, DbRun;
    RunProjects(w, steps);
    DbRunOk(w.db, DbTrace(w, steps));
  }
}
