/**
  What every step of the protocol keeps, faults included: soundness, every
  activity's issue, and the books of every counter that is not overwritten.
 */
module ProtocolSafety {
  import opened Keys
  import opened Model
  import opened Ledger
  import opened Events
  import opened RedisStock
  import opened ActivityStock
  import opened Protocol

  // ---------- holders ----------

  lemma {:induction false} CountHolders(orders: map<OrderNo, Order>, nos: set<OrderNo>, a: nat)
    requires a > 0 && OnePerPair(orders) && nos <= Live(orders, a)
    ensures |HoldersIn(orders, nos)| == |nos|
    decreases |nos|
  {
    if nos == {} {
      assert HoldersIn(orders, nos) == {};
    } else {
      var no :| no in nos;
      var rest := nos - {no};
      CountHolders(orders, rest, a);
      assert HoldersIn(orders, nos) == HoldersIn(orders, rest) + {orders[no].user};
      forall m | m in rest ensures orders[m].user != orders[no].user {
        assert !SamePair(orders[m], orders[no]);
      }
    }
  }

  /** Counting live orders is counting the users who hold them. */
  lemma HoldersCount(orders: map<OrderNo, Order>, a: nat)
    requires a > 0 && OnePerPair(orders)
    ensures |Holders(orders, a)| == |Live(orders, a)|
  {
    CountHolders(orders, Live(orders, a), a);
  }

  ghost function HolderAt(orders: map<OrderNo, Order>, no: OrderNo, a: nat): set<UserId> {
    if LiveRow(orders, no, a) then {orders[no].user} else {}
  }

  lemma HoldersAfterWrite(orders: map<OrderNo, Order>, no: OrderNo, o: Order, a: nat)
    requires a > 0 && OnePerPair(orders)
    ensures HolderAt(orders, no, a) <= Holders(orders, a)
    ensures Holders(orders[no := o], a)
      == Holders(orders, a) - HolderAt(orders, no, a) + HolderAt(orders[no := o], no, a)
  {
    var orders' := orders[no := o];
    var was, now := Live(orders, a), Live(orders', a);
    assert now - {no} == was - {no};
    assert LiveRow(orders, no, a) ==> no in was;
    forall m | m in was && m != no ensures orders[m].user !in HolderAt(orders, no, a) {
      if LiveRow(orders, no, a) { assert !SamePair(orders[m], orders[no]); }
    }
    forall u
      ensures u in Holders(orders', a) <==> u in Holders(orders, a) - HolderAt(orders, no, a) + HolderAt(orders', no, a)
    {
      if u in Holders(orders', a) {
        var m :| m in now && orders'[m].user == u;
        assert m == no || m in was;
      }
      if u in Holders(orders, a) - HolderAt(orders, no, a) {
        var m :| m in was && orders[m].user == u;
        assert m in now && orders'[m].user == u;
      }
      if u in HolderAt(orders', no, a) {
        assert no in now;
      }
    }
  }

  // ---------- what a step keeps ----------

  ghost function WithRequest(requests: map<nat, Request>, r: nat, q: Option<Request>): map<nat, Request> {
    match q
    case None => requests - {r}
    case Some(request) => requests[r := request]
  }

  predicate Overwrites(w: World, st: Step, a: nat) {
    (st.Prewarm? && st.a == a && a in w.prewarms) || (st.Repair? && st.a == a)
  }

  ghost predicate KeepsAt(w: World, w': World, st: Step, a: nat) {
    && CounterOk(w', a)
    && (a in w.db.activities ==> a in w'.db.activities && Total(w'.db, a) == Total(w.db, a))
    && (!Overwrites(w, st, a) ==> Credit(w', a) == Credit(w, a))
  }

  /** What a step from `w` to `w'` owes. */
  ghost predicate Keeps(w: World, w': World, st: Step) {
    && Sound(w')
    && (forall a :: KeepsAt(w, w', st, a))
  }

  // ---------- transactions beside the protocol ----------

  /** The database looks the same to the protocol as far as one activity goes. */
  ghost predicate SameFor(db: Db, db': Db, a: nat) {
    && a in db.activities && a in db'.activities
    && db'.activities[a].stock == db.activities[a].stock
    && Holders(db'.orders, a) == Holders(db.orders, a)
    && (Untouched(db.orders, a) ==> Untouched(db'.orders, a))
  }

  lemma PlainKeeps(db: Db, st: DbStep, a: nat)
    requires StockOk(db) && IsPlain(st)
    requires a in db.activities
    ensures SameFor(db, DbNext(db, st), a)
  {
    hide DbNext, Holders, Holds, Apply, Written, Live;
    var ev := StepEvent(db, st);
    OneOrderRow(db, ev);
    StockAside(db, ev);
    match Written(db, ev)
    case None =>
    case Some((no, o)) => HoldersAfterWrite(db.orders, no, o, a);
  }

  lemma PlainKeys(db: Db, st: DbStep)
    requires IsPlain(st)
    ensures DbNext(db, st).activities.Keys == db.activities.Keys
  {
    hide DbNext, HasClaim, CheckoutFits;
    var ev := StepEvent(db, st);
    StockAside(db, ev);
  }

  // ---------- one lemma per kind of step ----------

  /** Nothing the protocol looks at for activity `a` has changed. */
  ghost predicate SameAt(w: World, w': World, a: nat) {
    && Buyers(w'.redis, a) == Buyers(w.redis, a)
    && (a in w'.redis.stock <==> a in w.redis.stock)
    && (a in w.redis.stock ==> w'.redis.stock[a] == w.redis.stock[a])
    && (a in w'.db.activities <==> a in w.db.activities)
    && (a in w.db.activities ==> Total(w'.db, a) == Total(w.db, a))
  }

  lemma SameAtKeeps(w: World, w': World, st: Step, a: nat)
    requires SameAt(w, w', a) && CounterOk(w', a)
    ensures KeepsAt(w, w', st, a)
  {
    hide Buyers, Total, CounterOk;
  }

  lemma PlainStep(w: World, st: Step)
    requires Sound(w) && st.Plain? && IsPlain(st.st) && w.held == None
    ensures Keeps(w, w.(db := DbNext(w.db, st.st)), st)
  {
    hide DbNext, Holders, Total, StockOk, InFlightOf;
    var w' := w.(db := DbNext(w.db, st.st));
    StepConserves(w.db, st.st);
    PlainKeys(w.db, st.st);
    forall a ensures CounterOk(w', a) && KeepsAt(w, w', st, a) {
      assert CounterOk(w, a);
      if a in w.db.activities {
        PlainKeeps(w.db, st.st, a);
        SameAtKeeps(w, w', st, a);
      }
    }
  }

  lemma NewActivityStep(w: World, st: Step)
    requires Sound(w) && st.NewActivity?
    requires w.held == None && CreateActivity(w.db, st.a, st.p, st.price, st.stock, st.seconds).Commit?
    ensures var tx := CreateActivity(w.db, st.a, st.p, st.price, st.stock, st.seconds);
            Keeps(w, w.(db := tx.db, prewarms := w.prewarms[st.a := st.stock]), st)
  {
    hide Holders, InFlightOf, CreateActivity, StockOk, Total, KeepsAt, CounterOk;
    var tx := CreateActivity(w.db, st.a, st.p, st.price, st.stock, st.seconds);
    var w' := w.(db := tx.db, prewarms := w.prewarms[st.a := st.stock]);
    NewActivityFacts(w, st);
    forall a ensures CounterOk(w', a) && KeepsAt(w, w', st, a) {
      NewActivityAt(w, w', st, a);
    }
  }

  lemma NewActivityFacts(w: World, st: Step)
    requires Sound(w) && st.NewActivity? && CreateActivity(w.db, st.a, st.p, st.price, st.stock, st.seconds).Commit?
    ensures var db := CreateActivity(w.db, st.a, st.p, st.price, st.stock, st.seconds).db;
            && StockOk(db)
            && st.a > 0 && st.a !in w.db.activities && st.stock > 0
            && db.orders == w.db.orders
            && db.activities.Keys == w.db.activities.Keys + {st.a} && db.activities[st.a].stock == st.stock
            && Total(db, st.a) == st.stock
            && (forall a :: a in w.db.activities ==>
                 db.activities[a] == w.db.activities[a] && Total(db, a) == Total(w.db, a))
  {
    hide Live;
    StepConserves(w.db, AddActivity(st.a, st.p, st.price, st.stock, st.seconds));
    assert Live(w.db.orders, st.a) == {} by { NoOneThere(w, st.a); }
  }

  lemma NewActivityAt(w: World, w': World, st: Step, a: nat)
    requires Sound(w) && st.NewActivity? && w.held == None
    requires CreateActivity(w.db, st.a, st.p, st.price, st.stock, st.seconds).Commit?
    requires w' == w.(db := CreateActivity(w.db, st.a, st.p, st.price, st.stock, st.seconds).db,
                      prewarms := w.prewarms[st.a := st.stock])
    ensures CounterOk(w', a) && KeepsAt(w, w', st, a)
  {
    hide Holders, InFlightOf, CreateActivity, StockOk, Total, Live;
    NewActivityFacts(w, st);
    NoOneThere(w, st.a);
    assert CounterOk(w, a);
    assert CounterOk(w', a);
    hide CounterOk;
    if a in w.db.activities { SameAtKeeps(w, w', st, a); }
  }

  lemma NoOneThere(w: World, a: nat)
    requires Sound(w) && a > 0 && a !in w.db.activities
    ensures Live(w.db.orders, a) == {} && Holders(w.db.orders, a) == {} && InFlight(w, a) == {}
      && Untouched(w.db.orders, a)
  {
    assert Live(w.db.orders, a) == {};
    assert Holders(w.db.orders, a) == {};
  }

  lemma CounterStep(w: World, st: Step, a: nat, value: int)
    requires Sound(w) && a in w.db.activities && Overwrites(w, st, a) && value >= 0
    ensures Keeps(w, w.(redis := Overwritten(w.redis, a, value)), st)
    ensures Keeps(w, w.(redis := Overwritten(w.redis, a, value), prewarms := w.prewarms - {a}), st)
  {
    hide StockOk, Total, KeepsAt, CounterOk;
    var w1 := w.(redis := Overwritten(w.redis, a, value));
    var w2 := w1.(prewarms := w.prewarms - {a});
    forall b
      ensures CounterOk(w1, b) && CounterOk(w2, b)
      ensures KeepsAt(w, w1, st, b) && KeepsAt(w, w2, st, b)
    {
      CounterAt(w, w1, st, a, value, b);
      CounterAt(w, w2, st, a, value, b);
    }
  }

  lemma CounterAt(w: World, w': World, st: Step, a: nat, value: int, b: nat)
    requires Sound(w) && a in w.db.activities && Overwrites(w, st, a) && value >= 0
    requires w' == w.(redis := Overwritten(w.redis, a, value), prewarms := w'.prewarms)
    ensures CounterOk(w', b) && KeepsAt(w, w', st, b)
  {
    hide Holders, InFlightOf, Live, StockOk, Total;
    assert CounterOk(w, b);
    if b != a {
      SameAtKeeps(w, w', st, b);
    }
  }

  /** A new request is loaded; an old one moves on, keeping its mark, or ends. */
  predicate RequestMove(w: World, r: nat, q: Option<Request>) {
    match q
    case None => true
    case Some(x) =>
      && x.activityId in w.db.activities
      && if x.phase == Loaded then r !in w.requests && x.snapshot.stock == w.db.activities[x.activityId].stock
         else r in w.requests && SameMark(w.requests[r], x)
  }

  /** The request table changes and nothing else does. */
  lemma RequestStep(w: World, st: Step, r: nat, q: Option<Request>)
    requires Sound(w) && RequestMove(w, r, q)
    requires st.Begin? || st.ReserveFails? || st.TxFails? || st.Abandon? || st.CommitOrder? || st.CommitReplyLost?
    ensures Keeps(w, w.(requests := WithRequest(w.requests, r, q)), st)
  {
    hide Holders, InFlightOf, Live, StockOk, Total;
    var w' := w.(requests := WithRequest(w.requests, r, q));
    forall a ensures CounterOk(w', a) && KeepsAt(w, w', st, a) {
      assert CounterOk(w, a);
    }
  }

  // ---------- the two scripts ----------

  lemma ReserveBuyers(w: World, r: nat, a: nat)
    requires r in w.requests
    ensures var (redis, reply) := ReserveOf(w, r);
            var q := w.requests[r];
            Buyers(redis, a) == Buyers(w.redis, a) + if reply.code == TAKEN && q.activityId == a then {q.user} else {}
    ensures var (_, reply) := ReserveOf(w, r);
            reply.code == TAKEN ==> w.requests[r].user !in Buyers(w.redis, w.requests[r].activityId)
  {
  }

  lemma ReserveKeepsBooks(w: World, r: nat, a: nat)
    requires Sound(w) && InPhase(w, r, Loaded)
    ensures var w' := w.(redis := ReserveOf(w, r).0, requests := w.requests - {r});
            CounterOk(w', a) && Credit(w', a) == Credit(w, a)
    ensures ReserveOf(w, r).1.code == TAKEN ==> w.requests[r].activityId in ReserveOf(w, r).0.stock
  {
    assert CounterOk(w, a) && CounterOk(w, w.requests[r].activityId);
    var q := w.requests[r];
    if a == q.activityId && a !in w.redis.stock {
      assert Live(w.db.orders, a) == {};
      ScriptsKeepSum(Initialised(w.redis, a, q.snapshot.stock), a, q.snapshot.stock, q.user, a);
    } else {
      ScriptsKeepSum(w.redis, q.activityId, q.snapshot.stock, q.user, a);
    }
  }

  /** Reserve with its reply delivered (`q` is then the marked request) or lost. */
  lemma ReserveStep(w: World, st: Step, r: nat, q: Option<Request>)
    requires Sound(w) && InPhase(w, r, Loaded)
    requires (st.Reserve? || st.ReserveReplyLost?) && st.r == r
    requires q == if st.Reserve? && ReserveOf(w, r).1.code == TAKEN then Some(w.requests[r].(phase := Marked)) else None
    ensures Keeps(w, w.(redis := ReserveOf(w, r).0, requests := WithRequest(w.requests, r, q)), st)
  {
    hide Holders, InFlightOf, Live, StockOk, Total, ReserveOf, Buyers;
    var w' := w.(redis := ReserveOf(w, r).0, requests := WithRequest(w.requests, r, q));
    forall a ensures CounterOk(w', a) && KeepsAt(w, w', st, a) {
      ReserveKeepsBooks(w, r, a);
      var w1 := w.(redis := ReserveOf(w, r).0, requests := w.requests - {r});
      assert CounterOk(w1, a);
      assert Credit(w', a) == Credit(w1, a);
      if a !in w1.redis.stock && a in w.db.activities {
        assert Fresh(w1, a);
        forall s | s in w'.requests && w'.requests[s].activityId == a
          ensures w'.requests[s].phase == Loaded && w'.requests[s].snapshot.stock == w.db.activities[a].stock
        {
          assert s != r ==> s in w1.requests && w1.requests[s] == w'.requests[s];
        }
      }
      assert CounterOk(w', a);
    }
  }

  lemma ReleaseBuyers(w: World, b: nat, user: UserId, a: nat)
    requires Sound(w)
    ensures var redis := ReleaseScript(w.redis, b, user);
            && Buyers(redis, a) == Buyers(w.redis, a) - (if a == b then {user} else {})
            && CounterOk(w.(redis := redis), a)
            && Credit(w.(redis := redis), a) == Credit(w, a)
  {
    hide Live, StockOk, Total;
    assert CounterOk(w, b) && CounterOk(w, a);
    ScriptsKeepSum(w.redis, b, 0, user, a);
  }

  lemma ReleaseStep(w: World, st: Step, r: nat)
    requires Sound(w) && st.Release? && Releasing(w, r)
    ensures var q := w.requests[r];
            Keeps(w, Without(w, r).(redis := ReleaseScript(w.redis, q.activityId, q.user)), st)
  {
    hide Holders, InFlightOf, Live, StockOk, Total, Buyers, ReleaseScript;
    var q := w.requests[r];
    var w' := Without(w, r).(redis := ReleaseScript(w.redis, q.activityId, q.user));
    forall a ensures CounterOk(w', a) && KeepsAt(w, w', st, a) {
      assert CounterOk(w, a);
      ReleaseBuyers(w, q.activityId, q.user, a);
    }
  }

  // ---------- the transactions of the protocol ----------

  lemma CreateConserves(w: World, r: nat, no: OrderNo)
    requires Sound(w) && InPhase(w, r, Marked) && CreateOf(w, r, no).Commit?
    ensures var db := CreateOf(w, r, no).db;
            StockOk(db) && forall a :: a in w.db.activities ==> a in db.activities && Total(db, a) == Total(w.db, a)
    ensures OnePerPair(w.db.orders)
  {
    hide Total, CreateReserved, OnePerPair, KeysMatch, OrdersRefer;
    var q := w.requests[r];
    StepConserves(w.db, OrderReserved(q.user, q.activityId, q.snapshot, no));
  }

  /** A committed create: one more holder, one unit less, and nothing else the protocol sees. */
  lemma CreateFacts(w: World, r: nat, no: OrderNo, a: nat)
    requires Sound(w) && InPhase(w, r, Marked) && CreateOf(w, r, no).Commit?
    ensures var db := CreateOf(w, r, no).db;
            var q := w.requests[r];
            && StockOk(db)
            && (a in w.db.activities ==> a in db.activities && Total(db, a) == Total(w.db, a))
            && db.activities.Keys == w.db.activities.Keys
            && (a in db.activities && a != q.activityId ==> db.activities[a].stock == w.db.activities[a].stock)
            && (a > 0 ==> Holders(db.orders, a) == Holders(w.db.orders, a) + if a == q.activityId then {q.user} else {})
            && (a != q.activityId && Untouched(w.db.orders, a) ==> Untouched(db.orders, a))
  {
    hide Holders, Live, HasOrder, CounterOk, StockOk, Total;
    CreateConserves(w, r, no);
    if a > 0 {
      HoldersAfterWrite(w.db.orders, no, CreateOf(w, r, no).value, a);
    }
  }

  lemma CommitBooks(w: World, w': World, r: nat, no: OrderNo, a: nat)
    requires Sound(w) && InPhase(w, r, Marked) && w.held == None && CreateOf(w, r, no).Commit?
    requires w' == Without(w, r).(db := CreateOf(w, r, no).db)
      || w' == MovedTo(w, r, Astray).(db := CreateOf(w, r, no).db)
    ensures CounterOk(w', a) && Credit(w', a) == Credit(w, a)
    ensures StockOk(w'.db) && w'.db.activities.Keys == w.db.activities.Keys
    ensures a in w.db.activities ==> Total(w'.db, a) == Total(w.db, a)
  {
    hide Holders, Live, CreateOf, StockOk, Total;
    CreateFacts(w, r, no, a);
    assert CounterOk(w, a) && CounterOk(w, w.requests[r].activityId);
  }

  lemma CommitSound(w: World, w': World, st: Step, r: nat, no: OrderNo)
    requires Sound(w) && InPhase(w, r, Marked) && w.held == None && CreateOf(w, r, no).Commit?
    requires w' == Without(w, r).(db := CreateOf(w, r, no).db)
      || w' == MovedTo(w, r, Astray).(db := CreateOf(w, r, no).db)
    ensures Keeps(w, w', st)
  {
    hide CreateOf, StockOk, Total, CounterOk, Credit;
    forall a ensures KeepsAt(w, w', st, a) {
      CommitBooks(w, w', r, no, a);
    }
    CommitBooks(w, w', r, no, 0);
    forall a ensures CounterOk(w', a) { assert KeepsAt(w, w', st, a); }
    forall a | a in w'.prewarms ensures a in w'.db.activities && w'.prewarms[a] == Total(w'.db, a) {
      assert KeepsAt(w, w', st, a);
    }
  }

  lemma PositiveIds(w: World, a: nat)
    requires Sound(w)
    ensures a in w.db.activities ==> a > 0
  {
  }

  // ---------- restoring ----------

  lemma RestoringRow(db: Db, who: By, no: OrderNo)
    requires Restores(db, who, no)
    ensures no in db.orders && InProgress(db.orders[no].status)
    ensures exists s ::
      (s == Cancelled || s == Closed) && Effect(db, Returned(no, s), After(db, RestoreTx(db, who, no)))
  {
    hide RestoreStock;
    var s := if who.ByUser? then Cancelled else Closed;
    assert Effect(db, Returned(no, s), After(db, RestoreTx(db, who, no)));
  }

  /** A committed restore: one holder fewer, one unit more. */
  lemma RestoreFacts(db: Db, who: By, no: OrderNo, a: nat)
    requires StockOk(db) && Restores(db, who, no)
    ensures no in db.orders
    ensures var db' := After(db, RestoreTx(db, who, no));
            var o := db.orders[no];
            && StockOk(db')
            && (a in db.activities ==> a in db'.activities && Total(db', a) == Total(db, a))
            && db'.activities.Keys == db.activities.Keys
            && (a in db.activities && a != o.activityId ==> db'.activities[a].stock == db.activities[a].stock)
            && (a > 0 && a == o.activityId ==> o.user in Holders(db.orders, a))
            && (a > 0 ==> Holders(db'.orders, a) == Holders(db.orders, a) - if a == o.activityId then {o.user} else {})
            && (Untouched(db.orders, a) ==> Untouched(db'.orders, a))
  {
    hide Holders, Live, RestoreTx, RestoreItems, RowsOf, StockOk, Total, Holds, Apply;
    RestoringRow(db, who, no);
    var s :| (s == Cancelled || s == Closed) && Effect(db, Returned(no, s), After(db, RestoreTx(db, who, no)));
    EventConserves(db, Returned(no, s));
    RestoreHolders(db, no, s, a);
  }

  lemma RestoreHolders(db: Db, no: OrderNo, s: OrderStatus, a: nat)
    requires StockOk(db) && Holds(db, Returned(no, s))
    ensures var db' := Apply(db, Returned(no, s));
            var o := db.orders[no];
            && db'.activities.Keys == db.activities.Keys
            && (a in db.activities && a != o.activityId ==> db'.activities[a].stock == db.activities[a].stock)
            && (a > 0 && a == o.activityId ==> o.user in Holders(db.orders, a))
            && (a > 0 ==> Holders(db'.orders, a) == Holders(db.orders, a) - if a == o.activityId then {o.user} else {})
            && (Untouched(db.orders, a) ==> Untouched(db'.orders, a))
  {
    hide Holders, RestoreItems, RowsOf, OnePerPair, KeysMatch, OrdersRefer, Apply;
    OneOrderRow(db, Returned(no, s));
    RestoredActivities(db, no, s);
    if a > 0 {
      HoldersAfterWrite(db.orders, no, db.orders[no].(status := s, updatedAt := db.now), a);
    }
  }

  lemma RestoredActivities(db: Db, no: OrderNo, s: OrderStatus)
    requires StockOk(db) && Holds(db, Returned(no, s))
    ensures var db' := Apply(db, Returned(no, s));
            && db'.activities.Keys == db.activities.Keys
            && forall a :: a in db.activities && a != db.orders[no].activityId ==>
               db'.activities[a].stock == db.activities[a].stock
  {
    hide RestoreStock, OnePerPair, KeysMatch;
    RestoreStockActivities(db, no);
  }

  lemma RestoreStockActivities(db: Db, no: OrderNo)
    requires no in db.orders && RestoreStock(db, no, db.orders[no]).Commit?
    ensures var db' := RestoreStock(db, no, db.orders[no]).db;
            && db'.activities.Keys == db.activities.Keys
            && forall a :: a in db.activities && a != db.orders[no].activityId ==>
               db'.activities[a].stock == db.activities[a].stock
  {
    hide RestoreItems, RowsOf;
  }

  lemma RestoreBeginStep(w: World, st: Step)
    requires Sound(w) && st.RestoreBegin? && w.held == None && Restores(w.db, st.who, st.no) && st.no in w.db.orders
    ensures Keeps(w, Next(w, st), st)
  {
    hide Holders, InFlightOf, Live, StockOk, Total, Buyers, ReleaseScript, Restores, CounterOk;
    var o := w.db.orders[st.no];
    var w' := Next(w, st);
    forall a ensures CounterOk(w', a) && KeepsAt(w, w', st, a) {
      BeginBooks(w, w', st, a);
    }
  }

  lemma BeginBooks(w: World, w': World, st: Step, a: nat)
    requires Sound(w) && st.RestoreBegin? && w' == Next(w, st)
    ensures CounterOk(w', a) && Credit(w', a) == Credit(w, a)
  {
    hide StockOk, Total, Buyers, ReleaseScript, Restores;
    assert CounterOk(w, a);
    if st.no in w.db.orders {
      ReleaseBuyers(w, w.db.orders[st.no].activityId, w.db.orders[st.no].user, a);
    }
  }

  lemma RestoreEndStep(w: World, st: Step)
    requires Sound(w) && w.held.Some?
    ensures st == RestoreRollback ==> Keeps(w, w.(held := None), st)
    ensures st == RestoreCommit ==>
      Keeps(w, w.(db := After(w.db, RestoreTx(w.db, w.held.value.who, w.held.value.no)), held := None), st)
  {
    hide Holders, InFlightOf, Live, StockOk, Total, Buyers, Restores, RestoreTx, After, CounterOk, Credit;
    var h := w.held.value;
    var rolled := w.(held := None);
    var w' := rolled.(db := After(w.db, RestoreTx(w.db, h.who, h.no)));
    RestoreFacts(w.db, h.who, h.no, 0);
    forall a
      ensures CounterOk(w', a) && CounterOk(rolled, a) && Credit(w', a) == Credit(w, a) == Credit(rolled, a)
      ensures a in w.db.activities ==> Total(w'.db, a) == Total(w.db, a)
    {
      EndBooks(w, w', rolled, a);
    }
  }

  lemma EndBooks(w: World, w': World, rolled: World, a: nat)
    requires Sound(w) && w.held.Some?
    requires rolled == w.(held := None)
    requires w' == rolled.(db := After(w.db, RestoreTx(w.db, w.held.value.who, w.held.value.no)))
    ensures CounterOk(w', a) && CounterOk(rolled, a) && Credit(w', a) == Credit(w, a) == Credit(rolled, a)
    ensures a in w.db.activities ==> a in w'.db.activities && Total(w'.db, a) == Total(w.db, a)
  {
    hide StockOk, Total, Restores, RestoreTx, Holders;
    RestoreFacts(w.db, w.held.value.who, w.held.value.no, a);
    assert CounterOk(w, a) && CounterOk(w, w.db.orders[w.held.value.no].activityId);
  }

  // ---------- every step ----------

  /** Every step, faults included, from every sound state. */
  lemma StepKeeps(w: World, st: Step)
    requires Sound(w)
    ensures Keeps(w, Next(w, st), st)
  {
    hide Sound, Keeps, CreateOf, ReserveOf, Restores, RestoreTx, CreateActivity, Overwritten, ReleaseScript;
    Stutter(w, st);
    match st
    case Plain(ds) => if IsPlain(ds) && w.held == None { PlainStep(w, st); }
    case NewActivity(a, p, price, stock, seconds) =>
      if w.held == None && CreateActivity(w.db, a, p, price, stock, seconds).Commit? { NewActivityStep(w, st); }
    case Prewarm(a) =>
      if a in w.prewarms { PrewarmValue(w, a); CounterStep(w, st, a, w.prewarms[a]); }
    case PrewarmFails(a) => PrewarmFailsStep(w, st);
    case Repair(a, value) => if a in w.db.activities { CounterStep(w, st, a, value); }
    case Begin(r, user, a) =>
      if r !in w.requests && a in w.db.activities && Orderable(w.db.activities[a], w.db.now) {
        RequestStep(w, st, r, Some(Request(user, a, w.db.activities[a], Loaded)));
      }
    case Reserve(r) =>
      if InPhase(w, r, Loaded) {
        ReserveStep(w, st, r, if ReserveOf(w, r).1.code == TAKEN then Some(w.requests[r].(phase := Marked)) else None);
      }
    case ReserveFails(r) => if InPhase(w, r, Loaded) { RequestStep(w, st, r, None); }
    case ReserveReplyLost(r) => if InPhase(w, r, Loaded) { ReserveStep(w, st, r, None); }
    case CommitOrder(r, no) =>
      if InPhase(w, r, Marked) && w.held == None {
        if CreateOf(w, r, no).Commit? { CommitSound(w, Next(w, st), st, r, no); } else { RefuseStep(w, st, r); }
      }
    case CommitReplyLost(r, no) =>
      if InPhase(w, r, Marked) && w.held == None {
        if CreateOf(w, r, no).Commit? { CommitSound(w, Next(w, st), st, r, no); } else { RefuseStep(w, st, r); }
      }
    case TxFails(r) => if InPhase(w, r, Marked) { RefuseStep(w, st, r); }
    case Release(r) => if Releasing(w, r) { ReleaseStep(w, st, r); }
    case Abandon(r) => RequestStep(w, st, r, None);
    case RestoreBegin(who, no) =>
      if w.held == None && Restores(w.db, who, no) && no in w.db.orders { RestoreBeginStep(w, st); }
    case RestoreCommit => if w.held.Some? { RestoreEndStep(w, st); }
    case RestoreRollback => if w.held.Some? { RestoreEndStep(w, st); }
  }

  /** A step that is not enabled owes nothing. */
  lemma Stutter(w: World, st: Step)
    requires Sound(w)
    ensures Keeps(w, w, st)
  {
    hide Holders, InFlightOf, Returning, Total, StockOk, CounterOk;
    forall a ensures KeepsAt(w, w, st, a) {
      assert CounterOk(w, a);
      SameAtKeeps(w, w, st, a);
    }
  }

  lemma PrewarmValue(w: World, a: nat)
    requires Sound(w) && a in w.prewarms
    ensures a in w.db.activities && w.prewarms[a] >= 0
  {
  }

  lemma PrewarmFailsStep(w: World, st: Step)
    requires Sound(w) && st.PrewarmFails?
    ensures Keeps(w, w.(prewarms := w.prewarms - {st.a}), st)
  {
    hide Holders, InFlightOf, StockOk, Total;
    var w' := w.(prewarms := w.prewarms - {st.a});
    forall a ensures CounterOk(w', a) && KeepsAt(w, w', st, a) {
      assert CounterOk(w, a);
      SameAtKeeps(w, w', st, a);
    }
  }

  lemma RefuseStep(w: World, st: Step, r: nat)
    requires Sound(w) && InPhase(w, r, Marked)
    requires st.TxFails? || st.CommitOrder? || st.CommitReplyLost?
    ensures Keeps(w, MovedTo(w, r, Refused), st)
  {
    RequestStep(w, st, r, Some(w.requests[r].(phase := Refused)));
  }

  // ---------- the two halves of a restore ----------

  /** The first half of a restoring transaction: release the mark and keep the database. */
  lemma BeginIsRelease(w: World, who: By, no: OrderNo)
    requires w.held == None && no in w.db.orders && Restores(w.db, who, no)
    ensures var o := w.db.orders[no];
            Next(w, RestoreBegin(who, no)) ==
              w.(redis := if o.activityId > 0 then ReleaseScript(w.redis, o.activityId, o.user) else w.redis,
                 held := Some(Held(who, no)))
  {
  }

  lemma EndIsCommit(w: World, who: By, no: OrderNo)
    requires w.held == Some(Held(who, no))
    ensures Next(w, RestoreCommit) == w.(db := After(w.db, RestoreTx(w.db, who, no)), held := None)
    ensures Next(w, RestoreRollback) == w.(held := None)
  {
  }
}
