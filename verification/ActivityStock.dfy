/**
  Activity stock over whole runs: never negative, conserved against the live
  orders, and at most one order per user and activity. Nothing here mentions a
  stock cache: the transactions alone keep it.
 */
module ActivityStock {
  import opened Keys
  import opened Model
  import opened Ledger
  import opened Events

  ghost function Live(orders: map<OrderNo, Order>, a: nat): set<OrderNo> {
    set no | no in orders && orders[no].activityId == a && Active(orders[no].status)
  }

  /** MySQL stock plus live orders. */
  ghost function Total(db: Db, a: nat): int
    requires a in db.activities
  {
    db.activities[a].stock + |Live(db.orders, a)|
  }

  predicate SamePair(o: Order, p: Order) {
    o.activityId == p.activityId > 0 && o.user == p.user
  }

  ghost predicate OnePerPair(orders: map<OrderNo, Order>) {
    forall n, m :: n in orders && m in orders && SamePair(orders[n], orders[m]) ==> n == m
  }

  ghost predicate KeysMatch(orders: map<OrderNo, Order>) {
    forall no :: no in orders ==> orders[no].key == NewActivityOrderKey(orders[no].user, orders[no].activityId)
  }

  ghost predicate OrdersRefer(orders: map<OrderNo, Order>, activities: map<nat, Activity>) {
    forall no :: no in orders && orders[no].activityId > 0 ==> orders[no].activityId in activities
  }

  ghost predicate StockOk(db: Db) {
    && (forall a :: a in db.activities ==> a > 0 && db.activities[a].stock >= 0)
    && OnePerPair(db.orders)
    && KeysMatch(db.orders)
    && OrdersRefer(db.orders, db.activities)
  }

  // ---------- counting ----------

  ghost predicate LiveRow(orders: map<OrderNo, Order>, no: OrderNo, a: nat) {
    no in orders && orders[no].activityId == a && Active(orders[no].status)
  }

  /** How one row write changes the number of live orders. */
  lemma LiveAfterWrite(orders: map<OrderNo, Order>, no: OrderNo, o: Order, a: nat)
    ensures |Live(orders[no := o], a)|
         == |Live(orders, a)| - Bit(LiveRow(orders, no, a)) + Bit(LiveRow(orders[no := o], no, a))
  {
    var was, now := Live(orders, a), Live(orders[no := o], a);
    assert was - {no} == now - {no};
    assert no in was ==> was == (was - {no}) + {no};
    assert no in now ==> now == (now - {no}) + {no};
    assert no !in was ==> was == was - {no};
    assert no !in now ==> now == now - {no};
  }

  // ---------- one step ----------

  /** What every step owes: the invariant, and every activity's total unchanged. */
  ghost predicate Conserves(db: Db, db': Db) {
    && StockOk(db')
    && forall a :: a in db.activities ==> a in db'.activities && Total(db', a) == Total(db, a)
  }

  lemma PlacedIsNewPair(db: Db, no: OrderNo, o: Order)
    requires !HasOrder(db, o.user, o.activityId)
    ensures forall n :: n in db.orders ==> !SamePair(db.orders[n], o)
  {
  }

  lemma SameOrders(db: Db, db': Db)
    requires StockOk(db)
    requires db'.orders == db.orders
    requires forall a :: a in db.activities ==> a in db'.activities && db'.activities[a].stock == db.activities[a].stock
    requires forall a :: a in db'.activities ==> a > 0 && db'.activities[a].stock >= 0
    ensures Conserves(db, db')
  {
  }

  lemma WriteKeepsPairs(orders: map<OrderNo, Order>, no: OrderNo, o: Order)
    requires OnePerPair(orders)
    requires no in orders ==> SameHolder(orders[no], o)
    requires no !in orders ==> forall n :: n in orders ==> !SamePair(orders[n], o)
    ensures OnePerPair(orders[no := o])
  {
  }

  /**
    A row write, with the stock of one activity moved by what the row's live
    state moves the other way.
   */
  lemma WriteConserves(db: Db, db': Db, no: OrderNo, o: Order)
    requires StockOk(db)
    requires db'.orders == db.orders[no := o] && db'.activities.Keys == db.activities.Keys
    requires no in db.orders ==> SameHolder(db.orders[no], o)
    requires no !in db.orders ==> forall n :: n in db.orders ==> !SamePair(db.orders[n], o)
    requires o.key == NewActivityOrderKey(o.user, o.activityId)
    requires o.activityId > 0 ==> o.activityId in db.activities
    requires forall a :: a in db.activities ==>
      && db'.activities[a].stock >= 0
      && db'.activities[a].stock
         == db.activities[a].stock + Bit(LiveRow(db.orders, no, a)) - Bit(o.activityId == a && Active(o.status))
    ensures Conserves(db, db')
  {
    hide NewActivityOrderKey, Live;
    WriteKeepsPairs(db.orders, no, o);
    forall a | a in db.activities ensures Total(db', a) == Total(db, a) {
      LiveAfterWrite(db.orders, no, o, a);
    }
  }

  lemma TakingConserves(db: Db, ev: Event)
    requires StockOk(db) && Holds(db, ev) && (ev.Placed? || ev.Bought?)
    ensures Conserves(db, Apply(db, ev))
  {
    hide HasOrder, TakeItems, ApplyCoupon, ItemRows, CheckoutFits;
    if ev.Placed? {
      PlacedIsNewPair(db, ev.no, ev.order);
    } else {
      assert NewActivityOrderKey(ev.order.user, 0) == None;
    }
    WriteConserves(db, Apply(db, ev), ev.no, ev.order);
  }

  lemma RestoreMoves(db: Db, no: OrderNo)
    requires StockOk(db) && no in db.orders && RestoreStock(db, no, db.orders[no]).Commit?
    ensures var db', a := RestoreStock(db, no, db.orders[no]).db, db.orders[no].activityId;
            && db'.orders == db.orders && db'.now == db.now
            && db'.activities == if a > 0 && a in db.activities
                                 then db.activities[a := db.activities[a].(stock := db.activities[a].stock + 1)]
                                 else db.activities
  {
    hide RestoreItems, RowsOf;
  }

  lemma ReturningConserves(db: Db, ev: Event)
    requires StockOk(db) && Holds(db, ev) && ev.Returned?
    ensures Conserves(db, Apply(db, ev))
  {
    RestoreMoves(db, ev.no);
    hide RestoreStock, NewActivityOrderKey, Conserves;
    WriteConserves(db, Apply(db, ev), ev.no, db.orders[ev.no].(status := ev.status, updatedAt := db.now));
  }

  lemma AdvancingConserves(db: Db, ev: Event)
    requires StockOk(db) && Holds(db, ev) && (ev.Readied? || ev.Stamped? || ev.PaidFor?)
    ensures Conserves(db, Apply(db, ev))
  {
    hide NewActivityOrderKey, Conserves;
    WriteConserves(db, Apply(db, ev), ev.no, Written(db, ev).value.1);
  }

  lemma OtherConserves(db: Db, ev: Event)
    requires StockOk(db) && Holds(db, ev) && Written(db, ev) == None
    ensures Conserves(db, Apply(db, ev))
  {
    hide HasOrder, HasClaim;
    SameOrders(db, Apply(db, ev));
  }

  lemma EventConserves(db: Db, ev: Event)
    requires StockOk(db) && Holds(db, ev)
    ensures Conserves(db, Apply(db, ev))
  {
    hide Holds, Apply, Conserves, StockOk;
    match ev
    case Placed(_, _) => TakingConserves(db, ev);
    case Bought(_, _, _) => TakingConserves(db, ev);
    case Returned(_, _) => ReturningConserves(db, ev);
    case Readied(_) => AdvancingConserves(db, ev);
    case Stamped(_, _) => AdvancingConserves(db, ev);
    case PaidFor(_, _) => AdvancingConserves(db, ev);
    case _ => OtherConserves(db, ev);
  }

  lemma StepConserves(db: Db, st: DbStep)
    requires StockOk(db)
    ensures Conserves(db, DbNext(db, st))
  {
    hide DbNext, Holds, Apply, Conserves, StockOk;
    var ev := StepEvent(db, st);
    EventConserves(db, ev);
  }

  // ---------- whole runs ----------

  /**
    Safety for any cache: whatever interleaving of transactions a run holds,
    stock stays non-negative, stock plus live orders stays what it was, and a
    user never has two orders for one activity.
   */
  lemma {:induction false} RunConserves(db: Db, steps: seq<DbStep>)
    requires StockOk(db)
    ensures Conserves(db, DbRun(db, steps))
    ensures forall a :: a in DbRun(db, steps).activities ==> DbRun(db, steps).activities[a].stock >= 0
    ensures OnePerPair(DbRun(db, steps).orders)
    decreases |steps|
  {
    if steps == [] {
    } else {
      StepConserves(db, steps[0]);
      RunConserves(DbNext(db, steps[0]), steps[1..]);
    }
  }

  /** The activity order `o` was committed out of `db` with everything it needs. */
  ghost predicate WasOrderable(db: Db, db': Db, o: Order) {
    o.activityId > 0 ==>
      && o.activityId in db.activities && o.activityId in db'.activities
      && (db.activities[o.activityId].status == Published || db.activities[o.activityId].status == Blank)
      && db.activities[o.activityId].startAt <= db.now <= db.activities[o.activityId].endAt
      && db'.activities[o.activityId].stock == db.activities[o.activityId].stock - 1 >= 0
      && !HasOrder(db, o.user, o.activityId)
      && o.status == Queued
  }

  lemma NewOrderWasOrderable(db: Db, st: DbStep, no: OrderNo)
    requires no !in db.orders && no in DbNext(db, st).orders
    ensures WasOrderable(db, DbNext(db, st), DbNext(db, st).orders[no])
  {
    hide DbNext, HasOrder, TakeItems, ApplyCoupon, RestoreItems, ItemRows, RestoreStock, CheckoutFits;
    var ev := StepEvent(db, st);
    OneOrderRow(db, ev);
    assert ev.Placed? || ev.Bought?;
  }

  /** Step `i` of the run commits the order `no`, with everything it needs in front of it. */
  ghost predicate CommittedAt(db: Db, steps: seq<DbStep>, i: nat, no: OrderNo) {
    i < |steps| &&
    var at := DbRun(db, steps[..i]);
    && no !in at.orders && no in DbNext(at, steps[i]).orders
    && WasOrderable(at, DbNext(at, steps[i]), DbNext(at, steps[i]).orders[no])
  }

  /**
    In every run an activity order is committed at a moment when its activity
    is published, inside its window and in stock, for a user who never ordered
    there before.
   */
  lemma {:induction false} OrderedInWindow(db: Db, steps: seq<DbStep>, no: OrderNo) returns (i: nat)
    requires no !in db.orders && no in DbRun(db, steps).orders
    ensures CommittedAt(db, steps, i, no)
    decreases |steps|
  {
    hide DbNext, WasOrderable;
    var next := DbNext(db, steps[0]);
    if no in next.orders {
      i := 0;
      NewOrderWasOrderable(db, steps[0], no);
      assert DbRun(db, steps[..0]) == db;
    } else {
      var j := OrderedInWindow(next, steps[1..], no);
      i := j + 1;
      assert steps[..i][0] == steps[0] && steps[..i][1..] == steps[1..][..j];
      assert DbRun(db, steps[..i]) == DbRun(next, steps[1..][..j]);
    }
  }
}
