/**
  Prices and windows over whole runs: an activity keeps its product, price and
  window for ever, and every activity order is at its activity's price, although
  the cached create takes it from a row read earlier.
 */
module Prices {
  import opened Model
  import opened Ledger
  import opened Events
  import opened ActivityStock
  import opened Lifecycle
  import opened Protocol
  import opened ProtocolDb
  import opened Terms
  import opened Causes
  import C = Cart

  // ---------- what never changes about an activity ----------

  predicate SameTerms(x: Activity, y: Activity) {
    x.productId == y.productId && x.price == y.price && x.startAt == y.startAt && x.endAt == y.endAt
  }

  ghost predicate TermsKept(db: Db, db': Db) {
    forall a :: a in db.activities ==> a in db'.activities && SameTerms(db.activities[a], db'.activities[a])
  }

  lemma EventTerms(db: Db, ev: Event, a: nat)
    requires Holds(db, ev) && a in db.activities
    ensures a in Apply(db, ev).activities && SameTerms(db.activities[a], Apply(db, ev).activities[a])
    ensures ev.ActivityPut? || Apply(db, ev).activities[a].status == db.activities[a].status
  {
    hide Apply, HasOrder, HasClaim, CheckoutFits, RestoreStock;
    match ev
    case Placed(_, _) => SaleTerms(db, ev);
    case Returned(no, _) => ReturnTerms(db, ev);
    case _ => StockAside(db, ev); if ev.ActivityPut? { PutTerms(db, ev); }
  }

  lemma SaleTerms(db: Db, ev: Event)
    requires Holds(db, ev) && ev.Placed?
    ensures var a := ev.order.activityId;
            Apply(db, ev).activities == db.activities[a := db.activities[a].(stock := db.activities[a].stock - 1)]
  {
    hide HasOrder;
  }

  lemma PutTerms(db: Db, ev: Event)
    requires Holds(db, ev) && ev.ActivityPut?
    ensures Apply(db, ev).activities == db.activities[ev.a := ev.activity]
    ensures ev.a in db.activities ==> ev.activity == db.activities[ev.a].(status := ev.activity.status)
  {
  }

  lemma ReturnTerms(db: Db, ev: Event)
    requires Holds(db, ev) && ev.Returned?
    ensures var a := db.orders[ev.no].activityId;
            Apply(db, ev).activities ==
              if a > 0 && a in db.activities then
                db.activities[a := db.activities[a].(stock := db.activities[a].stock + 1)]
              else db.activities
  {
    hide RestoreItems, RowsOf;
  }

  /**
    A step keeps product, price and window of an activity, and changes its status
    only as an administrator sets it, or to ended as a compensation row ends a
    running one.
   */
  lemma ActivityStep(db: Db, st: DbStep, a: nat)
    requires a in db.activities
    ensures var db' := DbNext(db, st);
            && a in db'.activities && SameTerms(db.activities[a], db'.activities[a])
            && (db'.activities[a].status != db.activities[a].status ==>
                  || st == SetActivityStatus(a, db'.activities[a].status)
                  || (st == EndActivityAt(a) && Running(db, a) && db'.activities[a].status == Ended))
  {
    hide Holds, Apply;
    var ev := StepEvent(db, st);
    EventTerms(db, ev, a);
    if ev.ActivityPut? { StatusStep(db, st, a); }
    hide DbNext;
  }

  lemma StatusStep(db: Db, st: DbStep, a: nat)
    requires a in db.activities && (st.AddActivity? || st.SetActivityStatus? || st.EndActivityAt?)
    ensures var db' := DbNext(db, st);
            && a in db'.activities
            && (db'.activities[a].status != db.activities[a].status ==>
                  || st == SetActivityStatus(a, db'.activities[a].status)
                  || (st == EndActivityAt(a) && Running(db, a) && db'.activities[a].status == Ended))
  {
    hide CreateActivity, UpdateActivityStatus, EndActivity;
    match st
    case AddActivity(b, p, price, stock, seconds) => ActivityAnswers(db, b, p, price, stock, seconds);
    case SetActivityStatus(b, s) => CatalogAnswers(db, b, s, 0, 0, 0);
    case EndActivityAt(b) => EndAnswers(db, b);
  }

  /** A new activity comes from an administrator, published, at a positive price, with its window ahead. */
  lemma ActivityBirth(db: Db, st: DbStep, a: nat)
    requires a !in db.activities && a in DbNext(db, st).activities
    ensures var row := DbNext(db, st).activities[a];
            && st.AddActivity? && st.a == a && row.status == Published
            && row.price > 0 && row.stock > 0 && row.startAt == db.now < row.endAt
  {
    hide Holds, Apply;
    var ev := StepEvent(db, st);
    EventKeys(db, ev, a);
    if st.AddActivity? {
      hide CreateActivity;
      ActivityAnswers(db, st.a, st.p, st.price, st.stock, st.seconds);
    }
  }

  lemma EventKeys(db: Db, ev: Event, a: nat)
    requires Holds(db, ev) && a !in db.activities && a in Apply(db, ev).activities
    ensures ev.ActivityPut? && ev.a == a
  {
    hide Apply, HasOrder, HasClaim, CheckoutFits, RestoreStock;
    match ev
    case Placed(_, _) => SaleTerms(db, ev);
    case Returned(no, _) => ReturnTerms(db, ev);
    case _ => StockAside(db, ev); if ev.ActivityPut? { PutTerms(db, ev); }
  }

  // ---------- every order at its price ----------

  /**
    Every activity order is for its activity's product at its activity's price;
    prices are positive, windows not empty.
   */
  ghost predicate PricesOk(db: Db) {
    && (forall a :: a in db.activities ==>
          db.activities[a].price > 0 && db.activities[a].startAt < db.activities[a].endAt)
    && (forall no :: no in db.orders && db.orders[no].activityId > 0 ==>
          && db.orders[no].activityId in db.activities
          && AtPrice(db.orders[no], db.activities[db.orders[no].activityId]))
  }

  /** The row the cached create read has the terms of the row there is. */
  predicate SnapshotFits(db: Db, st: DbStep) {
    st.OrderReserved? && st.a in db.activities ==> SameTerms(st.snapshot, db.activities[st.a])
  }

  ghost predicate SnapshotsFit(db: Db, steps: seq<DbStep>)
    decreases |steps|
  {
    steps == [] || (SnapshotFits(db, steps[0]) && SnapshotsFit(DbNext(db, steps[0]), steps[1..]))
  }

  /** Every cart order goes to an address of its user. */
  ghost predicate AddressesOk(db: Db) {
    forall no :: no in db.orders && db.orders[no].activityId == 0 ==>
      (db.orders[no].addressId, db.orders[no].user) in db.addresses
  }

  ghost predicate ShopOk(db: Db) {
    C.CartOk(db) && StockOk(db) && PricesOk(db) && AddressesOk(db)
  }

  lemma StepAddresses(db: Db, st: DbStep)
    ensures db.addresses <= DbNext(db, st).addresses
  {
    hide Holds, DbNext, Apply;
    var ev := StepEvent(db, st);
    EventAddresses(db, ev);
  }

  lemma EventAddresses(db: Db, ev: Event)
    requires Holds(db, ev)
    ensures db.addresses <= Apply(db, ev).addresses
  {
    if ev.Returned? { RestoreTouches(db, ev.no, db.orders[ev.no]); }
    hide RestoreStock, HasOrder, CheckoutFits, TakeItems, ApplyCoupon, ItemRows, HasClaim;
  }

  lemma OrderAddressed(db: Db, st: DbStep, no: OrderNo)
    requires ShopOk(db) && no in DbNext(db, st).orders && DbNext(db, st).orders[no].activityId == 0
    ensures (DbNext(db, st).orders[no].addressId, DbNext(db, st).orders[no].user) in DbNext(db, st).addresses
  {
    hide DbNext, C.CartOk, StockOk, Ordered, C.Cost, CouponFits, PricesOk;
    StepAddresses(db, st);
    if no in db.orders {
      StepClimbs(db, st);
      assert Later(db.orders[no], DbNext(db, st).orders[no]);
    } else {
      BirthCause(db, st, no);
      if !st.CheckoutCart? { KeysPositive(db); }
    }
  }

  lemma KeysPositive(db: Db)
    requires StockOk(db)
    ensures 0 !in db.activities
  {
  }

  lemma StepTerms(db: Db, st: DbStep)
    ensures TermsKept(db, DbNext(db, st))
  {
    hide DbNext;
    forall a | a in db.activities
      ensures a in DbNext(db, st).activities && SameTerms(db.activities[a], DbNext(db, st).activities[a])
    {
      ActivityStep(db, st, a);
    }
  }

  lemma OrderPriced(db: Db, st: DbStep, no: OrderNo)
    requires ShopOk(db) && SnapshotFits(db, st) && no in DbNext(db, st).orders
    requires DbNext(db, st).orders[no].activityId > 0
    ensures var o, rows := DbNext(db, st).orders[no], DbNext(db, st).activities;
            o.activityId in rows && AtPrice(o, rows[o.activityId])
  {
    hide DbNext, C.CartOk, StockOk, Ordered;
    StepTerms(db, st);
    if no in db.orders {
      StepClimbs(db, st);
      assert Later(db.orders[no], DbNext(db, st).orders[no]);
    } else {
      BirthCause(db, st, no);
    }
  }

  lemma StepPrices(db: Db, st: DbStep)
    requires ShopOk(db) && SnapshotFits(db, st)
    ensures ShopOk(DbNext(db, st)) && TermsKept(db, DbNext(db, st))
  {
    hide DbNext, C.CartOk, StockOk, AtPrice;
    StepTerms(db, st);
    C.StepKept(db, st);
    StepCartOk(db, st);
    var db' := DbNext(db, st);
    forall no | no in db'.orders && db'.orders[no].activityId == 0
      ensures (db'.orders[no].addressId, db'.orders[no].user) in db'.addresses
    {
      OrderAddressed(db, st, no);
    }
    forall a | a in db'.activities
      ensures db'.activities[a].price > 0 && db'.activities[a].startAt < db'.activities[a].endAt
    {
      if a !in db.activities { ActivityBirth(db, st, a); }
    }
    forall no | no in db'.orders && db'.orders[no].activityId > 0
      ensures db'.orders[no].activityId in db'.activities
      ensures AtPrice(db'.orders[no], db'.activities[db'.orders[no].activityId])
    {
      OrderPriced(db, st, no);
    }
  }

  /** Over every run whose reads were true when they were made, orders are at their activities' prices. */
  lemma {:induction false} RunPrices(db: Db, steps: seq<DbStep>)
    requires ShopOk(db) && SnapshotsFit(db, steps)
    ensures ShopOk(DbRun(db, steps)) && TermsKept(db, DbRun(db, steps))
    decreases |steps|
  {
    hide DbNext, ShopOk, SnapshotFits, SameTerms;
    if steps == [] {
      forall a | a in db.activities ensures SameTerms(db.activities[a], db.activities[a]) {
        SameSelf(db.activities[a]);
      }
    } else {
      StepPrices(db, steps[0]);
      RunPrices(DbNext(db, steps[0]), steps[1..]);
      TermsTwice(db, DbNext(db, steps[0]), DbRun(db, steps));
    }
  }

  lemma SameSelf(x: Activity)
    ensures SameTerms(x, x)
  {
  }

  lemma TermsTwice(db: Db, mid: Db, db': Db)
    requires TermsKept(db, mid) && TermsKept(mid, db')
    ensures TermsKept(db, db')
  {
  }

  // ---------- in the protocol ----------

  /** The rows that requests have read still have the terms of their activities. */
  ghost predicate ReadsTrue(w: World) {
    forall r :: r in w.requests && w.requests[r].activityId in w.db.activities ==>
      SameTerms(w.requests[r].snapshot, w.db.activities[w.requests[r].activityId])
  }

  /** A request keeps its user, activity and read; a new one has just read its activity's row. */
  lemma ReadOnce(w: World, st: Step, r: nat)
    requires r in Next(w, st).requests
    ensures var q := Next(w, st).requests[r];
            if r in w.requests then
              && q.user == w.requests[r].user && q.activityId == w.requests[r].activityId
              && q.snapshot == w.requests[r].snapshot
            else q.activityId in w.db.activities && q.snapshot == w.db.activities[q.activityId]
  {
    hide ReserveOf, CreateOf, Restores, RestoreTx, DbNext, CreateActivity;
  }

  lemma StepReads(w: World, st: Step)
    requires ReadsTrue(w) && TermsKept(w.db, Next(w, st).db)
    requires forall r :: r in w.requests ==> w.requests[r].activityId in w.db.activities
    ensures ReadsTrue(Next(w, st))
    ensures forall r :: r in Next(w, st).requests ==> Next(w, st).requests[r].activityId in Next(w, st).db.activities
  {
    hide Next;
    var w' := Next(w, st);
    forall r | r in w'.requests
      ensures w'.requests[r].activityId in w'.db.activities
      ensures SameTerms(w'.requests[r].snapshot, w'.db.activities[w'.requests[r].activityId])
    {
      ReadOnce(w, st, r);
    }
  }

  lemma StepSnapshots(w: World, st: Step)
    requires ReadsTrue(w)
    ensures SnapshotsFit(w.db, DbStepsOf(w, st))
  {
    hide DbNext;
  }

  /**
    In every interleaving of the protocol, with every fault, an activity keeps its
    product, price and window, and every activity order is at its activity's price.
   */
  lemma {:induction false} ProtocolPrices(w: World, steps: seq<Step>)
    requires ShopOk(w.db) && ReadsTrue(w)
    requires forall r :: r in w.requests ==> w.requests[r].activityId in w.db.activities
    ensures ShopOk(Exec(w, steps).db) && ReadsTrue(Exec(w, steps)) && TermsKept(w.db, Exec(w, steps).db)
    decreases |steps|
  {
    hide Next, ShopOk, ReadsTrue, DbStepsOf, SnapshotsFit, DbRun, TermsKept;
    if steps == [] {
      TermsKeptSelf(w.db);
    } else {
      StepSnapshots(w, steps[0]);
      StepProjects(w, steps[0]);
      RunPrices(w.db, DbStepsOf(w, steps[0]));
      StepReads(w, steps[0]);
      ProtocolPrices(Next(w, steps[0]), steps[1..]);
      TermsTwice(w.db, Next(w, steps[0]).db, Exec(w, steps).db);
    }
  }

  lemma TermsKeptSelf(db: Db)
    ensures TermsKept(db, db)
  {
  }
}
