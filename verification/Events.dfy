/**
  The committed effects. Every transaction, whatever its checks and error
  paths, either changes nothing or is one of these row changes made under the
  stated guard. The invariants are proved on events.
 */
module Events {
  import opened Keys
  import opened Model
  import opened Ledger

  datatype Event =
    | Nothing
    | Clock(elapsed: nat)
    | ProductAdded(p: nat, product: Product)
    | ActivityPut(a: nat, activity: Activity)
    | CouponAdded(c: nat, coupon: Coupon)
    | AddressAdded(address: (nat, UserId))
    | CartPut(user: UserId, cart: seq<CartItem>)
    | Placed(no: OrderNo, order: Order)
    | Bought(no: OrderNo, order: Order, cart: seq<CartItem>)
    | Claimed(uc: nat, claim: UserCoupon)
    | Readied(no: OrderNo)
    | Stamped(no: OrderNo, at: int)
    | PaymentNoted(txn: TransactionNo, payment: Payment)
    | PaidFor(txn: TransactionNo, no: OrderNo)
    | Returned(no: OrderNo, status: OrderStatus)

  ghost predicate CheckoutFits(db: Db, o: Order, cart: seq<CartItem>) {
    && TakeItems(db.products, cart).Ok?
    && TakeItems(db.products, cart).value.1 == o.originalAmount
    && ApplyCoupon(db, o.user, o.userCouponId, o.originalAmount).Ok?
    && ApplyCoupon(db, o.user, o.userCouponId, o.originalAmount).value.1 == o.discountAmount
    && o.amount == Payable(o.originalAmount, o.discountAmount)
  }

  /** The guard under which the event is committed. */
  ghost predicate Holds(db: Db, ev: Event) {
    match ev
    case Nothing => true
    case Clock(_) => true
    case ProductAdded(p, row) => p > 0 && p !in db.products && row.stock >= 0
    case ActivityPut(a, row) =>
      if a in db.activities then row == db.activities[a].(status := row.status) else a > 0 && row.stock > 0
    case CouponAdded(c, row) => c > 0 && c !in db.coupons && row.stock > 0 && row.discount > 0
    case AddressAdded(_) => true
    case CartPut(_, _) => true
    case Placed(no, o) =>
      && no !in db.orders
      && o.activityId in db.activities
      && db.activities[o.activityId].stock > 0
      && Orderable(db.activities[o.activityId], db.now)
      && !HasOrder(db, o.user, o.activityId)
      && o.key == NewActivityOrderKey(o.user, o.activityId)
      && o.status == Queued && o.createdAt == o.updatedAt == db.now
      && o.userCouponId == 0 && o.discountAmount == 0 && o.amount == o.originalAmount
    case Bought(no, o, cart) =>
      && no !in db.orders
      && o.activityId == 0 && o.key == None
      && o.status == WaitPay && o.createdAt == o.updatedAt == db.now
      && CheckoutFits(db, o, cart)
    case Claimed(uc, claim) =>
      && uc > 0 && uc !in db.userCoupons && claim.status == Unused
      && claim.couponId in db.coupons && db.coupons[claim.couponId].stock > 0
      && !HasClaim(db, claim.user, claim.couponId)
    case Readied(no) => no in db.orders && db.orders[no].status == Queued
    case Stamped(no, at) => no in db.orders && db.orders[no].status == Queued && at <= db.now
    case PaymentNoted(txn, row) => txn !in db.payments && row.orderNo in db.orders && row.status != SUCCESS
    case PaidFor(txn, no) => txn !in db.payments && no in db.orders && db.orders[no].status == WaitPay
    case Returned(no, s) =>
      && no in db.orders && InProgress(db.orders[no].status)
      && (s == Cancelled || s == Closed)
      && RestoreStock(db, no, db.orders[no]).Commit?
  }

  ghost function Apply(db: Db, ev: Event): Db
    requires Holds(db, ev)
  {
    match ev
    case Nothing => db
    case Clock(d) => db.(now := db.now + d)
    case ProductAdded(p, row) => db.(products := db.products[p := row])
    case ActivityPut(a, row) => db.(activities := db.activities[a := row])
    case CouponAdded(c, row) => db.(coupons := db.coupons[c := row])
    case AddressAdded(address) => db.(addresses := db.addresses + {address})
    case CartPut(user, cart) => db.(carts := db.carts[user := cart])
    case Placed(no, o) =>
      SetStock(db, o.activityId, db.activities[o.activityId].stock - 1).(orders := db.orders[no := o])
    case Bought(no, o, cart) =>
      db.(orders := db.orders[no := o],
          products := TakeItems(db.products, cart).value.0,
          userCoupons := ApplyCoupon(db, o.user, o.userCouponId, o.originalAmount).value.0,
          items := db.items + ItemRows(db.products, no, cart),
          carts := db.carts - {o.user})
    case Claimed(uc, claim) =>
      var c := claim.couponId;
      db.(coupons := db.coupons[c := db.coupons[c].(stock := db.coupons[c].stock - 1)],
          userCoupons := db.userCoupons[uc := claim])
    case Readied(no) => SaveStatus(db, no, WaitPay)
    case Stamped(no, at) => db.(orders := db.orders[no := db.orders[no].(updatedAt := at)])
    case PaymentNoted(txn, row) => db.(payments := db.payments[txn := row])
    case PaidFor(txn, no) =>
      SaveStatus(db.(payments := db.payments[txn := Payment(no, SUCCESS)]), no, Paid)
    case Returned(no, s) => SaveStatus(RestoreStock(db, no, db.orders[no]).db, no, s)
  }

  /** `db'` is `db` after one event. */
  ghost predicate Effect(db: Db, ev: Event, db': Db) {
    Holds(db, ev) && db' == Apply(db, ev)
  }

  /** The one order row the event writes, if any. */
  ghost function Written(db: Db, ev: Event): Option<(OrderNo, Order)>
    requires Holds(db, ev)
  {
    match ev
    case Placed(no, o) => Some((no, o))
    case Bought(no, o, _) => Some((no, o))
    case Readied(no) => Some((no, db.orders[no].(status := WaitPay, updatedAt := db.now)))
    case Stamped(no, at) => Some((no, db.orders[no].(updatedAt := at)))
    case PaidFor(_, no) => Some((no, db.orders[no].(status := Paid, updatedAt := db.now)))
    case Returned(no, s) => Some((no, db.orders[no].(status := s, updatedAt := db.now)))
    case _ => None
  }

  ghost function OrdersWith(orders: map<OrderNo, Order>, row: Option<(OrderNo, Order)>): map<OrderNo, Order> {
    match row
    case None => orders
    case Some((no, o)) => orders[no := o]
  }

  /** A restore writes shelves and activities, and counts the return; nothing else. */
  lemma RestoreTouches(db: Db, no: OrderNo, o: Order)
    requires RestoreStock(db, no, o).Commit?
    ensures var db' := RestoreStock(db, no, o).db;
            db' == db.(products := db'.products, activities := db'.activities, returned := db.returned + multiset{no})
  {
    hide RestoreItems, RowsOf;
  }

  /** An event touches the order table in one row only. */
  lemma OneOrderRow(db: Db, ev: Event)
    requires Holds(db, ev)
    ensures Apply(db, ev).orders == OrdersWith(db.orders, Written(db, ev))
  {
    if ev.Returned? { RestoreTouches(db, ev.no, db.orders[ev.no]); }
    hide HasOrder, TakeItems, ApplyCoupon, ItemRows, RestoreStock, NewActivityOrderKey, CheckoutFits, HasClaim;
  }

  predicate SameHolder(o: Order, p: Order) {
    o.user == p.user && o.activityId == p.activityId && o.key == p.key
  }

  /** Outside placing and returning, an event leaves every activity's stock and every holder alone. */
  lemma StockAside(db: Db, ev: Event)
    requires Holds(db, ev) && !ev.Placed? && !ev.Returned?
    ensures ev.ActivityPut? || Apply(db, ev).activities == db.activities
    ensures forall a :: a in db.activities ==>
      a in Apply(db, ev).activities && Apply(db, ev).activities[a].stock == db.activities[a].stock
    ensures match Written(db, ev)
            case None => true
            case Some((no, o)) =>
              if no in db.orders then SameHolder(db.orders[no], o) && Active(o.status) == Active(db.orders[no].status)
              else ev.Bought? && o.activityId == 0
  {
    hide HasClaim, CheckoutFits, TakeItems, ApplyCoupon, ItemRows;
  }

  // ---------- each transaction is an event ----------

  lemma CreateEvent(db: Db, user: UserId, a: nat, snapshot: Activity, no: OrderNo)
      returns (direct: Event, reserved: Event)
    ensures Effect(db, direct, After(db, CreateDirect(db, user, a, no)))
    ensures Effect(db, reserved, After(db, CreateReserved(db, user, a, snapshot, no)))
    ensures direct == Nothing || direct.Placed?
    ensures reserved == Nothing || reserved.Placed?
  {
    hide HasOrder, KeyTaken;
    direct, reserved := Nothing, Nothing;
    if CreateDirect(db, user, a, no).Commit? {
      direct := Placed(no, NewActivityOrder(db.now, user, a, db.activities[a]));
    }
    if CreateReserved(db, user, a, snapshot, no).Commit? {
      reserved := Placed(no, NewActivityOrder(db.now, user, a, snapshot));
    }
  }

  lemma CheckoutEvent(db: Db, user: UserId, address: nat, uc: nat, no: OrderNo) returns (ev: Event)
    ensures Effect(db, ev, After(db, Checkout(db, user, address, uc, no)))
    ensures ev == Nothing || ev.Bought?
  {
    hide TakeItems, ItemRows, ApplyCoupon, KeyTaken;
    ev := Nothing;
    var tx := Checkout(db, user, address, uc, no);
    if tx.Commit? {
      ev := Bought(no, tx.value, CartOf(db, user));
    }
  }

  lemma CloseEvent(db: Db, user: UserId, no: OrderNo) returns (cancel: Event, expire: Event, close: Event)
    ensures Effect(db, cancel, After(db, Cancel(db, user, no)))
    ensures Effect(db, expire, After(db, Expire(db, no)))
    ensures Effect(db, close, After(db, CloseUnpaid(db, no)))
    ensures cancel == Nothing || cancel.Returned?
    ensures expire == Nothing || expire.Returned?
    ensures close == Nothing || close.Returned?
  {
    hide RestoreStock;
    cancel, expire, close := Nothing, Nothing, Nothing;
    if no in db.orders && InProgress(db.orders[no].status) && RestoreStock(db, no, db.orders[no]).Commit? {
      expire := Returned(no, Closed);
      if db.orders[no].user == user { cancel := Returned(no, Cancelled); }
      if db.orders[no].status == WaitPay { close := Returned(no, Closed); }
    }
  }

  lemma PayEvent(db: Db, no: OrderNo, txn: TransactionNo, status: string) returns (ev: Event)
    ensures Effect(db, ev, After(db, Pay(db, no, txn, status)))
    ensures ev == Nothing || ev.PaymentNoted? || ev.PaidFor?
  {
    ev := if txn in db.payments || no !in db.orders then Nothing
          else if status != SUCCESS then PaymentNoted(txn, Payment(no, status))
          else if db.orders[no].status != WaitPay then Nothing
          else PaidFor(txn, no);
  }

  lemma CatalogEvent(db: Db, st: DbStep) returns (ev: Event)
    requires st.AddProduct? || st.AddActivity? || st.SetActivityStatus? || st.AddCoupon? || st.EndActivityAt?
    ensures Effect(db, ev, DbNext(db, st))
    ensures ev == Nothing || ev.ProductAdded? || ev.ActivityPut? || ev.CouponAdded?
    ensures ev.ActivityPut? && ev.a !in db.activities ==> st.AddActivity?
    ensures ev.ActivityPut? ==> st.AddActivity? || st.SetActivityStatus? || st.EndActivityAt?
  {
    ev := Nothing;
    match st
    case AddProduct(p, price, stock) =>
      var tx := CreateProduct(db, p, price, stock);
      if tx.Commit? { ev := ProductAdded(p, tx.value); }
    case AddActivity(a, p, price, stock, seconds) =>
      var tx := CreateActivity(db, a, p, price, stock, seconds);
      if tx.Commit? { ev := ActivityPut(a, tx.value); }
    case SetActivityStatus(a, s) =>
      var tx := UpdateActivityStatus(db, a, s);
      if tx.Commit? { ev := ActivityPut(a, tx.value); }
    case AddCoupon(c, t, d, stock, seconds) =>
      var tx := CreateCoupon(db, c, t, d, stock, seconds);
      if tx.Commit? { ev := CouponAdded(c, tx.value); }
    case EndActivityAt(a) =>
      var tx := EndActivity(db, a);
      if tx.Commit? && tx.value {
        ev := ActivityPut(a, db.activities[a].(status := Ended));
      }
  }

  lemma SideEvent(db: Db, st: DbStep) returns (ev: Event)
    requires st.Tick? || st.AddAddress? || st.PutCart?
    ensures Effect(db, ev, DbNext(db, st))
    ensures ev.Clock? || ev.AddressAdded? || ev.CartPut?
  {
    match st
    case Tick(d) => ev := Clock(d);
    case AddAddress(address, user) => ev := AddressAdded((address, user));
    case PutCart(user, cart) => ev := CartPut(user, cart);
  }

  lemma ClaimEvent(db: Db, user: UserId, c: nat, uc: nat) returns (ev: Event)
    ensures Effect(db, ev, After(db, Claim(db, user, c, uc)))
    ensures ev == Nothing || ev.Claimed?
  {
    var tx := Claim(db, user, c, uc);
    ev := if tx.Commit? then Claimed(uc, tx.value) else Nothing;
  }

  lemma QueueEvent(db: Db, st: DbStep) returns (ev: Event)
    requires st.ProcessOrder? || st.RequeueOrder?
    ensures Effect(db, ev, DbNext(db, st))
    ensures ev == Nothing || ev.Readied? || ev.Stamped?
  {
    ev := Nothing;
    match st
    case ProcessOrder(no) => if no in db.orders && db.orders[no].status == Queued { ev := Readied(no); }
    case RequeueOrder(no, at) =>
      if no in db.orders && db.orders[no].status == Queued && at <= db.now { ev := Stamped(no, at); }
  }

  lemma RowEvent(db: Db, st: DbStep) returns (ev: Event)
    requires st.Tick? || st.AddAddress? || st.PutCart? || st.ClaimCoupon? || st.ProcessOrder? || st.RequeueOrder?
    ensures Effect(db, ev, DbNext(db, st))
    ensures !ev.Placed? && !ev.Returned? && !ev.ActivityPut? && (ev.Claimed? ==> st.ClaimCoupon?)
  {
    hide Effect, Claim, Process, Requeue;
    match st
    case ClaimCoupon(user, c, uc) => ev := ClaimEvent(db, user, c, uc);
    case ProcessOrder(_) => ev := QueueEvent(db, st);
    case RequeueOrder(_, _) => ev := QueueEvent(db, st);
    case _ => ev := SideEvent(db, st);
  }

  /** Every step of the database machine is one guarded event, `Nothing` when it rolls back. */
  lemma StepEvent(db: Db, st: DbStep) returns (ev: Event)
    ensures Effect(db, ev, DbNext(db, st))
    ensures ev.Placed? ==> st.OrderDirect? || st.OrderReserved?
    ensures ev.Returned? ==> st.CancelOrder? || st.ExpireOrder? || st.CloseUnpaidOrder?
    ensures ev.ActivityPut? && ev.a !in db.activities ==> st.AddActivity?
    ensures ev.ActivityPut? ==> st.AddActivity? || st.SetActivityStatus? || st.EndActivityAt?
    ensures ev.Claimed? ==> st.ClaimCoupon?
  {
    hide Effect, InsertOrder, RestoreAndSave, HasOrder, TakeItems, ItemRows, ApplyCoupon;
    match st
    case OrderDirect(user, a, no) =>
      var e, _ := CreateEvent(db, user, a, Activity(0, 0, 0, Blank, 0, 0), no);
      ev := e;
    case OrderReserved(user, a, snapshot, no) =>
      var _, e := CreateEvent(db, user, a, snapshot, no);
      ev := e;
    case CheckoutCart(user, address, uc, no) => ev := CheckoutEvent(db, user, address, uc, no);
    case PaymentCallback(no, txn, status) => ev := PayEvent(db, no, txn, status);
    case CancelOrder(user, no) =>
      var e, _, _ := CloseEvent(db, user, no);
      ev := e;
    case ExpireOrder(no) =>
      var _, e, _ := CloseEvent(db, 1, no);
      ev := e;
    case CloseUnpaidOrder(no) =>
      var _, _, e := CloseEvent(db, 1, no);
      ev := e;
    case AddProduct(_, _, _) => ev := CatalogEvent(db, st);
    case AddActivity(_, _, _, _, _) => ev := CatalogEvent(db, st);
    case SetActivityStatus(_, _) => ev := CatalogEvent(db, st);
    case AddCoupon(_, _, _, _, _) => ev := CatalogEvent(db, st);
    case EndActivityAt(_) => ev := CatalogEvent(db, st);
    case _ => ev := RowEvent(db, st);
  }
}
