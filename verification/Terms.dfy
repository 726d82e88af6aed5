/**
  What each transaction accepts, answers and changes, said on the rows: the exact
  condition of success, the condition of every error, and every field written. A
  rejected transaction changes nothing.
 */
module Terms {
  import opened Keys
  import opened Model
  import opened Ledger
  import opened ActivityStock
  import C = Cart

  /** The outcome of a transaction, from the answer of a call and the database after it. */
  function AsTx<T>(r: Result<T>, db: Db): Tx<T> {
    match r
    case Ok(v) => Commit(db, v)
    case Err(e) => Rollback(e)
  }

  // ---------- creating ----------

  /** The activity can be ordered now. */
  predicate OpenFor(db: Db, a: nat) {
    && a in db.activities
    && (db.activities[a].status == Published || db.activities[a].status == Blank)
    && db.activities[a].startAt <= db.now <= db.activities[a].endAt
  }

  ghost predicate Ordered(db: Db, user: UserId, a: nat) {
    exists no :: no in db.orders && db.orders[no].user == user && db.orders[no].activityId == a
  }

  /** The order is for the product and the price of the activity row, without a discount. */
  predicate AtPrice(o: Order, row: Activity) {
    o.productId == row.productId && o.originalAmount == row.price && o.discountAmount == 0 && o.amount == row.price
  }

  /** A new order of the user for the activity, just written. */
  predicate NewFor(db: Db, o: Order, user: UserId, a: nat) {
    && o.user == user && o.activityId == a && o.addressId == 0 && o.userCouponId == 0
    && o.status == Queued && o.createdAt == db.now && o.updatedAt == db.now
    && (a > 0 ==> o.key == Some(Decimal(user) + ":" + Decimal(a)))
  }

  /** The order row is inserted and the activity loses one unit; nothing else changes. */
  predicate Sells(db: Db, db': Db, a: nat, no: OrderNo, o: Order) {
    && a in db.activities && no !in db.orders
    && db' == db.(orders := db.orders[no := o],
                  activities := db.activities[a := db.activities[a].(stock := db.activities[a].stock - 1)])
  }

  ghost predicate DirectAnswer(db: Db, user: UserId, a: nat, no: OrderNo, tx: Tx<(Order, int)>) {
    var inStock := OpenFor(db, a) && db.activities[a].stock > 0;
    && (tx == Rollback(ActivityNotFound) <==> a !in db.activities)
    && (tx == Rollback(ActivityNotAvailable) <==> a in db.activities && !OpenFor(db, a))
    && (tx == Rollback(SoldOut) <==> OpenFor(db, a) && db.activities[a].stock <= 0)
    && (tx == Rollback(DuplicateOrder) <==> inStock && Ordered(db, user, a))
    && (tx == Rollback(StoreFault) <==> inStock && !Ordered(db, user, a) && no in db.orders)
    && (tx.Commit? <==> inStock && !Ordered(db, user, a) && no !in db.orders)
    && (tx.Commit? ==> DirectSale(db, user, a, no, tx))
  }

  predicate DirectSale(db: Db, user: UserId, a: nat, no: OrderNo, tx: Tx<(Order, int)>) {
    && tx.Commit? && Sells(db, tx.db, a, no, tx.value.0) && NewFor(db, tx.value.0, user, a)
    && AtPrice(tx.value.0, db.activities[a]) && tx.value.1 == db.activities[a].stock - 1
  }

  ghost predicate ReservedAnswer(db: Db, user: UserId, a: nat, snapshot: Activity, no: OrderNo, tx: Tx<Order>) {
    var used := a in db.activities && db.activities[a].stock <= 0;
    && (tx == Rollback(DuplicateOrder) <==> Ordered(db, user, a))
    && (tx == Rollback(SoldOut) <==> !Ordered(db, user, a) && used)
    && (tx == Rollback(ActivityNotAvailable) <==> !Ordered(db, user, a) && !used && !OpenFor(db, a))
    && (tx == Rollback(StoreFault) <==> !Ordered(db, user, a) && !used && OpenFor(db, a) && no in db.orders)
    && (tx.Commit? <==> !Ordered(db, user, a) && !used && OpenFor(db, a) && no !in db.orders)
    && (tx.Commit? ==> ReservedSale(db, user, a, snapshot, no, tx))
  }

  predicate ReservedSale(db: Db, user: UserId, a: nat, snapshot: Activity, no: OrderNo, tx: Tx<Order>) {
    tx.Commit? && Sells(db, tx.db, a, no, tx.value) && NewFor(db, tx.value, user, a) && AtPrice(tx.value, snapshot)
  }

  lemma OrderedIs(db: Db, user: UserId, a: nat)
    ensures HasOrder(db, user, a) <==> Ordered(db, user, a)
  {
  }

  /** In a sound database the unique key is taken exactly by an order of the same user and activity. */
  lemma KeyIsPair(db: Db, user: UserId, a: nat)
    requires StockOk(db) && a > 0
    ensures KeyTaken(db.orders, NewActivityOrderKey(user, a)) <==> Ordered(db, user, a)
  {
    if KeyTaken(db.orders, NewActivityOrderKey(user, a)) {
      var no :| no in db.orders && db.orders[no].key == NewActivityOrderKey(user, a);
      ActivityOrderKeyInjective(user, a, db.orders[no].user, db.orders[no].activityId);
    }
    if Ordered(db, user, a) {
      var no :| no in db.orders && db.orders[no].user == user && db.orders[no].activityId == a;
      assert db.orders[no].key == NewActivityOrderKey(user, a);
    }
  }

  lemma DirectSells(db: Db, user: UserId, a: nat, no: OrderNo)
    requires CreateDirect(db, user, a, no).Commit?
    ensures DirectSale(db, user, a, no, CreateDirect(db, user, a, no))
  {
    hide HasOrder, KeyTaken, Decimal;
  }

  lemma ReservedSells(db: Db, user: UserId, a: nat, snapshot: Activity, no: OrderNo)
    requires CreateReserved(db, user, a, snapshot, no).Commit?
    ensures ReservedSale(db, user, a, snapshot, no, CreateReserved(db, user, a, snapshot, no))
  {
    hide HasOrder, KeyTaken, Decimal;
  }

  /** The create without a cache decides and sells exactly so. */
  lemma DirectAnswers(db: Db, user: UserId, a: nat, no: OrderNo)
    requires StockOk(db)
    ensures DirectAnswer(db, user, a, no, CreateDirect(db, user, a, no))
  {
    if CreateDirect(db, user, a, no).Commit? { DirectSells(db, user, a, no); }
    OrderedIs(db, user, a);
    if a in db.activities { KeyIsPair(db, user, a); }
    hide HasOrder, KeyTaken, Ordered, NewActivityOrderKey, DirectSale, OnePerPair, KeysMatch, OrdersRefer;
  }

  /** And so does the create after a Reserve; the price is that of the row read before it. */
  lemma ReservedAnswers(db: Db, user: UserId, a: nat, snapshot: Activity, no: OrderNo)
    requires StockOk(db)
    ensures ReservedAnswer(db, user, a, snapshot, no, CreateReserved(db, user, a, snapshot, no))
  {
    if CreateReserved(db, user, a, snapshot, no).Commit? { ReservedSells(db, user, a, snapshot, no); }
    OrderedIs(db, user, a);
    if a in db.activities { KeyIsPair(db, user, a); }
    hide HasOrder, KeyTaken, Ordered, NewActivityOrderKey, ReservedSale, OnePerPair, KeysMatch, OrdersRefer;
  }

  // ---------- giving stock back ----------

  predicate OwnOrder(db: Db, user: UserId, no: OrderNo) {
    no in db.orders && db.orders[no].user == user
  }

  predicate OpenOrder(db: Db, no: OrderNo) {
    no in db.orders && (db.orders[no].status == Queued || db.orders[no].status == WaitPay)
  }

  /**
    The order gets its final status, its activity gets its unit back or its
    products get the units of its items back, and nothing else changes.
   */
  ghost predicate GivesBack(db: Db, db': Db, no: OrderNo, s: OrderStatus)
    requires no in db.orders
  {
    var o := db.orders[no];
    && db' == db.(orders := db.orders[no := o.(status := s, updatedAt := db.now)],
                  activities := db'.activities, products := db'.products, returned := db.returned + multiset{no})
    && if o.activityId > 0 then
         var a := o.activityId;
         && a in db.activities && db'.products == db.products
         && db'.activities == db.activities[a := db.activities[a].(stock := db.activities[a].stock + 1)]
       else
         && db'.activities == db.activities && db'.products.Keys == db.products.Keys
         && forall p :: p in db.products ==>
              db'.products[p] == db.products[p].(stock := db.products[p].stock + C.UnitsOf(db.items, no, p))
  }

  ghost predicate CancelAnswer(db: Db, user: UserId, no: OrderNo, tx: Tx<bool>) {
    && (tx == Rollback(OrderNotFound) <==> !OwnOrder(db, user, no))
    && (tx == Rollback(IllegalTransition) <==> OwnOrder(db, user, no) && !OpenOrder(db, no))
    && (tx.Commit? <==> OwnOrder(db, user, no) && OpenOrder(db, no))
    && (tx.Commit? ==> tx.value && GivesBack(db, tx.db, no, Cancelled))
  }

  ghost predicate ExpireAnswer(db: Db, no: OrderNo, tx: Tx<bool>) {
    && (tx == Rollback(OrderNotFound) <==> no !in db.orders)
    && (tx.Commit? <==> no in db.orders)
    && (tx.Commit? ==> (tx.value <==> OpenOrder(db, no)))
    && (tx.Commit? ==> if tx.value then GivesBack(db, tx.db, no, Closed) else tx.db == db)
  }

  ghost predicate CloseAnswer(db: Db, no: OrderNo, tx: Tx<bool>) {
    && (tx == Rollback(OrderNotFound) <==> no !in db.orders)
    && (tx.Commit? <==> no in db.orders)
    && (tx.Commit? ==> (tx.value <==> db.orders[no].status == WaitPay))
    && (tx.Commit? ==> if tx.value then GivesBack(db, tx.db, no, Closed) else tx.db == db)
  }

  /** The restore puts back exactly what the order holds. */
  lemma RestoreGives(db: Db, no: OrderNo, s: OrderStatus)
    requires C.CartOk(db) && StockOk(db) && no in db.orders
    ensures RestoreAndSave(db, no, s).Commit? && RestoreAndSave(db, no, s).value
    ensures GivesBack(db, RestoreAndSave(db, no, s).db, no, s)
  {
    hide RestoreStock, GivesBack, C.CartOk, StockOk;
    C.RestoreAlwaysCommits(db, no);
    if db.orders[no].activityId > 0 { UnitGiven(db, no); } else { ItemsGiven(db, no); }
    SavedGives(db, RestoreStock(db, no, db.orders[no]).db, no, s);
  }

  lemma SavedGives(db: Db, db1: Db, no: OrderNo, s: OrderStatus)
    requires no in db.orders
    requires db1 == db.(activities := db1.activities, products := db1.products, returned := db.returned + multiset{no})
    requires var a := db.orders[no].activityId;
             if a > 0 then
               && a in db.activities && db1.products == db.products
               && db1.activities == db.activities[a := db.activities[a].(stock := db.activities[a].stock + 1)]
             else
               && db1.activities == db.activities && db1.products.Keys == db.products.Keys
               && forall p :: p in db.products ==>
                    db1.products[p] == db.products[p].(stock := db.products[p].stock + C.UnitsOf(db.items, no, p))
    ensures GivesBack(db, SaveStatus(db1, no, s), no, s)
  {
    hide C.UnitsOf;
  }

  lemma UnitGiven(db: Db, no: OrderNo)
    requires no in db.orders && db.orders[no].activityId > 0 && RestoreStock(db, no, db.orders[no]).Commit?
    ensures var db', a := RestoreStock(db, no, db.orders[no]).db, db.orders[no].activityId;
            && a in db.activities
            && db' == db.(activities := db.activities[a := db.activities[a].(stock := db.activities[a].stock + 1)],
                          returned := db.returned + multiset{no})
  {
  }

  lemma ItemsGiven(db: Db, no: OrderNo)
    requires no in db.orders && db.orders[no].activityId == 0 && RestoreStock(db, no, db.orders[no]).Commit?
    ensures var db' := RestoreStock(db, no, db.orders[no]).db;
            && db' == db.(products := db'.products, returned := db.returned + multiset{no})
            && db'.products.Keys == db.products.Keys
            && forall p :: p in db.products ==>
                 db'.products[p] == db.products[p].(stock := db.products[p].stock + C.UnitsOf(db.items, no, p))
  {
    hide RestoreItems, RowsOf, C.UnitsOf, C.Units;
    C.RestoreItemsExact(db.products, RowsOf(db.items, no));
    forall p | p in db.products ensures C.Units(RowsOf(db.items, no), p) == C.UnitsOf(db.items, no, p) {
      C.UnitsAreOf(db.items, no, p);
    }
  }

  /** Only the owner cancels, and only an open order. */
  lemma CancelAnswers(db: Db, user: UserId, no: OrderNo)
    requires C.CartOk(db) && StockOk(db)
    ensures CancelAnswer(db, user, no, Cancel(db, user, no))
  {
    hide RestoreAndSave, GivesBack, C.CartOk, StockOk;
    if no in db.orders { RestoreGives(db, no, Cancelled); }
  }

  lemma ExpireAnswers(db: Db, no: OrderNo)
    requires C.CartOk(db) && StockOk(db)
    ensures ExpireAnswer(db, no, Expire(db, no))
  {
    hide RestoreAndSave, GivesBack, C.CartOk, StockOk;
    if no in db.orders { RestoreGives(db, no, Closed); }
  }

  lemma CloseAnswers(db: Db, no: OrderNo)
    requires C.CartOk(db) && StockOk(db)
    ensures CloseAnswer(db, no, CloseUnpaid(db, no))
  {
    hide RestoreAndSave, GivesBack, C.CartOk, StockOk;
    if no in db.orders { RestoreGives(db, no, Closed); }
  }

  // ---------- worker, repair rows, activities ----------

  ghost predicate ProcessAnswer(db: Db, no: OrderNo, tx: Tx<bool>) {
    && (tx == Rollback(OrderNotFound) <==> no !in db.orders)
    && (tx.Commit? <==> no in db.orders)
    && (tx.Commit? ==> (tx.value <==> db.orders[no].status == Queued))
    && (tx.Commit? ==>
          var ready := db.orders[no].(status := WaitPay, updatedAt := db.now);
          tx.db == if tx.value then db.(orders := db.orders[no := ready]) else db)
  }

  ghost predicate RequeueAnswer(db: Db, no: OrderNo, at: int, tx: Tx<bool>) {
    && tx.Commit? && (tx.value <==> no in db.orders && db.orders[no].status == Queued)
    && tx.db == if tx.value then db.(orders := db.orders[no := db.orders[no].(updatedAt := at)]) else db
  }

  predicate Running(db: Db, a: nat) {
    a in db.activities && (db.activities[a].status == Published || db.activities[a].status == Blank)
  }

  /** The activity's status becomes `s`; its other fields and everything else stay. */
  predicate StatusSet(db: Db, db': Db, a: nat, s: ActivityStatus) {
    a in db.activities && db' == db.(activities := db.activities[a := db.activities[a].(status := s)])
  }

  ghost predicate EndAnswer(db: Db, a: nat, tx: Tx<bool>) {
    && (tx.Rollback? <==> a !in db.activities)
    && (tx.Commit? ==> (tx.value <==> Running(db, a)))
    && (tx.Commit? ==> if tx.value then StatusSet(db, tx.db, a, Ended) else tx.db == db)
  }

  lemma QueueAnswers(db: Db, no: OrderNo, at: int)
    ensures ProcessAnswer(db, no, Process(db, no)) && RequeueAnswer(db, no, at, Requeue(db, no, at))
  {
  }

  lemma EndAnswers(db: Db, a: nat)
    ensures EndAnswer(db, a, EndActivity(db, a))
  {
  }

  // ---------- payments ----------

  /** A replay reports the recorded payment; a first callback is recorded, and a SUCCESS pays its order. */
  ghost predicate PayAnswer(db: Db, no: OrderNo, txn: TransactionNo, status: string, tx: Tx<PaymentResult>) {
    && (tx == Rollback(OrderNotFound) <==> txn !in db.payments && no !in db.orders)
    && (tx == Rollback(IllegalTransition) <==>
          txn !in db.payments && no in db.orders && status == "SUCCESS" && db.orders[no].status != WaitPay)
    && (tx.Commit? <==>
          txn in db.payments || (no in db.orders && (status == "SUCCESS" ==> db.orders[no].status == WaitPay)))
    && (tx.Commit? ==> PayDone(db, no, txn, status, tx.db, tx.value))
  }

  ghost predicate PayDone(db: Db, no: OrderNo, txn: TransactionNo, status: string, db': Db, r: PaymentResult) {
    && txn in db'.payments && r.orderNo == db'.payments[txn].orderNo
    && r.status == (if r.orderNo in db'.orders then Some(db'.orders[r.orderNo].status) else None)
    && (r.alreadyProcessed <==> txn in db.payments)
    && (txn in db.payments ==> db' == db)
    && (txn !in db.payments ==>
          && no in db.orders
          && db' == db.(payments := db.payments[txn := Payment(no, status)],
                        orders := if status == "SUCCESS" then
                                    db.orders[no := db.orders[no].(status := Paid, updatedAt := db.now)]
                                  else db.orders))
  }

  lemma PayAnswers(db: Db, no: OrderNo, txn: TransactionNo, status: string)
    ensures PayAnswer(db, no, txn, status, Pay(db, no, txn, status))
  {
  }

  // ---------- checkout ----------

  predicate OwnCoupon(db: Db, user: UserId, uc: nat) {
    uc in db.userCoupons && db.userCoupons[uc].user == user
  }

  /** The claimed coupon exists and is in its window. */
  predicate InDate(db: Db, uc: nat) {
    && uc in db.userCoupons && db.userCoupons[uc].couponId in db.coupons
    && db.coupons[db.userCoupons[uc].couponId].startAt <= db.now <= db.coupons[db.userCoupons[uc].couponId].endAt
  }

  /** The cart's cost may be paid for with the claim, or no claim is named. */
  predicate CouponFits(db: Db, user: UserId, uc: nat, cost: int) {
    uc == 0
    || (OwnCoupon(db, user, uc) && db.userCoupons[uc].status == Unused && InDate(db, uc)
        && cost >= db.coupons[db.userCoupons[uc].couponId].threshold)
  }

  ghost predicate CouponError(db: Db, user: UserId, uc: nat, cost: int, e: Error) {
    var unspent := OwnCoupon(db, user, uc) && db.userCoupons[uc].status == Unused;
    && uc != 0
    && (e == CouponNotFound <==> !OwnCoupon(db, user, uc))
    && (e == CouponNotUnused <==> OwnCoupon(db, user, uc) && db.userCoupons[uc].status != Unused)
    && (e == CouponExpired <==> unspent && !InDate(db, uc))
    && (e == ThresholdNotReached <==>
          unspent && InDate(db, uc) && cost < db.coupons[db.userCoupons[uc].couponId].threshold)
  }

  /** An accepted claim becomes used and gives its coupon's discount; no claim gives none. */
  predicate CouponSpent(db: Db, uc: nat, rows: map<nat, UserCoupon>, discount: int) {
    if uc == 0 then rows == db.userCoupons && discount == 0
    else
      && uc in db.userCoupons && db.userCoupons[uc].couponId in db.coupons
      && rows == db.userCoupons[uc := db.userCoupons[uc].(status := Used)]
      && discount == db.coupons[db.userCoupons[uc].couponId].discount
  }

  ghost predicate CouponAnswer(db: Db, user: UserId, uc: nat, cost: int, r: Result<(map<nat, UserCoupon>, int)>) {
    && (r.Ok? <==> CouponFits(db, user, uc, cost))
    && (r.Ok? ==> CouponSpent(db, uc, r.value.0, r.value.1))
    && (r.Err? ==> CouponError(db, user, uc, cost, r.error))
  }

  /** A claim is accepted exactly when it is the user's own, unused, in date, and its threshold is reached. */
  lemma CouponAnswers(db: Db, user: UserId, uc: nat, cost: int)
    ensures CouponAnswer(db, user, uc, cost, ApplyCoupon(db, user, uc, cost))
  {
  }

  function CartRows(db: Db, user: UserId): seq<CartItem> {
    if user in db.carts then db.carts[user] else []
  }

  /** The order of a checkout, at the cart's cost less the discount, never below zero. */
  predicate BoughtFor(db: Db, o: Order, user: UserId, address: nat, uc: nat, cart: seq<CartItem>, discount: int) {
    && o.user == user && o.activityId == 0 && o.key == None && cart != [] && o.productId == cart[0].productId
    && o.addressId == address && o.userCouponId == uc
    && o.originalAmount == C.Cost(db.products, cart) && o.discountAmount == discount
    && o.amount == (if discount <= o.originalAmount then o.originalAmount - discount else 0)
    && o.status == WaitPay && o.createdAt == db.now && o.updatedAt == db.now
  }

  /** Order, items, shelves, coupon and cart are written together; nothing else changes. */
  ghost predicate Buys(db: Db, user: UserId, address: nat, uc: nat, no: OrderNo, db': Db, o: Order) {
    var cart := CartRows(db, user);
    && |db.items| <= |db'.items| && db'.items[..|db.items|] == db.items
    && C.RowsFor(db.products, no, cart, db'.items[|db.items|..])
    && C.Taken(db.products, db'.products, cart)
    && CouponSpent(db, uc, db'.userCoupons, o.discountAmount)
    && BoughtFor(db, o, user, address, uc, cart, o.discountAmount)
    && db' == db.(orders := db.orders[no := o], items := db'.items, products := db'.products,
                  userCoupons := db'.userCoupons, carts := db.carts - {user})
  }

  ghost predicate CheckoutAnswer(db: Db, user: UserId, address: nat, uc: nat, no: OrderNo, tx: Tx<Order>) {
    var cart := CartRows(db, user);
    var known := (address, user) in db.addresses;
    var stocked := known && cart != [] && C.InStock(db.products, cart);
    var fits := stocked && CouponFits(db, user, uc, C.Cost(db.products, cart));
    && (tx == Rollback(AddressNotFound) <==> !known)
    && (tx == Rollback(CartEmpty) <==> known && cart == [])
    && (known && cart != [] && !stocked ==> tx.Rollback? && C.ItemsFail(db.products, cart, tx.error))
    && (stocked && !fits ==> tx.Rollback? && CouponError(db, user, uc, C.Cost(db.products, cart), tx.error))
    && (tx == Rollback(StoreFault) <==> fits && no in db.orders)
    && (tx.Commit? <==> fits && no !in db.orders)
    && (tx.Commit? ==> Buys(db, user, address, uc, no, tx.db, tx.value))
  }

  lemma CheckoutBuys(db: Db, user: UserId, address: nat, uc: nat, no: OrderNo)
    requires Checkout(db, user, address, uc, no).Commit?
    ensures var tx := Checkout(db, user, address, uc, no);
            no !in db.orders && Buys(db, user, address, uc, no, tx.db, tx.value)
  {
    hide TakeItems, ApplyCoupon, ItemRows, KeyTaken, C.Fault, C.RowsFor, C.Taken, C.Cost, CouponFits;
    var cart := CartOf(db, user);
    C.TakeItemsDecides(db.products, cart);
    var cost := TakeItems(db.products, cart).value.1;
    CouponAnswers(db, user, uc, cost);
    ServedAreKnown(db.products, cart);
    C.ItemRowsAre(db.products, no, cart);
    var db' := Checkout(db, user, address, uc, no).db;
    assert db'.items == db.items + ItemRows(db.products, no, cart);
    assert db'.items[|db.items|..] == ItemRows(db.products, no, cart);
  }

  lemma ServedAreKnown(products: map<nat, Product>, cart: seq<CartItem>)
    requires C.InStock(products, cart)
    ensures forall i :: 0 <= i < |cart| ==> cart[i].productId in products
  {
    forall i | 0 <= i < |cart| ensures cart[i].productId in products { assert C.Fault(products, cart, i) == None; }
  }

  /** A checkout decides exactly: address, cart, items, coupon, order number, in this order. */
  lemma CheckoutAnswers(db: Db, user: UserId, address: nat, uc: nat, no: OrderNo)
    ensures CheckoutAnswer(db, user, address, uc, no, Checkout(db, user, address, uc, no))
  {
    var cart := CartOf(db, user);
    C.TakeItemsDecides(db.products, cart);
    if TakeItems(db.products, cart).Ok? {
      CouponAnswers(db, user, uc, TakeItems(db.products, cart).value.1);
    } else {
      ItemErrors(db.products, cart, TakeItems(db.products, cart).error);
    }
    if Checkout(db, user, address, uc, no).Commit? { CheckoutBuys(db, user, address, uc, no); }
    hide TakeItems, ApplyCoupon, ItemRows, KeyTaken, C.InStock, C.ItemsFail, C.Cost, Buys, CouponFits;
  }

  lemma ItemErrors(products: map<nat, Product>, cart: seq<CartItem>, e: Error)
    requires C.ItemsFail(products, cart, e)
    ensures e == InvalidQuantity || e == ProductNotFound || e == StockNotEnough
  {
  }

  // ---------- claims ----------

  ghost predicate ClaimOf(db: Db, user: UserId, c: nat) {
    exists uc :: uc in db.userCoupons && db.userCoupons[uc].user == user && db.userCoupons[uc].couponId == c
  }

  predicate ActiveCoupon(db: Db, c: nat) {
    c in db.coupons && db.coupons[c].startAt <= db.now <= db.coupons[c].endAt
  }

  /** `uc` is the row id the database assigns. */
  ghost predicate ClaimAnswer(db: Db, user: UserId, c: nat, uc: nat, tx: Tx<UserCoupon>) {
    var left := ActiveCoupon(db, c) && db.coupons[c].stock > 0;
    var free := uc > 0 && uc !in db.userCoupons;
    && (tx == Rollback(CouponNotFound) <==> c !in db.coupons)
    && (tx == Rollback(CouponNotActive) <==> c in db.coupons && !ActiveCoupon(db, c))
    && (tx == Rollback(CouponSoldOut) <==> ActiveCoupon(db, c) && db.coupons[c].stock <= 0)
    && (tx == Rollback(CouponAlreadyClaimed) <==> left && ClaimOf(db, user, c))
    && (tx == Rollback(StoreFault) <==> left && !ClaimOf(db, user, c) && !free)
    && (tx.Commit? <==> left && !ClaimOf(db, user, c) && free)
    && (tx.Commit? ==>
          && tx.value == UserCoupon(user, c, Unused)
          && tx.db == db.(coupons := db.coupons[c := db.coupons[c].(stock := db.coupons[c].stock - 1)],
                          userCoupons := db.userCoupons[uc := tx.value]))
  }

  lemma ClaimAnswers(db: Db, user: UserId, c: nat, uc: nat)
    ensures ClaimAnswer(db, user, c, uc, Claim(db, user, c, uc))
  {
    assert HasClaim(db, user, c) <==> ClaimOf(db, user, c);
    hide HasClaim, ClaimOf;
  }

  // ---------- catalog ----------

  /** A new activity is on sale from now for the seconds asked for, or a day. */
  ghost predicate ActivityAnswer(db: Db, a: nat, p: nat, price: int, stock: int, seconds: int, tx: Tx<Activity>) {
    var valid := price > 0 && stock > 0;
    var covered := valid && p in db.products && stock <= db.products[p].stock;
    && (tx == Rollback(ProductNotFound) <==> valid && p !in db.products)
    && (tx == Rollback(InvalidInput) <==> !valid || (p in db.products && !covered))
    && (tx == Rollback(StoreFault) <==> covered && (a == 0 || a in db.activities))
    && (tx.Commit? <==> covered && a > 0 && a !in db.activities)
    && (tx.Commit? ==>
          && tx.db == db.(activities := db.activities[a := tx.value])
          && tx.value.productId == p && tx.value.price == price && tx.value.stock == stock
          && tx.value.status == Published && tx.value.startAt == db.now
          && tx.value.endAt == db.now + if seconds > 0 then seconds else 86400)
  }

  ghost predicate StatusAnswer(db: Db, a: nat, s: ActivityStatus, tx: Tx<Activity>) {
    && (tx == Rollback(InvalidInput) <==> s != Published && s != Offline && s != Ended)
    && (tx == Rollback(ActivityNotFound) <==> s != Blank && a !in db.activities)
    && (tx.Commit? <==> s != Blank && a in db.activities)
    && (tx.Commit? ==> StatusSet(db, tx.db, a, s) && tx.value == tx.db.activities[a])
  }

  ghost predicate ProductAnswer(db: Db, p: nat, price: int, stock: int, tx: Tx<Product>) {
    && (tx == Rollback(InvalidInput) <==> price <= 0 || stock < 0)
    && (tx.Commit? <==> price > 0 && stock >= 0 && p > 0 && p !in db.products)
    && (tx.Commit? ==> tx.value == Product(price, stock) && tx.db == db.(products := db.products[p := tx.value]))
  }

  /** A new coupon is claimable from now for the seconds asked for, or a week. */
  ghost predicate CouponRowAnswer(db: Db, c: nat, threshold: int, discount: int, stock: int, seconds: int,
      tx: Tx<Coupon>)
  {
    && (tx == Rollback(InvalidInput) <==> discount <= 0 || stock <= 0)
    && (tx.Commit? <==> discount > 0 && stock > 0 && c > 0 && c !in db.coupons)
    && (tx.Commit? ==>
          && tx.db == db.(coupons := db.coupons[c := tx.value])
          && tx.value.threshold == threshold && tx.value.discount == discount && tx.value.stock == stock
          && tx.value.startAt == db.now && tx.value.endAt == db.now + if seconds > 0 then seconds else 604800)
  }

  lemma ActivityAnswers(db: Db, a: nat, p: nat, price: int, stock: int, seconds: int)
    ensures ActivityAnswer(db, a, p, price, stock, seconds, CreateActivity(db, a, p, price, stock, seconds))
  {
  }

  lemma CatalogAnswers(db: Db, a: nat, s: ActivityStatus, p: nat, price: int, stock: int)
    ensures StatusAnswer(db, a, s, UpdateActivityStatus(db, a, s))
    ensures ProductAnswer(db, p, price, stock, CreateProduct(db, p, price, stock))
  {
  }

  lemma CouponRowAnswers(db: Db, c: nat, threshold: int, discount: int, stock: int, seconds: int)
    ensures CouponRowAnswer(db, c, threshold, discount, stock, seconds,
                            CreateCoupon(db, c, threshold, discount, stock, seconds))
  {
  }
}
