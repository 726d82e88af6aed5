/**
  The database transactions of the order, coupon and catalog services, each as
  one function from the committed database to the outcome of the transaction.
 */
module Ledger {
  import opened Keys
  import opened Model

  // ---------- activity orders ----------

  predicate HasOrder(db: Db, user: UserId, a: nat) {
    exists no :: no in db.orders && db.orders[no].user == user && db.orders[no].activityId == a
  }

  predicate KeyTaken(orders: map<OrderNo, Order>, key: Option<string>) {
    key.Some? && exists no :: no in orders && orders[no].key == key
  }

  /** INSERT under the unique indexes on the order number and on the activity key. */
  function InsertOrder(db: Db, no: OrderNo, o: Order): Tx<Order> {
    if no in db.orders then Rollback(StoreFault)
    else if KeyTaken(db.orders, o.key) then Rollback(DuplicateOrder)
    else Commit(db.(orders := db.orders[no := o]), o)
  }

  /** A new activity order; `row` supplies the product and the price. */
  function NewActivityOrder(now: int, user: UserId, a: nat, row: Activity): Order {
    Order(user, a, row.productId, NewActivityOrderKey(user, a), 0, 0,
          row.price, 0, row.price, Queued, now, now)
  }

  function SetStock(db: Db, a: nat, stock: int): Db
    requires a in db.activities
  {
    db.(activities := db.activities[a := db.activities[a].(stock := stock)])
  }

  /** The whole create transaction when no stock cache is configured. */
  function CreateDirect(db: Db, user: UserId, a: nat, no: OrderNo): Tx<(Order, int)> {
    if a !in db.activities then Rollback(ActivityNotFound)
    else
      var row := db.activities[a];
      if !Orderable(row, db.now) then Rollback(ActivityNotAvailable)
      else if row.stock <= 0 then Rollback(SoldOut)
      else if HasOrder(db, user, a) then Rollback(DuplicateOrder)
      else
        match InsertOrder(SetStock(db, a, row.stock - 1), no, NewActivityOrder(db.now, user, a, row))
        case Rollback(e) => Rollback(e)
        case Commit(db', o) => Commit(db', (o, row.stock - 1))
  }

  /** The create transaction that follows a successful Reserve; `snapshot` was read before it. */
  function CreateReserved(db: Db, user: UserId, a: nat, snapshot: Activity, no: OrderNo): Tx<Order> {
    if HasOrder(db, user, a) then Rollback(DuplicateOrder)
    else if a in db.activities && db.activities[a].stock > 0 && Orderable(db.activities[a], db.now) then
      InsertOrder(SetStock(db, a, db.activities[a].stock - 1), no, NewActivityOrder(db.now, user, a, snapshot))
    else if a in db.activities && db.activities[a].stock <= 0 then Rollback(SoldOut)
    else Rollback(ActivityNotAvailable)
  }

  // ---------- giving stock back ----------

  function RowsOf(items: seq<OrderItem>, no: OrderNo): seq<OrderItem> {
    if items == [] then []
    else if items[0].orderNo == no then [items[0]] + RowsOf(items[1..], no)
    else RowsOf(items[1..], no)
  }

  function RestoreItems(products: map<nat, Product>, rows: seq<OrderItem>): Option<map<nat, Product>> {
    if rows == [] then Some(products)
    else if rows[0].productId !in products then None
    else
      var p := products[rows[0].productId];
      RestoreItems(products[rows[0].productId := p.(stock := p.stock + rows[0].quantity)], rows[1..])
  }

  function RestoreStock(db: Db, no: OrderNo, o: Order): Tx<()> {
    if o.activityId > 0 then
      if o.activityId !in db.activities then Rollback(StoreFault)
      else
        var db' := SetStock(db, o.activityId, db.activities[o.activityId].stock + 1);
        Commit(db'.(returned := db'.returned + multiset{no}), ())
    else
      match RestoreItems(db.products, RowsOf(db.items, no))
      case None => Rollback(StoreFault)
      case Some(products) => Commit(db.(products := products, returned := db.returned + multiset{no}), ())
  }

  function SaveStatus(db: Db, no: OrderNo, s: OrderStatus): Db
    requires no in db.orders
  {
    db.(orders := db.orders[no := db.orders[no].(status := s, updatedAt := db.now)])
  }

  function RestoreAndSave(db: Db, no: OrderNo, s: OrderStatus): Tx<bool>
    requires no in db.orders
  {
    match RestoreStock(db, no, db.orders[no])
    case Rollback(e) => Rollback(e)
    case Commit(db', _) => Commit(SaveStatus(db', no, s), true)
  }

  function Cancel(db: Db, user: UserId, no: OrderNo): Tx<bool> {
    if no !in db.orders || db.orders[no].user != user then Rollback(OrderNotFound)
    else if !InProgress(db.orders[no].status) then Rollback(IllegalTransition)
    else RestoreAndSave(db, no, Cancelled)
  }

  /** One row of the expiry loop; the value says whether the order was closed. */
  function Expire(db: Db, no: OrderNo): Tx<bool> {
    if no !in db.orders then Rollback(OrderNotFound)
    else if !InProgress(db.orders[no].status) then Commit(db, false)
    else RestoreAndSave(db, no, Closed)
  }

  /** One wait-pay row of the compensation loop. */
  function CloseUnpaid(db: Db, no: OrderNo): Tx<bool> {
    if no !in db.orders then Rollback(OrderNotFound)
    else if db.orders[no].status != WaitPay then Commit(db, false)
    else RestoreAndSave(db, no, Closed)
  }

  // ---------- other order transactions ----------

  /** One queued row of the compensation loop: touch `updated_at` if still queued. */
  function Requeue(db: Db, no: OrderNo, at: int): Tx<bool> {
    if no in db.orders && db.orders[no].status == Queued then
      Commit(db.(orders := db.orders[no := db.orders[no].(updatedAt := at)]), true)
    else Commit(db, false)
  }

  function EndActivity(db: Db, a: nat): Tx<bool> {
    if a !in db.activities then Rollback(StoreFault)
    else if db.activities[a].status != Published && db.activities[a].status != Blank then Commit(db, false)
    else Commit(db.(activities := db.activities[a := db.activities[a].(status := Ended)]), true)
  }

  /** The worker's transaction: a queued order becomes payable. */
  function Process(db: Db, no: OrderNo): Tx<bool> {
    if no !in db.orders then Rollback(OrderNotFound)
    else if db.orders[no].status != Queued then Commit(db, false)
    else Commit(SaveStatus(db, no, WaitPay), true)
  }

  datatype PaymentResult = PaymentResult(orderNo: OrderNo, status: Option<OrderStatus>, alreadyProcessed: bool)

  function StatusOf(db: Db, no: OrderNo): Option<OrderStatus> {
    if no in db.orders then Some(db.orders[no].status) else None
  }

  function Pay(db: Db, no: OrderNo, txn: TransactionNo, status: string): Tx<PaymentResult> {
    if txn in db.payments then
      Commit(db, PaymentResult(db.payments[txn].orderNo, StatusOf(db, db.payments[txn].orderNo), true))
    else if no !in db.orders then Rollback(OrderNotFound)
    else
      var paid := db.(payments := db.payments[txn := Payment(no, status)]);
      if status != SUCCESS then Commit(paid, PaymentResult(no, StatusOf(db, no), false))
      else if db.orders[no].status != WaitPay then Rollback(IllegalTransition)
      else Commit(SaveStatus(paid, no, Paid), PaymentResult(no, Some(Paid), false))
  }

  // ---------- cart and coupons ----------

  /** The stock loop of the checkout: the products left and the sum of the prices. */
  function TakeItems(products: map<nat, Product>, cart: seq<CartItem>): Result<(map<nat, Product>, int)> {
    if cart == [] then Ok((products, 0))
    else if cart[0].quantity <= 0 then Err(InvalidQuantity)
    else if cart[0].productId !in products then Err(ProductNotFound)
    else
      var p := products[cart[0].productId];
      if p.stock < cart[0].quantity then Err(StockNotEnough)
      else
        match TakeItems(products[cart[0].productId := p.(stock := p.stock - cart[0].quantity)], cart[1..])
        case Err(e) => Err(e)
        case Ok((left, sum)) => Ok((left, p.price * cart[0].quantity + sum))
  }

  function PriceOf(products: map<nat, Product>, p: nat): int {
    if p in products then products[p].price else 0
  }

  function ItemRows(products: map<nat, Product>, no: OrderNo, cart: seq<CartItem>): seq<OrderItem> {
    if cart == [] then []
    else [OrderItem(no, cart[0].productId, PriceOf(products, cart[0].productId), cart[0].quantity)]
         + ItemRows(products, no, cart[1..])
  }

  /** The coupon rows after use, and the discount. */
  function ApplyCoupon(db: Db, user: UserId, uc: nat, original: int): Result<(map<nat, UserCoupon>, int)> {
    if uc == 0 then Ok((db.userCoupons, 0))
    else if uc !in db.userCoupons || db.userCoupons[uc].user != user then Err(CouponNotFound)
    else if db.userCoupons[uc].status != Unused then Err(CouponNotUnused)
    else if db.userCoupons[uc].couponId !in db.coupons then Err(CouponExpired)
    else
      var c := db.coupons[db.userCoupons[uc].couponId];
      // The expired branch saves EXPIRED and then fails, so the save is rolled back.
      if db.now < c.startAt || c.endAt < db.now then Err(CouponExpired)
      else if original < c.threshold then Err(ThresholdNotReached)
      else Ok((db.userCoupons[uc := db.userCoupons[uc].(status := Used)], c.discount))
  }

  function CartOf(db: Db, user: UserId): seq<CartItem> {
    if user in db.carts then db.carts[user] else []
  }

  function Payable(original: int, discount: int): int {
    if original - discount < 0 then 0 else original - discount
  }

  function Checkout(db: Db, user: UserId, address: nat, uc: nat, no: OrderNo): Tx<Order> {
    var cart := CartOf(db, user);
    if (address, user) !in db.addresses then Rollback(AddressNotFound)
    else if cart == [] then Rollback(CartEmpty)
    else
      match TakeItems(db.products, cart)
      case Err(e) => Rollback(e)
      case Ok((left, original)) =>
        match ApplyCoupon(db, user, uc, original)
        case Err(e) => Rollback(e)
        case Ok((userCoupons, discount)) =>
          var o := Order(user, 0, cart[0].productId, None, address, uc,
                         original, discount, Payable(original, discount), WaitPay, db.now, db.now);
          var db' := db.(products := left, userCoupons := userCoupons);
          match InsertOrder(db', no, o)
          case Rollback(e) => Rollback(e)
          case Commit(db'', _) =>
            Commit(db''.(items := db.items + ItemRows(db.products, no, cart), carts := db.carts - {user}), o)
  }

  predicate HasClaim(db: Db, user: UserId, c: nat) {
    exists uc :: uc in db.userCoupons && db.userCoupons[uc].user == user && db.userCoupons[uc].couponId == c
  }

  /** `uc` is the row id the database assigns. */
  function Claim(db: Db, user: UserId, c: nat, uc: nat): Tx<UserCoupon> {
    if c !in db.coupons then Rollback(CouponNotFound)
    else
      var row := db.coupons[c];
      if db.now < row.startAt || row.endAt < db.now then Rollback(CouponNotActive)
      else if row.stock <= 0 then Rollback(CouponSoldOut)
      else if HasClaim(db, user, c) then Rollback(CouponAlreadyClaimed)
      else if uc == 0 || uc in db.userCoupons then Rollback(StoreFault)
      else
        var claim := UserCoupon(user, c, Unused);
        Commit(db.(coupons := db.coupons[c := row.(stock := row.stock - 1)],
                   userCoupons := db.userCoupons[uc := claim]), claim)
  }

  // ---------- catalog ----------

  const DEFAULT_ACTIVITY_SECONDS := 24 * 3600
  const DEFAULT_COUPON_SECONDS := 7 * 24 * 3600

  function CreateProduct(db: Db, p: nat, price: int, stock: int): Tx<Product> {
    if price <= 0 || stock < 0 then Rollback(InvalidInput)
    else if p == 0 || p in db.products then Rollback(StoreFault)
    else Commit(db.(products := db.products[p := Product(price, stock)]), Product(price, stock))
  }

  function CreateActivity(db: Db, a: nat, p: nat, price: int, stock: int, seconds: int): Tx<Activity> {
    if price <= 0 || stock <= 0 then Rollback(InvalidInput)
    else if p !in db.products then Rollback(ProductNotFound)
    else if stock > db.products[p].stock then Rollback(InvalidInput)
    else if a == 0 || a in db.activities then Rollback(StoreFault)
    else
      var length := if seconds <= 0 then DEFAULT_ACTIVITY_SECONDS else seconds;
      var row := Activity(p, price, stock, Published, db.now, db.now + length);
      Commit(db.(activities := db.activities[a := row]), row)
  }

  function UpdateActivityStatus(db: Db, a: nat, s: ActivityStatus): Tx<Activity> {
    if s == Blank then Rollback(InvalidInput)
    else if a !in db.activities then Rollback(ActivityNotFound)
    else
      var row := db.activities[a].(status := s);
      Commit(db.(activities := db.activities[a := row]), row)
  }

  function CreateCoupon(db: Db, c: nat, threshold: int, discount: int, stock: int, seconds: int): Tx<Coupon> {
    if discount <= 0 || stock <= 0 then Rollback(InvalidInput)
    else if c == 0 || c in db.coupons then Rollback(StoreFault)
    else
      var length := if seconds <= 0 then DEFAULT_COUPON_SECONDS else seconds;
      var row := Coupon(threshold, discount, stock, db.now, db.now + length);
      Commit(db.(coupons := db.coupons[c := row]), row)
  }

  // ---------- the database as a machine ----------

  /** One committed or rolled back transaction of any client, or the clock moving on. */
  datatype DbStep =
    | Tick(elapsed: nat)
    | AddProduct(p: nat, price: int, stock: int)
    | AddActivity(a: nat, p: nat, price: int, stock: int, seconds: int)
    | SetActivityStatus(a: nat, s: ActivityStatus)
    | AddCoupon(c: nat, threshold: int, discount: int, stock: int, seconds: int)
    | AddAddress(address: nat, user: UserId)
    | PutCart(user: UserId, cart: seq<CartItem>)
    | OrderDirect(user: UserId, a: nat, no: OrderNo)
    | OrderReserved(user: UserId, a: nat, snapshot: Activity, no: OrderNo)
    | CheckoutCart(user: UserId, address: nat, uc: nat, no: OrderNo)
    | ClaimCoupon(user: UserId, c: nat, uc: nat)
    | ProcessOrder(no: OrderNo)
    | PaymentCallback(no: OrderNo, txn: TransactionNo, status: string)
    | CancelOrder(user: UserId, no: OrderNo)
    | ExpireOrder(no: OrderNo)
    | RequeueOrder(no: OrderNo, at: int)
    | CloseUnpaidOrder(no: OrderNo)
    | EndActivityAt(a: nat)

  function DbNext(db: Db, st: DbStep): Db {
    match st
    case Tick(d) => db.(now := db.now + d)
    case AddProduct(p, price, stock) => After(db, CreateProduct(db, p, price, stock))
    case AddActivity(a, p, price, stock, seconds) => After(db, CreateActivity(db, a, p, price, stock, seconds))
    case SetActivityStatus(a, s) => After(db, UpdateActivityStatus(db, a, s))
    case AddCoupon(c, t, d, stock, seconds) => After(db, CreateCoupon(db, c, t, d, stock, seconds))
    case AddAddress(address, user) => db.(addresses := db.addresses + {(address, user)})
    case PutCart(user, cart) => db.(carts := db.carts[user := cart])
    case OrderDirect(user, a, no) => After(db, CreateDirect(db, user, a, no))
    case OrderReserved(user, a, snapshot, no) => After(db, CreateReserved(db, user, a, snapshot, no))
    case CheckoutCart(user, address, uc, no) => After(db, Checkout(db, user, address, uc, no))
    case ClaimCoupon(user, c, uc) => After(db, Claim(db, user, c, uc))
    case ProcessOrder(no) => After(db, Process(db, no))
    case PaymentCallback(no, txn, status) => After(db, Pay(db, no, txn, status))
    case CancelOrder(user, no) => After(db, Cancel(db, user, no))
    case ExpireOrder(no) => After(db, Expire(db, no))
    // The compensation pass reads the clock before it writes the stamp.
    case RequeueOrder(no, at) => if at <= db.now then After(db, Requeue(db, no, at)) else db
    case CloseUnpaidOrder(no) => After(db, CloseUnpaid(db, no))
    case EndActivityAt(a) => After(db, EndActivity(db, a))
  }

  function DbRun(db: Db, steps: seq<DbStep>): Db
    decreases |steps|
  {
    if steps == [] then db else DbRun(DbNext(db, steps[0]), steps[1..])
  }

  function EmptyDb(now: int): Db {
    Db(now, map[], map[], map[], [], map[], {}, map[], map[], map[], multiset{})
  }
}
