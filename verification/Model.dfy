/** Rows of the order database, the status constants and the orderable check. */
module Model {
  import opened Keys

  /** Ids handed out by authentication are never zero. */
  type UserId = n: nat | 0 < n witness 1
  type OrderNo = string
  type TransactionNo = string

  datatype OrderStatus = Queued | WaitPay | Paid | Cancelled | Closed

  /** `Blank` is the empty status of rows older than the status column. */
  datatype ActivityStatus = Blank | Published | Offline | Ended

  datatype UserCouponStatus = Unused | Used | Expired

  datatype Product = Product(price: int, stock: int)

  datatype Activity = Activity(
    productId: nat, price: int, stock: int, status: ActivityStatus, startAt: int, endAt: int)

  /** `activityId == 0` marks a cart order. */
  datatype Order = Order(
    user: UserId, activityId: nat, productId: nat, key: Option<string>,
    addressId: nat, userCouponId: nat,
    originalAmount: int, discountAmount: int, amount: int,
    status: OrderStatus, createdAt: int, updatedAt: int)

  datatype OrderItem = OrderItem(orderNo: OrderNo, productId: nat, price: int, quantity: int)

  datatype CartItem = CartItem(productId: nat, quantity: int)

  datatype Coupon = Coupon(threshold: int, discount: int, stock: int, startAt: int, endAt: int)

  datatype UserCoupon = UserCoupon(user: UserId, couponId: nat, status: UserCouponStatus)

  datatype Payment = Payment(orderNo: OrderNo, status: string)

  const SUCCESS := "SUCCESS"

  /**
    The committed database. `now` is the wall clock. `returned` is a history
    variable: the orders whose stock has been given back, with multiplicity.
   */
  datatype Db = Db(
    now: int,
    products: map<nat, Product>,
    activities: map<nat, Activity>,
    orders: map<OrderNo, Order>,
    items: seq<OrderItem>,
    carts: map<UserId, seq<CartItem>>,
    addresses: set<(nat, UserId)>,
    coupons: map<nat, Coupon>,
    userCoupons: map<nat, UserCoupon>,
    payments: map<TransactionNo, Payment>,
    returned: multiset<OrderNo>)

  datatype Error =
    | ActivityNotFound | ActivityNotAvailable | SoldOut | DuplicateOrder
    | OrderNotFound | IllegalTransition
    | AddressNotFound | CartEmpty | InvalidQuantity | ProductNotFound | StockNotEnough
    | CouponNotFound | CouponNotUnused | CouponExpired | ThresholdNotReached
    | CouponNotActive | CouponSoldOut | CouponAlreadyClaimed
    | InvalidInput | StoreFault

  datatype Result<+T> = Ok(value: T) | Err(error: Error)

  /** What a transaction leaves: a new committed database and a value, or an error and no change. */
  datatype Tx<+T> = Commit(db: Db, value: T) | Rollback(error: Error)

  function After<T>(db: Db, tx: Tx<T>): Db {
    match tx
    case Commit(db', _) => db'
    case Rollback(_) => db
  }

  function Bit(b: bool): nat {
    if b then 1 else 0
  }

  predicate InProgress(s: OrderStatus) {
    s == Queued || s == WaitPay
  }

  /** The order still holds its stock. */
  predicate Active(s: OrderStatus) {
    InProgress(s) || s == Paid
  }

  function Rank(s: OrderStatus): nat {
    match s
    case Queued => 0
    case WaitPay => 1
    case _ => 2
  }

  predicate Orderable(a: Activity, now: int) {
    (a.status == Published || a.status == Blank) && a.startAt <= now <= a.endAt
  }
}
