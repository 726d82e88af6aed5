/**
  Why an order came to be and why its status moved: over every run each change
  has its own transaction, made by whom it may be made and under its condition.
 */
module Causes {
  import opened Model
  import opened Ledger
  import opened ActivityStock
  import opened Lifecycle
  import opened Terms
  import C = Cart

  // ---------- one step ----------

  /** The step moves the order to status `s`, from a status and by a transaction that may do so. */
  ghost predicate Caused(db: Db, st: DbStep, no: OrderNo, s: OrderStatus)
    requires no in db.orders
  {
    var was := db.orders[no].status;
    match s
    case Queued => false
    case WaitPay => was == Queued && st == ProcessOrder(no)
    case Paid =>
      && was == WaitPay && st.PaymentCallback? && st.no == no && st.status == "SUCCESS" && st.txn !in db.payments
    case Cancelled => (was == Queued || was == WaitPay) && st == CancelOrder(db.orders[no].user, no)
    case Closed =>
      || ((was == Queued || was == WaitPay) && st == ExpireOrder(no))
      || (was == WaitPay && st == CloseUnpaidOrder(no))
  }

  /** The step writes a new order, `o`, which is what its transaction sells. */
  ghost predicate Born(db: Db, st: DbStep, no: OrderNo, o: Order) {
    match st
    case OrderDirect(user, a, no') =>
      no' == no && OpenFor(db, a) && !Ordered(db, user, a) && NewFor(db, o, user, a) && AtPrice(o, db.activities[a])
    case OrderReserved(user, a, snapshot, no') =>
      no' == no && OpenFor(db, a) && !Ordered(db, user, a) && NewFor(db, o, user, a) && AtPrice(o, snapshot)
    case CheckoutCart(user, address, uc, no') =>
      && no' == no && (address, user) in db.addresses && C.InStock(db.products, CartRows(db, user))
      && CouponFits(db, user, uc, C.Cost(db.products, CartRows(db, user)))
      && BoughtFor(db, o, user, address, uc, CartRows(db, user), o.discountAmount)
    case _ => false
  }

  /** The order's row after one step, while it exists. */
  ghost predicate Moves(db: Db, db': Db, no: OrderNo, s: OrderStatus) {
    no in db.orders && no in db'.orders && db.orders[no].status != s && db'.orders[no].status == s
  }

  lemma SaleAside(db: Db, st: DbStep, no: OrderNo)
    requires st.OrderDirect? || st.OrderReserved? || st.CheckoutCart?
    ensures no in db.orders ==> no in DbNext(db, st).orders && DbNext(db, st).orders[no] == db.orders[no]
    ensures no !in db.orders && no in DbNext(db, st).orders ==> st.no == no
  {
    hide CreateDirect, CreateReserved, Checkout, NewFor, AtPrice, C.RowsFor, C.Taken, BoughtFor, CouponSpent;
    match st
    case OrderDirect(user, a, n) => if CreateDirect(db, user, a, n).Commit? { DirectSells(db, user, a, n); }
    case OrderReserved(user, a, row, n) =>
      if CreateReserved(db, user, a, row, n).Commit? { ReservedSells(db, user, a, row, n); }
    case CheckoutCart(user, address, uc, n) =>
      if Checkout(db, user, address, uc, n).Commit? { CheckoutBuys(db, user, address, uc, n); }
  }

  /** The step writes at most this order row. */
  ghost predicate OneRow(db: Db, db': Db, n: OrderNo) {
    n in db.orders && n in db'.orders && db'.orders == db.orders[n := db'.orders[n]]
  }

  lemma OneRowMoves(db: Db, db': Db, n: OrderNo, no: OrderNo, s: OrderStatus)
    requires OneRow(db, db', n) && no in db.orders
    ensures db'.orders.Keys == db.orders.Keys
    ensures Moves(db, db', no, s) <==> no == n && db.orders[n].status != s && db'.orders[n].status == s
  {
  }

  lemma GivenRow(db: Db, db': Db, n: OrderNo, s: OrderStatus)
    requires n in db.orders && GivesBack(db, db', n, s)
    ensures OneRow(db, db', n) && db'.orders[n].status == s
  {
    hide C.UnitsOf;
  }

  lemma RestoreCause(db: Db, st: DbStep, no: OrderNo, s: OrderStatus)
    requires C.CartOk(db) && StockOk(db) && no in db.orders
    requires st.CancelOrder? || st.ExpireOrder? || st.CloseUnpaidOrder?
    ensures DbNext(db, st).orders.Keys == db.orders.Keys
    ensures Moves(db, DbNext(db, st), no, s) <==> Caused(db, st, no, s)
  {
    hide C.CartOk, StockOk, Cancel, Expire, CloseUnpaid, GivesBack, OneRow, Moves;
    var db', n := DbNext(db, st), st.no;
    match st {
      case CancelOrder(user, _) => CancelAnswers(db, user, n);
      case ExpireOrder(_) => ExpireAnswers(db, n);
      case CloseUnpaidOrder(_) => CloseAnswers(db, n);
    }
    NothingMoves(db, no, s);
    if n in db.orders {
      var to := if st.CancelOrder? then Cancelled else Closed;
      if GivesBack(db, db', n, to) {
        GivenRow(db, db', n, to);
        OneRowMoves(db, db', n, no, s);
      }
    }
  }

  lemma NothingMoves(db: Db, no: OrderNo, s: OrderStatus)
    ensures !Moves(db, db, no, s)
  {
  }

  lemma OtherCause(db: Db, st: DbStep, no: OrderNo, s: OrderStatus)
    requires no in db.orders
    requires st.ProcessOrder? || st.RequeueOrder? || st.PaymentCallback?
    ensures DbNext(db, st).orders.Keys == db.orders.Keys
    ensures Moves(db, DbNext(db, st), no, s) <==> Caused(db, st, no, s)
  {
    hide Moves, OneRow, DbNext;
    var db', n := DbNext(db, st), st.no;
    NothingMoves(db, no, s);
    StepRow(db, st);
    if db'.orders != db.orders {
      OneRowMoves(db, db', n, no, s);
    } else {
      SameRows(db, db', no, s);
    }
  }

  lemma SameRows(db: Db, db': Db, no: OrderNo, s: OrderStatus)
    requires db'.orders == db.orders
    ensures !Moves(db, db', no, s)
  {
  }

  /** The row a worker, a requeue or a callback writes. */
  lemma StepRow(db: Db, st: DbStep)
    requires st.ProcessOrder? || st.RequeueOrder? || st.PaymentCallback?
    ensures var db', n := DbNext(db, st), st.no;
            && (db'.orders == db.orders || OneRow(db, db', n))
            && (n in db.orders ==> n in db'.orders && db'.orders[n].status == StatusAfter(db, st))
  {
    hide DbNext, OneRow;
    if st.PaymentCallback? { CallbackRow(db, st); } else { QueueRow(db, st); }
  }

  function StatusAfter(db: Db, st: DbStep): OrderStatus
    requires (st.ProcessOrder? || st.RequeueOrder? || st.PaymentCallback?) && st.no in db.orders
  {
    var was := db.orders[st.no].status;
    if st.PaymentCallback? && st.status == "SUCCESS" && st.txn !in db.payments && was == WaitPay then Paid
    else if st.ProcessOrder? && was == Queued then WaitPay
    else was
  }

  lemma CallbackRow(db: Db, st: DbStep)
    requires st.PaymentCallback?
    ensures var db', n := DbNext(db, st), st.no;
            && (db'.orders == db.orders || OneRow(db, db', n))
            && (n in db.orders ==> n in db'.orders && db'.orders[n].status == StatusAfter(db, st))
  {
    hide Pay;
    PayAnswers(db, st.no, st.txn, st.status);
  }

  lemma QueueRow(db: Db, st: DbStep)
    requires st.ProcessOrder? || st.RequeueOrder?
    ensures var db', n := DbNext(db, st), st.no;
            && (db'.orders == db.orders || OneRow(db, db', n))
            && (n in db.orders ==> n in db'.orders && db'.orders[n].status == StatusAfter(db, st))
  {
    hide Process, Requeue;
    QueueAnswers(db, st.no, if st.RequeueOrder? then st.at else 0);
  }

  predicate TouchesOrders(st: DbStep) {
    || st.OrderDirect? || st.OrderReserved? || st.CheckoutCart? || st.CancelOrder? || st.ExpireOrder?
    || st.CloseUnpaidOrder? || st.ProcessOrder? || st.RequeueOrder? || st.PaymentCallback?
  }

  lemma OrdersAside(db: Db, st: DbStep)
    requires !TouchesOrders(st)
    ensures DbNext(db, st).orders == db.orders
  {
    hide HasClaim;
  }

  /**
    The status table, exactly: a step moves an existing order to a status if and
    only if it is the transaction for that move, the order is where the move
    starts, and for a cancel the user is its owner.
   */
  lemma StatusCause(db: Db, st: DbStep, no: OrderNo, s: OrderStatus)
    requires C.CartOk(db) && StockOk(db) && no in db.orders
    ensures no in DbNext(db, st).orders
    ensures Moves(db, DbNext(db, st), no, s) <==> Caused(db, st, no, s)
  {
    hide DbNext, C.CartOk, StockOk;
    if !TouchesOrders(st) {
      OrdersAside(db, st);
    } else if st.OrderDirect? || st.OrderReserved? || st.CheckoutCart? {
      SaleAside(db, st, no);
    } else if st.CancelOrder? || st.ExpireOrder? || st.CloseUnpaidOrder? {
      RestoreCause(db, st, no, s);
    } else {
      OtherCause(db, st, no, s);
    }
  }

  lemma SaleIsBirth(db: Db, st: DbStep, no: OrderNo)
    requires C.CartOk(db) && StockOk(db) && no !in db.orders
    requires st.OrderDirect? || st.OrderReserved? || st.CheckoutCart?
    requires no in DbNext(db, st).orders
    ensures Born(db, st, no, DbNext(db, st).orders[no])
  {
    hide CreateDirect, CreateReserved, Checkout, C.RowsFor, C.Taken, C.InStock, C.Cost, CouponSpent, CouponFits;
    hide C.CartOk, StockOk, Ordered, OpenFor, AtPrice, BoughtFor, NewFor;
    SaleAside(db, st, no);
    match st
    case OrderDirect(user, a, _) => DirectAnswers(db, user, a, no);
    case OrderReserved(user, a, row, _) => ReservedAnswers(db, user, a, row, no);
    case CheckoutCart(user, address, uc, _) => CheckoutAnswers(db, user, address, uc, no);
  }

  /**
    An order comes to be only by a create or a checkout, as what it sells, in an
    open activity or from a known address.
   */
  lemma BirthCause(db: Db, st: DbStep, no: OrderNo)
    requires C.CartOk(db) && StockOk(db) && no !in db.orders && no in DbNext(db, st).orders
    ensures Born(db, st, no, DbNext(db, st).orders[no])
  {
    hide DbNext, C.CartOk, StockOk, Born;
    if !TouchesOrders(st) {
      OrdersAside(db, st);
    } else if st.OrderDirect? || st.OrderReserved? || st.CheckoutCart? {
      SaleIsBirth(db, st, no);
    } else {
      NoBirth(db, st);
    }
  }

  lemma NoBirth(db: Db, st: DbStep)
    requires C.CartOk(db) && StockOk(db)
    requires TouchesOrders(st) && !(st.OrderDirect? || st.OrderReserved? || st.CheckoutCart?)
    ensures DbNext(db, st).orders.Keys <= db.orders.Keys
  {
    hide C.CartOk, StockOk, Caused, Moves, RestoreStock;
    if st.no in db.orders {
      hide DbNext;
      if st.CancelOrder? || st.ExpireOrder? || st.CloseUnpaidOrder? {
        RestoreCause(db, st, st.no, Queued);
      } else {
        OtherCause(db, st, st.no, Queued);
      }
    }
  }

  // ---------- whole runs ----------

  ghost predicate CausedAt(db: Db, steps: seq<DbStep>, i: nat, no: OrderNo, s: OrderStatus) {
    i < |steps| &&
    var at := DbRun(db, steps[..i]);
    no in at.orders && Caused(at, steps[i], no, s) && Moves(at, DbRun(db, steps[..i + 1]), no, s)
  }

  lemma ShiftRun(db: Db, steps: seq<DbStep>, j: nat)
    requires steps != [] && j <= |steps| - 1
    ensures DbRun(db, steps[..j + 1]) == DbRun(DbNext(db, steps[0]), steps[1..][..j])
  {
    hide DbNext;
    assert steps[..j + 1][0] == steps[0] && steps[..j + 1][1..] == steps[1..][..j];
  }

  /**
    Over every run, a status an order ends with and did not start with has its
    cause at some step of the run; orders that are new in the run included, if
    the status is final.
   */
  lemma {:induction false} CauseInRun(db: Db, steps: seq<DbStep>, no: OrderNo) returns (i: nat)
    requires C.CartOk(db) && StockOk(db) && no in DbRun(db, steps).orders
    requires var s := DbRun(db, steps).orders[no].status;
             if no in db.orders then db.orders[no].status != s else s != Queued && s != WaitPay
    ensures CausedAt(db, steps, i, no, DbRun(db, steps).orders[no].status)
    decreases |steps|
  {
    hide DbNext, C.CartOk, StockOk, Caused, Born;
    var next, s := DbNext(db, steps[0]), DbRun(db, steps).orders[no].status;
    C.StepKept(db, steps[0]);
    StepCartOk(db, steps[0]);
    if no in db.orders { StatusCause(db, steps[0], no, s); }
    if no !in db.orders && no in next.orders { BirthIsOpen(db, steps[0], no); }
    if no in db.orders && next.orders[no].status == s {
      i := 0;
      ShiftRun(db, steps, 0);
      assert DbRun(db, steps[..0]) == db && DbRun(next, steps[1..][..0]) == next;
    } else {
      var j := CauseInRun(next, steps[1..], no);
      i := j + 1;
      ShiftRun(db, steps, j);
      ShiftRun(db, steps, j + 1);
    }
  }

  lemma StepCartOk(db: Db, st: DbStep)
    requires C.CartKept(db, DbNext(db, st))
    ensures C.CartOk(DbNext(db, st))
  {
  }

  lemma BirthIsOpen(db: Db, st: DbStep, no: OrderNo)
    requires C.CartOk(db) && StockOk(db) && no !in db.orders && no in DbNext(db, st).orders
    ensures DbNext(db, st).orders[no].status == Queued || DbNext(db, st).orders[no].status == WaitPay
  {
    hide DbNext, C.CartOk, StockOk;
    BirthCause(db, st, no);
  }

  /**
    So over every run a cancelled order was cancelled by its own user, a paid one
    by a first SUCCESS callback for it, and a closed one by an expiry or a
    compensation row, each while it was open.
   */
  lemma CancelledByOwner(db: Db, steps: seq<DbStep>, no: OrderNo) returns (i: nat)
    requires C.CartOk(db) && StockOk(db) && no in DbRun(db, steps).orders
    requires no in db.orders ==> db.orders[no].status != Cancelled
    requires DbRun(db, steps).orders[no].status == Cancelled
    ensures i < |steps| && steps[i] == CancelOrder(DbRun(db, steps).orders[no].user, no)
    ensures OpenOrder(DbRun(db, steps[..i]), no)
  {
    hide DbRun, C.CartOk, StockOk, DbNext;
    i := CauseInRun(db, steps, no);
    var at := DbRun(db, steps[..i]);
    RunFrom(db, steps, i);
    RunClimbs(at, steps[i..]);
  }

  lemma {:induction false} RunFrom(db: Db, steps: seq<DbStep>, i: nat)
    requires i <= |steps|
    ensures DbRun(DbRun(db, steps[..i]), steps[i..]) == DbRun(db, steps)
    decreases i
  {
    hide DbNext;
    if i == 0 {
      assert steps[0..] == steps;
    } else {
      RunFrom(DbNext(db, steps[0]), steps[1..], i - 1);
      ShiftRun(db, steps, i - 1);
      assert steps[1..][i - 1..] == steps[i..];
    }
  }
}
