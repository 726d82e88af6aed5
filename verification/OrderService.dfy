/**
  The order service as it is written: methods that read rows, work on a
  transaction's copy, call the stock cache and commit. Every method is proved to
  perform steps of the protocol, with the steps of other clients in between.
 */
module OrderService {
  import opened Keys
  import opened Model
  import opened Ledger
  import opened RedisStock
  import opened ActivityStock
  import opened Protocol
  import opened ProtocolSafety
  import opened ProtocolDb
  import opened RepairLoops
  import opened CreatePaths
  import opened Recovery
  import opened Clients
  import opened Passes
  import opened Terms
  import C = Cart

  // ---------- the loops of one transaction ----------

  /** The restore of one order on the transaction's copy. */
  method RestoreStockIn(tx: Db, no: OrderNo, o: Order) returns (r: Tx<()>)
    ensures r == RestoreStock(tx, no, o)
  {
    if o.activityId > 0 {
      if o.activityId !in tx.activities {
        return Rollback(StoreFault);
      }
      var row := tx.activities[o.activityId];
      var db := tx.(activities := tx.activities[o.activityId := row.(stock := row.stock + 1)]);
      return Commit(db.(returned := db.returned + multiset{no}), ());
    }
    var rows := RowsOf(tx.items, no);
    var products: map<nat, Product> := tx.products;
    for i := 0 to |rows|
      invariant RestoreItems(products, rows[i..]) == RestoreItems(tx.products, rows)
    {
      if rows[i].productId !in products {
        return Rollback(StoreFault);
      }
      var p := products[rows[i].productId];
      assert rows[i..][1..] == rows[i + 1..];
      products := products[rows[i].productId := p.(stock := p.stock + rows[i].quantity)];
    }
    return Commit(tx.(products := products, returned := tx.returned + multiset{no}), ());
  }

  function Plus(sum: int, r: Result<(map<nat, Product>, int)>): Result<(map<nat, Product>, int)> {
    match r
    case Ok((left, more)) => Ok((left, sum + more))
    case Err(e) => Err(e)
  }

  /** The stock loop of a checkout. */
  method TakeItemsIn(tx: Db, cart: seq<CartItem>) returns (r: Result<(map<nat, Product>, int)>)
    ensures r == TakeItems(tx.products, cart)
    ensures r.Ok? <==> C.InStock(tx.products, cart)
    ensures r.Ok? ==> C.Taken(tx.products, r.value.0, cart) && r.value.1 == C.Cost(tx.products, cart)
    ensures r.Err? ==> C.ItemsFail(tx.products, cart, r.error)
  {
    hide C.InStock, C.Taken, C.Cost, C.ItemsFail;
    C.TakeItemsDecides(tx.products, cart);
    var products: map<nat, Product>, sum: int := tx.products, 0;
    for i := 0 to |cart|
      invariant Plus(sum, TakeItems(products, cart[i..])) == TakeItems(tx.products, cart)
    {
      assert cart[i..][1..] == cart[i + 1..];
      if cart[i].quantity <= 0 {
        return Err(InvalidQuantity);
      }
      if cart[i].productId !in products {
        return Err(ProductNotFound);
      }
      var p := products[cart[i].productId];
      if p.stock < cart[i].quantity {
        return Err(StockNotEnough);
      }
      products := products[cart[i].productId := p.(stock := p.stock - cart[i].quantity)];
      sum := sum + p.price * cart[i].quantity;
    }
    return Ok((products, sum));
  }

  /** The loop that writes the order items. */
  method ItemRowsIn(tx: Db, no: OrderNo, cart: seq<CartItem>) returns (rows: seq<OrderItem>)
    ensures rows == ItemRows(tx.products, no, cart)
    ensures (forall i :: 0 <= i < |cart| ==> cart[i].productId in tx.products) ==>
      C.RowsFor(tx.products, no, cart, rows)
  {
    rows := [];
    for i := 0 to |cart|
      invariant rows + ItemRows(tx.products, no, cart[i..]) == ItemRows(tx.products, no, cart)
    {
      var item := OrderItem(no, cart[i].productId, PriceOf(tx.products, cart[i].productId), cart[i].quantity);
      NextItemRow(tx.products, no, cart, i, rows, item);
      rows := rows + [item];
    }
    if forall i :: 0 <= i < |cart| ==> cart[i].productId in tx.products { C.ItemRowsAre(tx.products, no, cart); }
  }

  lemma NextItemRow(products: map<nat, Product>, no: OrderNo, cart: seq<CartItem>, i: nat, rows: seq<OrderItem>,
      item: OrderItem)
    requires i < |cart|
    requires item == OrderItem(no, cart[i].productId, PriceOf(products, cart[i].productId), cart[i].quantity)
    ensures rows + ItemRows(products, no, cart[i..]) == rows + [item] + ItemRows(products, no, cart[i + 1..])
  {
    assert cart[i..][1..] == cart[i + 1..];
  }

  /** The coupon part of a checkout. The save of the expired branch is rolled back with everything else. */
  method ApplyCouponIn(tx: Db, user: UserId, uc: nat, original: int) returns (r: Result<(map<nat, UserCoupon>, int)>)
    ensures r == ApplyCoupon(tx, user, uc, original)
    ensures CouponAnswer(tx, user, uc, original, r)
  {
    hide CouponAnswer;
    CouponAnswers(tx, user, uc, original);
    var rows: map<nat, UserCoupon> := tx.userCoupons;
    if uc == 0 { return Ok((rows, 0)); }
    if uc !in rows || rows[uc].user != user { return Err(CouponNotFound); }
    if rows[uc].status != Unused { return Err(CouponNotUnused); }
    if rows[uc].couponId !in tx.coupons { return Err(CouponExpired); }
    var coupon := tx.coupons[rows[uc].couponId];
    if tx.now < coupon.startAt || coupon.endAt < tx.now {
      rows := rows[uc := rows[uc].(status := Expired)];
      return Err(CouponExpired);
    }
    if original < coupon.threshold { return Err(ThresholdNotReached); }
    rows := rows[uc := rows[uc].(status := Used)];
    return Ok((rows, coupon.discount));
  }

  /** Only the owner of an open order cancels it; what then happens is decided by how the transaction ends. */
  ghost predicate CancelDone(db: Db, user: UserId, no: OrderNo, f: Fate, r: Result<OrderStatus>, db': Db) {
    var may := OwnOrder(db, user, no) && OpenOrder(db, no);
    && (r == Err(OrderNotFound) <==> !OwnOrder(db, user, no))
    && (r == Err(IllegalTransition) <==> OwnOrder(db, user, no) && !OpenOrder(db, no))
    && (may ==> r == if f == Fine then Ok(Cancelled) else Err(StoreFault))
    && (if may && Lands(f) then GivesBack(db, db', no, Cancelled) else db' == db)
  }

  lemma CancelDecides(db: Db, user: UserId, no: OrderNo, f: Fate)
    requires DbOk(db)
    ensures var tx := Cancel(db, user, no);
            var r := if tx.Rollback? then Err(tx.error) else if f == Fine then Ok(Cancelled) else Err(StoreFault);
            CancelDone(db, user, no, f, r, if Lands(f) then After(db, tx) else db)
  {
    hide Cancel, GivesBack, C.CartOk, StockOk;
    CancelAnswers(db, user, no);
  }

  // ---------- the service ----------

  class OrderService {
    var db: Db
    var redis: Redis
    var requests: map<nat, Request>
    var held: Option<Held>
    var prewarms: map<nat, int>
    /** Tasks published and not yet consumed. */
    var tasks: seq<OrderNo>

    function Here(): World
      reads this
    {
      World(db, redis, requests, held, prewarms)
    }

    constructor (now: int)
      ensures Here() == World(EmptyDb(now), Redis(map[], map[]), map[], None, map[]) && tasks == []
    {
      db, redis, requests, held, prewarms, tasks := EmptyDb(now), Redis(map[], map[]), map[], None, map[], [];
    }

    /** What everyone else does meanwhile. */
    method Interfere(steps: seq<Step>)
      modifies this
      ensures Here() == Exec(old(Here()), steps) && tasks == old(tasks)
    {
      var w := Exec(Here(), steps);
      db, redis, requests, held, prewarms := w.db, w.redis, w.requests, w.held, w.prewarms;
    }

    /** A transaction starts when the one holding the database has ended. */
    method WaitForDb()
      modifies this
      ensures Here() == Next(old(Here()), RestoreCommit) && held == None && tasks == old(tasks)
    {
      if held.Some? {
        db := After(db, RestoreTx(db, held.value.who, held.value.no));
        held := None;
      }
    }

    // ---------- creating ----------

    method CreateOrderWithDB(user: UserId, a: nat, no: OrderNo) returns (r: Result<(Order, int)>)
      modifies this
      ensures (db, r) == RunDirect(old(db), user, a, no)
      ensures r.Ok? ==> DirectSale(old(db), user, a, no, AsTx(r, db))
      ensures StockOk(old(db)) ==> DirectAnswer(old(db), user, a, no, AsTx(r, db))
      ensures r.Err? ==> db == old(db)
      ensures Here() == old(Here()).(db := db)
      ensures tasks == old(tasks) + if r.Ok? then [no] else []
    {
      hide DirectAnswer, DirectSale, StockOk;
      if CreateDirect(db, user, a, no).Commit? { DirectSells(db, user, a, no); }
      if StockOk(db) { DirectAnswers(db, user, a, no); }
      var tx := db;
      if a !in tx.activities { return Err(ActivityNotFound); }
      var activity := tx.activities[a];
      if !Orderable(activity, tx.now) { return Err(ActivityNotAvailable); }
      if activity.stock <= 0 { return Err(SoldOut); }
      if HasOrder(tx, user, a) { return Err(DuplicateOrder); }
      activity := activity.(stock := activity.stock - 1);
      tx := tx.(activities := tx.activities[a := activity]);
      var order := NewActivityOrder(tx.now, user, a, activity);
      if no in tx.orders { return Err(StoreFault); }
      if KeyTaken(tx.orders, order.key) { return Err(DuplicateOrder); }
      tx := tx.(orders := tx.orders[no := order]);
      db := tx;
      tasks := tasks + [no];
      return Ok((order, activity.stock));
    }

    /** The transaction after a successful Reserve, statement by statement. */
    method InsertReserved(user: UserId, a: nat, activity: Activity, no: OrderNo) returns (r: Tx<Order>)
      ensures r == CreateReserved(db, user, a, activity, no)
      ensures r.Commit? ==> ReservedSale(db, user, a, activity, no, r)
      ensures StockOk(db) ==> ReservedAnswer(db, user, a, activity, no, r)
    {
      hide ReservedAnswer, ReservedSale, StockOk;
      if CreateReserved(db, user, a, activity, no).Commit? { ReservedSells(db, user, a, activity, no); }
      if StockOk(db) { ReservedAnswers(db, user, a, activity, no); }
      var tx := db;
      if HasOrder(tx, user, a) { return Rollback(DuplicateOrder); }
      var updated := false;
      if a in tx.activities && tx.activities[a].stock > 0 && Orderable(tx.activities[a], tx.now) {
        var row := tx.activities[a];
        tx := tx.(activities := tx.activities[a := row.(stock := row.stock - 1)]);
        updated := true;
      }
      if !updated {
        if a in tx.activities && tx.activities[a].stock <= 0 { return Rollback(SoldOut); }
        return Rollback(ActivityNotAvailable);
      }
      var order := NewActivityOrder(tx.now, user, a, activity);
      if no in tx.orders { return Rollback(StoreFault); }
      if KeyTaken(tx.orders, order.key) { return Rollback(DuplicateOrder); }
      return Commit(tx.(orders := tx.orders[no := order]), order);
    }

    /** The check in front of the cache. */
    method LoadActivity(r: nat, user: UserId, a: nat) returns (e: Option<Error>)
      requires r !in requests
      modifies this
      ensures Here() == Next(old(Here()), Begin(r, user, a)) && tasks == old(tasks)
      ensures e == Turned(old(db), a)
      ensures e == None ==>
        && a in old(db.activities) && r in requests
        && requests[r] == Request(user, a, old(db.activities)[a], Loaded)
      ensures e.Some? ==> Here() == old(Here())
    {
      if a !in db.activities { return Some(ActivityNotFound); }
      var activity := db.activities[a];
      if !Orderable(activity, db.now) { return Some(ActivityNotAvailable); }
      requests := requests[r := Request(user, a, activity, Loaded)];
      return None;
    }

    method ReserveFor(r: nat, call: Call) returns (res: Result<int>)
      requires r in requests && requests[r].phase == Loaded
      modifies this
      ensures Here() == Next(old(Here()), ReserveCall(r, call)) && tasks == old(tasks)
      ensures res == ReserveAnswer(old(Here()), r, call)
      ensures res.Ok? ==> r in requests && requests[r] == old(requests[r]).(phase := Marked)
      ensures res.Ok? ==>
        var a := old(requests[r]).activityId;
        a in redis.stock && res.value == redis.stock[a]
      ensures res.Err? ==> r !in requests
    {
      var q := requests[r];
      if call == NotSent {
        requests := requests - {r};
        return Err(StoreFault);
      }
      var (store, reply) := ReserveScript(redis, q.activityId, q.snapshot.stock, q.user);
      redis := store;
      if call == Answered && reply.code == TAKEN {
        requests := requests[r := q.(phase := Marked)];
        return Ok(reply.left);
      }
      requests := requests - {r};
      return Err(if call == ReplyLost then StoreFault else if reply.code == ALREADY then DuplicateOrder else SoldOut);
    }

    method CommitFor(r: nat, no: OrderNo, call: Call) returns (res: Result<Order>)
      requires r in requests && requests[r].phase == Marked && held == None
      modifies this
      ensures Here() == Next(old(Here()), CommitCall(r, no, call)) && tasks == old(tasks)
      ensures res == CommitAnswer(old(Here()), r, no, call)
      ensures res.Ok? ==> r !in requests && no in db.orders && db.orders[no] == res.value
      ensures res.Ok? ==>
        var q := old(requests[r]);
        ReservedSale(old(db), q.user, q.activityId, q.snapshot, no, AsTx(res, db))
      ensures res.Err? ==> Releasing(Here(), r)
    {
      var q := requests[r];
      if call == NotSent {
        requests := requests[r := q.(phase := Refused)];
        return Err(StoreFault);
      }
      hide ReservedSale, ReservedAnswer, StockOk, Next;
      CommitIs(Here(), r, no, call);
      var placed := InsertReserved(q.user, q.activityId, q.snapshot, no);
      match placed
      case Commit(after, o) =>
        db := after;
        if call == ReplyLost {
          requests := requests[r := q.(phase := Astray)];
          return Err(StoreFault);
        }
        requests := requests - {r};
        return Ok(o);
      case Rollback(e) =>
        requests := requests[r := q.(phase := Refused)];
        return Err(e);
    }

    method ReleaseFor(r: nat, call: Call)
      requires Releasing(Here(), r)
      modifies this
      ensures Here() == Next(old(Here()), ReleaseCall(r, call)) && tasks == old(tasks) && r !in requests
      ensures var q := old(requests[r]);
              redis == if call == NotSent then old(redis) else ReleaseScript(old(redis), q.activityId, q.user)
    {
      if call != NotSent {
        redis := ReleaseScript(redis, requests[r].activityId, requests[r].user);
      }
      requests := requests - {r};
    }

    /**
      One create request with the cache. `env1` runs between the read and the
      Reserve, `env2` before the transaction, `env3` before the release, and
      `calls` says how each call ends. The answer and the steps the request runs
      are those of its outcome: turned away, not reserved, placed, or refused and
      released. It leaves no request behind and publishes the order exactly when
      it succeeds.
     */
    method CreateOrderWithRedis(r: nat, user: UserId, a: nat, no: OrderNo, calls: Calls,
            env1: seq<Step>, env2: seq<Step>, env3: seq<Step>)
        returns (res: Result<(Order, int)>, ghost trace: seq<Step>)
      requires r !in requests
      requires Others(env1, r) && Others(env2, r) && Others(env3, r)
      modifies this
      ensures var (answer, length) := CreateOutcome(old(Here()), r, user, a, no, calls, env1, env2, env3);
              var whole := CreateTrace(r, user, a, no, calls, env1, env2, env3);
              && res == answer
              && length <= |whole| && trace == whole[..length]
      ensures Here() == Exec(old(Here()), trace)
      ensures r !in requests
      ensures res.Ok? ==> no in db.orders && db.orders[no] == res.value.0
      ensures res.Ok? ==>
        // The sale is made of the world the commit found, at the price of the row the request read.
        var at := AtCommit(old(Here()), r, user, a, calls, env1, env2);
        a in old(db.activities) && ReservedSale(at.db, user, a, old(db.activities)[a], no, Commit(db, res.value.0))
      ensures res.Ok? ==> AtPrice(res.value.0, old(db.activities)[a])
      ensures res.Ok? ==>
        // The stock reported is the counter right after the request's own Reserve.
        var reserved := Exec(old(Here()), trace[..2 + |env1|]);
        a in reserved.redis.stock && res.value.1 == reserved.redis.stock[a]
      ensures tasks == old(tasks) + if res.Ok? then [no] else []
    {
      hide Next, Exec, CreateTrace, ReserveCall, CommitCall, ReleaseCall, ReserveAnswer, CommitAnswer;
      ghost var w0 := Here();
      ghost var whole := CreateTrace(r, user, a, no, calls, env1, env2, env3);
      TraceParts(w0, r, user, a, no, calls, env1, env2, env3);
      trace := [];
      ExecNothing(w0);
      var failure := LoadActivity(r, user, a);
      if failure.Some? { return Err(failure.value), trace; }
      OthersKeep(Here(), env1, r);
      Interfere(env1);
      var reserved := ReserveFor(r, calls.reserve);
      if reserved.Err? {
        trace := whole[..2 + |env1|];
        return Err(reserved.error), trace;
      }
      OthersKeep(Here(), env2, r);
      Interfere(env2);
      WaitKeepsRequests(Here());
      WaitForDb();
      var placed := CommitFor(r, no, calls.commit);
      if placed.Ok? {
        tasks := tasks + [no];
        trace := whole[..4 + |env1| + |env2|];
        assert trace[..2 + |env1|] == whole[..2 + |env1|];
        return Ok((placed.value, reserved.value)), trace;
      }
      OthersKeep(Here(), env3, r);
      Interfere(env3);
      ReleaseFor(r, calls.release);
      trace := whole;
      return Err(placed.error), trace;
    }

    // ---------- catalog, checkout, coupons, payments ----------

    /**
      A new activity, then its prewarm, whose error is only logged. `env` is what
      others do in between; they may already order, so the prewarm can come late.
     */
    method CreateActivity(a: nat, p: nat, price: int, stock: int, seconds: int, prewarm: Call, env: seq<Step>)
        returns (r: Result<Activity>)
      requires LeaveActivity(env, a)
      modifies this
      ensures var before := Next(old(Here()), RestoreCommit);
              match Ledger.CreateActivity(before.db, a, p, price, stock, seconds)
              case Rollback(e) => r == Err(e) && Here() == before
              case Commit(_, row) =>
                var late := Exec(Next(before, NewActivity(a, p, price, stock, seconds)), env);
                && r == Ok(row)
                && Here() == Next(late, PrewarmCall(a, prewarm))
                && redis == (if prewarm == NotSent then late.redis
                             else late.redis.(stock := late.redis.stock[a := stock]))
      ensures var before := Next(old(Here()), RestoreCommit);
              var made := Next(before, NewActivity(a, p, price, stock, seconds));
              ActivityAnswer(before.db, a, p, price, stock, seconds, AsTx(r, made.db))
      ensures tasks == old(tasks)
    {
      hide RestoreTx, Exec, Next, ActivityAnswer;
      WaitForDb();
      ghost var before := Here();
      ActivityAnswers(db, a, p, price, stock, seconds);
      NewActivityIs(before, a, p, price, stock, seconds);
      if price <= 0 || stock <= 0 { return Err(InvalidInput); }
      var length := if seconds <= 0 then DEFAULT_ACTIVITY_SECONDS else seconds;
      if p !in db.products { return Err(ProductNotFound); }
      if stock > db.products[p].stock { return Err(InvalidInput); }
      if a == 0 || a in db.activities { return Err(StoreFault); }
      var row := Activity(p, price, stock, Published, db.now, db.now + length);
      db := db.(activities := db.activities[a := row]);
      prewarms := prewarms[a := stock];
      assert Here() == Next(before, NewActivity(a, p, price, stock, seconds));
      PrewarmWaits(Here(), env, a);
      Interfere(env);
      PrewarmIs(Here(), a, prewarm);
      if prewarm != NotSent { redis := Overwritten(redis, a, stock); }
      prewarms := prewarms - {a};
      return Ok(row);
    }

    method CheckoutCart(user: UserId, address: nat, uc: nat, no: OrderNo) returns (r: Result<Order>)
      modifies this
      ensures var before := Next(old(Here()), RestoreCommit);
              var tx := Checkout(before.db, user, address, uc, no);
              && Here() == Next(before, Plain(DbStep.CheckoutCart(user, address, uc, no)))
              && r == (match tx case Commit(_, o) => Ok(o) case Rollback(e) => Err(e))
              && (r.Err? ==> db == before.db)
              && CheckoutAnswer(before.db, user, address, uc, no, AsTx(r, db))
      ensures tasks == old(tasks)
    {
      hide RestoreTx, CheckoutAnswer, C.InStock, C.Taken, C.Cost, C.ItemsFail, C.RowsFor, CouponAnswer;
      WaitForDb();
      CheckoutAnswers(db, user, address, uc, no);
      var tx := db;
      if (address, user) !in tx.addresses { return Err(AddressNotFound); }
      var cart := CartOf(tx, user);
      if cart == [] { return Err(CartEmpty); }
      var taken := TakeItemsIn(tx, cart);
      if taken.Err? { return Err(taken.error); }
      var (left, original) := taken.value;
      var applied := ApplyCouponIn(tx, user, uc, original);
      if applied.Err? { return Err(applied.error); }
      var (userCoupons, discount) := applied.value;
      var pay := original - discount;
      if pay < 0 { pay := 0; }
      var order := Order(user, 0, cart[0].productId, None, address, uc,
                         original, discount, pay, WaitPay, tx.now, tx.now);
      if no in tx.orders { return Err(StoreFault); }
      var rows := ItemRowsIn(tx, no, cart);
      db := tx.(products := left, userCoupons := userCoupons, orders := tx.orders[no := order],
                items := tx.items + rows, carts := tx.carts - {user});
      return Ok(order);
    }

    method Claim(user: UserId, c: nat, uc: nat) returns (r: Result<UserCoupon>)
      modifies this
      ensures var before := Next(old(Here()), RestoreCommit);
              var tx := Ledger.Claim(before.db, user, c, uc);
              && Here() == Next(before, Plain(ClaimCoupon(user, c, uc)))
              && r == (match tx case Commit(_, row) => Ok(row) case Rollback(e) => Err(e))
              && (r.Err? ==> db == before.db)
              && ClaimAnswer(before.db, user, c, uc, AsTx(r, db))
      ensures tasks == old(tasks)
    {
      hide RestoreTx, ClaimAnswer;
      WaitForDb();
      ClaimAnswers(db, user, c, uc);
      if c !in db.coupons { return Err(CouponNotFound); }
      var coupon := db.coupons[c];
      if db.now < coupon.startAt || coupon.endAt < db.now { return Err(CouponNotActive); }
      if coupon.stock <= 0 { return Err(CouponSoldOut); }
      if HasClaim(db, user, c) { return Err(CouponAlreadyClaimed); }
      coupon := coupon.(stock := coupon.stock - 1);
      if uc == 0 || uc in db.userCoupons { return Err(StoreFault); }
      var claim := UserCoupon(user, c, Unused);
      db := db.(coupons := db.coupons[c := coupon], userCoupons := db.userCoupons[uc := claim]);
      return Ok(claim);
    }

    method PaymentCallback(no: OrderNo, txn: TransactionNo, status: string) returns (r: Result<PaymentResult>)
      modifies this
      ensures var before := Next(old(Here()), RestoreCommit);
              var tx := Pay(before.db, no, txn, status);
              && Here() == Next(before, Plain(DbStep.PaymentCallback(no, txn, status)))
              && r == (match tx case Commit(_, res) => Ok(res) case Rollback(e) => Err(e))
              && (r.Err? ==> db == before.db)
              && PayAnswer(before.db, no, txn, status, AsTx(r, db))
      ensures tasks == old(tasks)
    {
      hide RestoreTx, PayAnswer;
      WaitForDb();
      PayAnswers(db, no, txn, status);
      if txn in db.payments {
        var payment := db.payments[txn];
        return Ok(PaymentResult(payment.orderNo, StatusOf(db, payment.orderNo), true));
      }
      if no !in db.orders { return Err(OrderNotFound); }
      var order := db.orders[no];
      if status != SUCCESS {
        db := db.(payments := db.payments[txn := Payment(no, status)]);
        return Ok(PaymentResult(no, Some(order.status), false));
      }
      if order.status != WaitPay { return Err(IllegalTransition); }
      var tx := db.(orders := db.orders[no := order.(status := Paid, updatedAt := db.now)]);
      db := tx.(payments := tx.payments[txn := Payment(no, status)]);
      return Ok(PaymentResult(no, Some(Paid), false));
    }

    // ---------- cancelling ----------

    /** The first half of a restoring transaction, with what others do until its second half. */
    method ReleaseAndHold(who: By, no: OrderNo, env: seq<Step>)
      requires held == None && no in db.orders && Restores(db, who, no) && LeaveHeld(env)
      modifies this
      ensures Here() == Exec(Next(old(Here()), RestoreBegin(who, no)), env)
      ensures db == old(db) && held == Some(Held(who, no)) && tasks == old(tasks)
    {
      hide Next, Exec, Restores, ReleaseScript, LeaveHeld;
      var order := db.orders[no];
      BeginIsRelease(Here(), who, no);
      if order.activityId > 0 { redis := ReleaseScript(redis, order.activityId, order.user); }
      held := Some(Held(who, no));
      HeldFreezes(Here(), env);
      Interfere(env);
    }

    /** The second half of a cancel: the status and the restored stock are committed, or rolled back. */
    method FinishCancel(user: UserId, no: OrderNo, restored: Db, f: Fate)
      requires held == Some(Held(ByUser(user), no)) && no in db.orders
      requires RestoreStock(db, no, db.orders[no]).Commit? && RestoreStock(db, no, db.orders[no]).db == restored
      requires Cancel(db, user, no).Commit?
      modifies this
      ensures Here() == Next(old(Here()), RestoreEnd(f)) && held == None && tasks == old(tasks)
      ensures db == if f == Undone then old(db) else After(old(db), Cancel(old(db), user, no))
    {
      hide Next, RestoreStock;
      EndIsCommit(Here(), ByUser(user), no);
      OnlyOrders(db, no);
      if f != Undone { db := SaveStatus(restored, no, Cancelled); }
      held := None;
    }

    /**
      Cancel by the owner. Redis is released before the commit; `env` is what
      others do in between, which cannot touch the database, and `f` says how the
      transaction ends: its release may fail before it takes effect.
     */
    method CancelOrder(user: UserId, no: OrderNo, f: Fate, env: seq<Step>)
        returns (r: Result<OrderStatus>, ghost trace: seq<Step>)
      requires LeaveHeld(env)
      modifies this
      ensures Here() == Exec(old(Here()), trace) && tasks == old(tasks) && held == None
      ensures var before := Next(old(Here()), RestoreCommit);
              var tx := Cancel(before.db, user, no);
              && db == (if Lands(f) then After(before.db, tx) else before.db)
              && r == (if tx.Rollback? then Err(tx.error) else if f == Fine then Ok(Cancelled) else Err(StoreFault))
              && trace == if tx.Rollback? || f == Failed then [RestoreCommit]
                          else [RestoreCommit, RestoreBegin(ByUser(user), no)] + env + [RestoreEnd(f)]
      ensures var before := Next(old(Here()), RestoreCommit);
              DbOk(before.db) ==> CancelDone(before.db, user, no, f, r, db)
    {
      hide Next, Exec, RestoreStock, LeaveHeld, CancelDone, DbOk;
      ghost var w0 := Here();
      CancelTrace(w0, ByUser(user), no, env, RestoreEnd(f));
      WaitForDb();
      if DbOk(db) { CancelDecides(db, user, no, f); }
      trace := [RestoreCommit];
      if no !in db.orders || db.orders[no].user != user { return Err(OrderNotFound), trace; }
      var order := db.orders[no];
      if !InProgress(order.status) { return Err(IllegalTransition), trace; }
      var restored := RestoreStockIn(db, no, order);
      if restored.Rollback? { return Err(restored.error), trace; }
      if f == Failed { return Err(StoreFault), trace; }
      ReleaseAndHold(ByUser(user), no, env);
      FinishCancel(user, no, restored.db, f);
      trace := [RestoreCommit, RestoreBegin(ByUser(user), no)] + env + [RestoreEnd(f)];
      return if f == Fine then Ok(Cancelled) else Err(StoreFault), trace;
    }

    // ---------- rows of the repair loops ----------

    /** One row of the expiry or the closing loop; `ok` is what the transaction reports. */
    method CloseRow(job: Job, no: OrderNo, f: Fate) returns (closed: bool, ok: bool)
      requires DbOk(Next(Here(), RestoreCommit).db)
      requires job == Expiring || job == Closing
      modifies this
      ensures var before := Next(old(Here()), RestoreCommit);
              Here() == FateDone(before, job, no, f) && closed == (f == Fine && Acts(before.db, job, no))
      ensures ok == (f == Fine) && tasks == old(tasks)
    {
      hide Next, DbOk;
      WaitForDb();
      if f == Failed { return false, false; }
      ghost var w := Here();
      ghost var who := if job == Expiring then ByExpiry else ByCompensation;
      if no in db.orders
         && (if job == Expiring then InProgress(db.orders[no].status) else db.orders[no].status == WaitPay)
      {
        var order := db.orders[no];
        var restored := RestoreStockIn(db, no, order);
        RestoreNow(w.db, who, no);
        BeginIsRelease(w, who, no);
        EndIsCommit(Next(w, RestoreBegin(who, no)), who, no);
        OnlyOrders(db, no);
        if order.activityId > 0 { redis := ReleaseScript(redis, order.activityId, order.user); }
        if f == Undone { return false, false; }
        db := SaveStatus(restored.db, no, Closed);
        return f == Fine, f == Fine;
      }
      NothingToRestore(w, job, no, f);
      return false, f == Fine;
    }

    /** The scan of one loop: the rows that match, in some order, each once. */
    method FindOrders(want: Order -> bool) returns (rows: seq<OrderNo>)
      ensures forall no :: no in rows <==> no in db.orders && want(db.orders[no])
      ensures Distinct(rows)
    {
      rows := [];
      var left := db.orders.Keys;
      while left != {}
        invariant left <= db.orders.Keys
        invariant forall no :: no in rows <==> no in db.orders && no !in left && want(db.orders[no])
        invariant Distinct(rows)
        decreases |left|
      {
        var no :| no in left;
        left := left - {no};
        if want(db.orders[no]) { rows := rows + [no]; }
      }
    }

    method ExpireOrders(timeoutSeconds: int, env: nat -> seq<Step>, fate: nat -> Fate)
        returns (expired: nat, ghost rows: seq<OrderNo>)
      requires DbOk(db)
      modifies this
      ensures Here() == Exec(old(Here()), JobTrace(Expiring, rows, env, fate)) && tasks == old(tasks)
      ensures var cutoff := old(db.now) - if timeoutSeconds > 0 then timeoutSeconds else 0;
              forall no :: no in rows <==>
                OpenOrder(old(db), no) && old(db.orders)[no].createdAt <= cutoff
      ensures Distinct(rows)
      ensures expired == |rows| - Failures(|rows|, fate) >= |Hits(old(Here()), Expiring, rows, env, fate)|
      ensures expired == |Hits(old(Here()), Expiring, rows, env, fate)| <==>
        AllAct(old(Here()), Expiring, rows, env, fate)
      ensures forall i :: 0 <= i < |rows| && Lands(fate(i)) ==>
        rows[i] in db.orders && !OpenOrder(db, rows[i])
    {
      hide Exec, Next, RowDone, DbOk, Hits, Lands, AllAct, Distinct;
      var cutoff := db.now - AtLeastZero(timeoutSeconds);
      var found := FindOrders((o: Order) => InProgress(o.status) && o.createdAt <= cutoff);
      rows := found;
      expired := 0;
      ghost var w0 := Here();
      ExecNothing(w0);
      for i := 0 to |found|
        invariant Here() == Exec(w0, JobTrace(Expiring, found[..i], env, fate)) && tasks == old(tasks)
        invariant expired == i - Failures(i, fate)
      {
        LoopStep(w0, Expiring, found, env, fate, i);
        RowReady(w0, JobTrace(Expiring, found[..i], env, fate), env(i));
        Interfere(env(i));
        var closed, ok := CloseRow(Expiring, found[i], fate(i));
        if !ok { continue; }
        // A row the re-check skips is counted all the same.
        expired := expired + 1;
      }
      assert found[..|found|] == found;
      HitsAtMost(w0, Expiring, found, env, fate);
      forall i | 0 <= i < |rows| && Lands(fate(i))
        ensures rows[i] in db.orders && !InProgress(db.orders[rows[i]].status)
      {
        LoopSettles(w0, Expiring, found, env, fate, i);
      }
    }

    method RequeueRow(no: OrderNo, at: int, f: Fate) returns (requeued: bool, ok: bool)
      requires at <= Next(Here(), RestoreCommit).db.now
      modifies this
      ensures var before := Next(old(Here()), RestoreCommit);
              && Here() == FateDone(before, Requeueing(at), no, f)
              && requeued == (f == Fine && Acts(before.db, Requeueing(at), no))
      ensures ok == (f == Fine) && tasks == old(tasks)
    {
      WaitForDb();
      if f == Failed || f == Undone { return false, false; }
      if no in db.orders && db.orders[no].status == Queued {
        db := db.(orders := db.orders[no := db.orders[no].(updatedAt := at)]);
        return f == Fine, f == Fine;
      }
      return false, f == Fine;
    }

    method ProcessOrderCreated(no: OrderNo, f: Fate)
      modifies this
      ensures Here() == FateDone(Next(old(Here()), RestoreCommit), Working, no, f) && tasks == old(tasks)
    {
      WaitForDb();
      if !Lands(f) { return; }
      if no in db.orders && db.orders[no].status == Queued {
        db := db.(orders := db.orders[no := db.orders[no].(status := WaitPay, updatedAt := db.now)]);
      }
    }

    method EndActivityRow(a: nat, f: Fate) returns (ended: bool, ok: bool)
      modifies this
      ensures var before := Next(old(Here()), RestoreCommit);
              Here() == EndDone(before, a, f) && ended == (f == Fine && Running(before.db, a))
      ensures ok == (f == Fine && a in Next(old(Here()), RestoreCommit).db.activities) && tasks == old(tasks)
    {
      hide RestoreTx;
      WaitForDb();
      if !Lands(f) || a !in db.activities { return false, false; }
      var activity := db.activities[a];
      if activity.status != Published && activity.status != Blank { return false, f == Fine; }
      db := db.(activities := db.activities[a := activity.(status := Ended)]);
      return f == Fine, f == Fine;
    }

    // ---------- the compensation pass ----------

    /** The first loop of a pass, over the orders listed. */
    method RequeueRows(now: int, rows: seq<OrderNo>, env: nat -> seq<Step>, fate: nat -> Fate)
        returns (requeued: nat, failed: nat)
      requires DbOk(db) && now <= db.now
      modifies this
      ensures Here() == Exec(old(Here()), JobTrace(Requeueing(now), rows, env, fate))
      ensures tasks == old(tasks) + Hits(old(Here()), Requeueing(now), rows, env, fate)
      ensures requeued == |Hits(old(Here()), Requeueing(now), rows, env, fate)| && failed == Failures(|rows|, fate)
    {
      hide Exec, Next, FateDone, DbOk, Lands, Acts, BeforeRow;
      requeued, failed := 0, 0;
      ghost var w0 := Here();
      ExecNothing(w0);
      for i := 0 to |rows|
        invariant Here() == Exec(w0, JobTrace(Requeueing(now), rows[..i], env, fate))
        invariant tasks == old(tasks) + Hits(w0, Requeueing(now), rows[..i], env, fate)
        invariant requeued == |Hits(w0, Requeueing(now), rows[..i], env, fate)| && failed == Failures(i, fate)
      {
        LoopStep(w0, Requeueing(now), rows, env, fate, i);
        RowReady(w0, JobTrace(Requeueing(now), rows[..i], env, fate), env(i));
        Interfere(env(i));
        var touched, ok := RequeueRow(rows[i], now, fate(i));
        if !ok {
          failed := failed + 1;
        } else if touched {
          tasks := tasks + [rows[i]];
          requeued := requeued + 1;
        }
      }
      assert rows[..|rows|] == rows;
    }

    method RequeueStale(now: int, cutoff: int, env: nat -> seq<Step>, fate: nat -> Fate)
        returns (requeued: nat, failed: nat, rows: seq<OrderNo>)
      requires DbOk(db) && now == db.now
      modifies this
      ensures Here() == Exec(old(Here()), JobTrace(Requeueing(now), rows, env, fate))
      ensures tasks == old(tasks) + Hits(old(Here()), Requeueing(now), rows, env, fate)
      ensures requeued == |Hits(old(Here()), Requeueing(now), rows, env, fate)| && failed == Failures(|rows|, fate)
      ensures forall no :: no in rows <==>
        no in old(db.orders) && old(db.orders)[no].status == Queued && old(db.orders)[no].updatedAt <= cutoff
      ensures Distinct(rows)
    {
      hide Exec, JobTrace, Hits, Failures, DbOk, Distinct;
      rows := FindOrders((o: Order) => o.status == Queued && o.updatedAt <= cutoff);
      requeued, failed := RequeueRows(now, rows, env, fate);
    }

    method CloseStale(cutoff: int, env: nat -> seq<Step>, fate: nat -> Fate)
        returns (closed: nat, failed: nat, rows: seq<OrderNo>)
      requires DbOk(db)
      modifies this
      ensures Here() == Exec(old(Here()), JobTrace(Closing, rows, env, fate)) && tasks == old(tasks)
      ensures closed == |Hits(old(Here()), Closing, rows, env, fate)| && failed == Failures(|rows|, fate)
      ensures forall no :: no in rows <==>
        no in old(db.orders) && old(db.orders)[no].status == WaitPay && old(db.orders)[no].createdAt <= cutoff
      ensures Distinct(rows)
    {
      hide Exec, Next, FateDone, DbOk, Lands, Acts, Distinct, BeforeRow;
      rows := FindOrders((o: Order) => o.status == WaitPay && o.createdAt <= cutoff);
      closed, failed := 0, 0;
      ghost var w0 := Here();
      ExecNothing(w0);
      for i := 0 to |rows|
        invariant Here() == Exec(w0, JobTrace(Closing, rows[..i], env, fate)) && tasks == old(tasks)
        invariant closed == |Hits(w0, Closing, rows[..i], env, fate)| && failed == Failures(i, fate)
      {
        LoopStep(w0, Closing, rows, env, fate, i);
        RowReady(w0, JobTrace(Closing, rows[..i], env, fate), env(i));
        Interfere(env(i));
        var done, ok := CloseRow(Closing, rows[i], fate(i));
        if !ok {
          failed := failed + 1;
        } else if done {
          closed := closed + 1;
        }
      }
      assert rows[..|rows|] == rows;
    }

    method FindActivities(want: Activity -> bool) returns (ids: seq<nat>)
      ensures forall a :: a in ids <==> a in db.activities && want(db.activities[a])
      ensures Distinct(ids)
    {
      ids := [];
      var left := db.activities.Keys;
      while left != {}
        invariant left <= db.activities.Keys
        invariant forall a :: a in ids <==> a in db.activities && a !in left && want(db.activities[a])
        invariant Distinct(ids)
        decreases |left|
      {
        var a :| a in left;
        left := left - {a};
        if want(db.activities[a]) { ids := ids + [a]; }
      }
    }

    /** The last loop of a pass, over the activities listed. */
    method EndRows(ids: seq<nat>, env: nat -> seq<Step>, fate: nat -> Fate) returns (ended: nat, failed: nat)
      requires DbOk(db) && forall a :: a in ids ==> a in db.activities
      modifies this
      ensures Here() == Exec(old(Here()), EndTrace(ids, env, fate)) && tasks == old(tasks)
      ensures ended == |EndHits(old(Here()), ids, env, fate)| && failed == Failures(|ids|, fate)
    {
      hide Exec, Next, EndDone, Lands, DbOk, Running;
      ended, failed := 0, 0;
      ghost var w0 := Here();
      ExecNothing(w0);
      for i := 0 to |ids|
        invariant Here() == Exec(w0, EndTrace(ids[..i], env, fate)) && tasks == old(tasks)
        invariant ended == |EndHits(w0, ids[..i], env, fate)| && failed == Failures(i, fate)
      {
        EndLoopStep(w0, ids, env, fate, i);
        ActivityStays(w0, EndTrace(ids[..i], env, fate), env(i), ids[i]);
        Interfere(env(i));
        var done, ok := EndActivityRow(ids[i], fate(i));
        if !ok {
          failed := failed + 1;
        } else if done {
          ended := ended + 1;
        }
      }
      assert ids[..|ids|] == ids;
    }

    method EndOver(now: int, env: nat -> seq<Step>, fate: nat -> Fate)
        returns (ended: nat, failed: nat, ids: seq<nat>)
      requires DbOk(db)
      modifies this
      ensures Here() == Exec(old(Here()), EndTrace(ids, env, fate)) && tasks == old(tasks)
      ensures ended == |EndHits(old(Here()), ids, env, fate)| && failed == Failures(|ids|, fate)
      ensures forall a :: a in ids <==> Running(old(db), a) && old(db.activities)[a].endAt <= now
      ensures Distinct(ids)
      ensures EachEnds(old(Here()), ids, env, fate) && EndsLast(old(Here()), ids, env, fate, db)
    {
      hide Exec, EndTrace, EndHits, DbOk, Failures, Distinct, EachEnds, EndsLast;
      ghost var w := Here();
      ids := FindActivities((row: Activity) => (row.status == Published || row.status == Blank) && row.endAt <= now);
      ended, failed := EndRows(ids, env, fate);
      EndsEach(w, ids, env, fate);
      EndsStay(w, ids, env, fate);
    }

    /**
      One compensation pass. `env(i)` is what others do before each row of loop
      `i`, `fate(i)` how the row's transaction ends, and `gap(i)` what others do
      after the loop. The clock is read once, at the start, and a failing row does
      not stop the pass.
     */
    method Compensate(queuedTimeout: int, payTimeout: int, env: nat -> nat -> seq<Step>, fate: nat -> nat -> Fate,
            gap: nat -> seq<Step>)
        returns (result: CompensationResult, scan: Scan)
      requires DbOk(db)
      modifies this
      ensures scan.now == old(db.now)
      ensures PassDone(old(Here()), scan, env, fate, gap, Here())
      ensures ScanRight(old(Here()), scan, env, fate, gap,
                        if queuedTimeout > 0 then queuedTimeout else 0, if payTimeout > 0 then payTimeout else 0)
      ensures tasks == old(tasks) + Hits(old(Here()), Requeueing(scan.now), scan.queued, env(0), fate(0))
      ensures result == Counted(old(Here()), scan, env, fate, gap)
      ensures EachEnds(AfterClose(old(Here()), scan, env, fate, gap), scan.over, env(2), fate(2))
      ensures EndsLast(AfterClose(old(Here()), scan, env, fate, gap), scan.over, env(2), fate(2), db)
    {
      hide Exec, Next, JobTrace, Hits, EndTrace, EndHits, DbOk, Failures, EachEnds, EndsLast;
      ghost var w0 := Here();
      var now := db.now;
      var requeued, failed0, queued := RequeueStale(now, now - AtLeastZero(queuedTimeout), env(0), fate(0));
      LegOk(w0, Requeueing(now), queued, env(0), fate(0), gap(0));
      Interfere(gap(0));
      ghost var w1 := Here();
      var closed, failed1, unpaid := CloseStale(now - AtLeastZero(payTimeout), env(1), fate(1));
      LegOk(w1, Closing, unpaid, env(1), fate(1), gap(1));
      Interfere(gap(1));
      var ended, failed2, over := EndOver(now, env(2), fate(2));
      return CompensationResult(requeued, closed, ended, failed0 + failed1 + failed2), Scan(now, queued, unpaid, over);
    }

    // ---------- the worker ----------

    /**
      The worker takes tasks in order until its context is done, which `limit`
      says when. A task whose transaction fails is dropped like one that succeeds.
     */
    method DrainTasks(limit: nat, env: nat -> seq<Step>, fate: nat -> Fate)
      modifies this
      ensures var taken := if limit < |old(tasks)| then limit else |old(tasks)|;
              && Here() == Exec(old(Here()), JobTrace(Working, old(tasks)[..taken], env, fate))
              && tasks == old(tasks)[taken..]
    {
      hide Exec, Next, FateDone, Hits, Acts;
      ghost var w0 := Here();
      ExecNothing(w0);
      var i := 0;
      while tasks != [] && i < limit
        invariant i <= limit && i <= |old(tasks)| && tasks == old(tasks)[i..]
        invariant Here() == Exec(w0, JobTrace(Working, old(tasks)[..i], env, fate))
        decreases |tasks|
      {
        LoopStep(w0, Working, old(tasks), env, fate, i);
        Interfere(env(i));
        ProcessOrderCreated(tasks[0], fate(i));
        tasks := tasks[1..];
        i := i + 1;
      }
    }

    /**
      Recovery from any reachable state: a pass with zero timeouts, the worker,
      and a second pass, each doing exactly that. If nobody orders meanwhile,
      every order ends paid, cancelled or closed and only paid orders hold stock.
     */
    method Recover(env1: nat -> nat -> seq<Step>, gap1: nat -> seq<Step>, drain: nat -> seq<Step>, pause: seq<Step>,
                   env2: nat -> nat -> seq<Step>, gap2: nat -> seq<Step>)
        returns (scan1: Scan, scan2: Scan, ghost w1: World, ghost w2: World)
      requires DbOk(db)
      modifies this
      ensures PassDone(old(Here()), scan1, env1, EverFine(), gap1, w1)
      ensures ScanRight(old(Here()), scan1, env1, EverFine(), gap1, 0, 0)
      ensures var again := Hits(old(Here()), Requeueing(scan1.now), scan1.queued, env1(0), AllFine());
              w2 == Leg(w1, Working, old(tasks) + again, drain, AllFine(), pause)
      ensures PassDone(w2, scan2, env2, EverFine(), gap2, Here()) && ScanRight(w2, scan2, env2, EverFine(), gap2, 0, 0)
      ensures scan1.now == old(db.now) && scan2.now == w2.db.now
      ensures tasks == Hits(w2, Requeueing(scan2.now), scan2.queued, env2(0), AllFine())
      ensures DbOk(db)
      ensures db.orders.Keys == old(db.orders.Keys) ==> forall no :: no in db.orders ==> Rank(db.orders[no].status) == 2
      ensures db.orders.Keys == old(db.orders.Keys) ==> forall a :: a in old(db.activities) ==>
        a in db.activities && db.activities[a].stock == Total(old(db), a) - |PaidOrders(db.orders, a)|
    {
      hide Exec, Next, JobTrace, Hits, EndTrace, EndHits, DbOk, Total, PassDone, ScanRight, Counted;
      ghost var w0, pending := Here(), tasks;
      var first;
      first, scan1 := Compensate(0, 0, env1, EverFine(), gap1);
      PassOk(w0, scan1, env1, EverFine(), gap1, Here());
      w1 := Here();
      ghost var backlog := tasks;
      assert backlog[..|backlog|] == backlog;
      DrainTasks(|tasks|, drain, AllFine());
      LegOk(w1, Working, backlog, drain, AllFine(), pause);
      Interfere(pause);
      w2 := Here();
      var second;
      second, scan2 := Compensate(0, 0, env2, EverFine(), gap2);
      PassOk(w2, scan2, env2, EverFine(), gap2, Here());
      TwoPassesRecover(w0, scan1, w1, pending, drain, pause, w2, scan2, Here(), env1, gap1, env2, gap2);
    }
  }
}
