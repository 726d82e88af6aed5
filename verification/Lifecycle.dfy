/**
  The order lifecycle over whole runs: statuses only climb, stock is given back
  exactly once to orders that end cancelled or closed, and payments and paid
  orders match one to one.
 */
module Lifecycle {
  import opened Model
  import opened Ledger
  import opened Events

  // ---------- statuses only climb ----------

  /** What one database state may become later, order by order. */
  ghost predicate Climbs(old_: map<OrderNo, Order>, new_: map<OrderNo, Order>) {
    forall no :: no in old_ ==> no in new_ && Later(old_[no], new_[no])
  }

  predicate Later(o: Order, p: Order) {
    && SameHolder(o, p)
    && o.originalAmount == p.originalAmount && o.discountAmount == p.discountAmount && o.amount == p.amount
    && o.productId == p.productId && o.addressId == p.addressId
    && o.userCouponId == p.userCouponId && o.createdAt == p.createdAt
    && (p.status == o.status || Rank(o.status) < Rank(p.status))
  }

  lemma EventClimbs(db: Db, ev: Event)
    requires Holds(db, ev)
    ensures Climbs(db.orders, Apply(db, ev).orders)
  {
    hide Apply, RestoreStock, HasOrder, CheckoutFits, HasClaim;
    OneOrderRow(db, ev);
  }

  lemma StepClimbs(db: Db, st: DbStep)
    ensures Climbs(db.orders, DbNext(db, st).orders)
  {
    hide DbNext, Holds, Apply, Climbs;
    var ev := StepEvent(db, st);
    EventClimbs(db, ev);
  }

  /** In every run an order keeps its holder and amounts, and its status only climbs; final statuses never change. */
  lemma {:induction false} RunClimbs(db: Db, steps: seq<DbStep>)
    ensures Climbs(db.orders, DbRun(db, steps).orders)
    decreases |steps|
  {
    hide DbNext, Later;
    if steps == [] {
      forall no | no in db.orders ensures Later(db.orders[no], db.orders[no]) { LaterReflexive(db.orders[no]); }
    } else {
      StepClimbs(db, steps[0]);
      var mid, end := DbNext(db, steps[0]), DbRun(db, steps);
      RunClimbs(mid, steps[1..]);
      forall no | no in db.orders ensures no in end.orders && Later(db.orders[no], end.orders[no]) {
        LaterTransitive(db.orders[no], mid.orders[no], end.orders[no]);
      }
    }
  }

  lemma LaterReflexive(o: Order)
    ensures Later(o, o)
  {
  }

  lemma LaterTransitive(o: Order, p: Order, q: Order)
    requires Later(o, p) && Later(p, q)
    ensures Later(o, q)
  {
  }

  function RankOf(db: Db, no: OrderNo): nat {
    if no in db.orders then Rank(db.orders[no].status) else 0
  }

  predicate StatusMoves(db: Db, db': Db, no: OrderNo) {
    no in db.orders && no in db'.orders && db.orders[no].status != db'.orders[no].status
  }

  /** How often the status of one order changes along a run. */
  function StatusChanges(db: Db, steps: seq<DbStep>, no: OrderNo): nat
    decreases |steps|
  {
    if steps == [] then 0
    else Bit(StatusMoves(db, DbNext(db, steps[0]), no)) + StatusChanges(DbNext(db, steps[0]), steps[1..], no)
  }

  /** At most two status changes per order in any run, each one a climb. */
  lemma {:induction false} AtMostTwoChanges(db: Db, steps: seq<DbStep>, no: OrderNo)
    requires no in db.orders
    ensures StatusChanges(db, steps, no) <= RankOf(DbRun(db, steps), no) - RankOf(db, no)
    ensures StatusChanges(db, steps, no) <= 2
    decreases |steps|
  {
    hide DbNext;
    if steps == [] {
    } else {
      StepClimbs(db, steps[0]);
      AtMostTwoChanges(DbNext(db, steps[0]), steps[1..], no);
    }
  }

  predicate BecomesPayable(db: Db, db': Db, no: OrderNo) {
    no in db.orders && no in db'.orders && db.orders[no].status == Queued && db'.orders[no].status == WaitPay
  }

  function TimesReadied(db: Db, steps: seq<DbStep>, no: OrderNo): nat
    decreases |steps|
  {
    if steps == [] then 0
    else Bit(BecomesPayable(db, DbNext(db, steps[0]), no)) + TimesReadied(DbNext(db, steps[0]), steps[1..], no)
  }

  /** However often its task is delivered, an order moves from queued to payable at most once. */
  lemma {:induction false} ReadiedAtMostOnce(db: Db, steps: seq<DbStep>, no: OrderNo)
    ensures TimesReadied(db, steps, no) <= 1
    ensures no in db.orders && db.orders[no].status != Queued ==> TimesReadied(db, steps, no) == 0
    decreases |steps|
  {
    hide DbNext;
    if steps == [] {
    } else {
      StepClimbs(db, steps[0]);
      ReadiedAtMostOnce(DbNext(db, steps[0]), steps[1..], no);
    }
  }

  // ---------- stock is given back once ----------

  ghost predicate GivenBack(orders: map<OrderNo, Order>, no: OrderNo) {
    no in orders && !Active(orders[no].status)
  }

  /** The count of returns of every order is 1 when it ended cancelled or closed and 0 otherwise. */
  ghost predicate ReturnsOk(db: Db) {
    forall no :: db.returned[no] == Bit(GivenBack(db.orders, no))
  }

  lemma ReturnedAfter(db: Db, ev: Event)
    requires Holds(db, ev)
    ensures Apply(db, ev).returned == if ev.Returned? then db.returned + multiset{ev.no} else db.returned
  {
    hide RestoreItems, RowsOf, HasOrder, CheckoutFits, TakeItems, ApplyCoupon, ItemRows, HasClaim;
  }

  lemma EventReturns(db: Db, ev: Event)
    requires ReturnsOk(db) && Holds(db, ev)
    ensures ReturnsOk(Apply(db, ev))
  {
    hide Apply, RestoreStock, HasOrder, CheckoutFits, HasClaim;
    OneOrderRow(db, ev);
    ReturnedAfter(db, ev);
  }

  /** Restore-once, for every interleaving of cancels, expiries, compensations, payments and workers. */
  lemma {:induction false} RunReturns(db: Db, steps: seq<DbStep>)
    requires ReturnsOk(db)
    ensures ReturnsOk(DbRun(db, steps))
    decreases |steps|
  {
    hide DbNext, ReturnsOk, Holds, Apply;
    if steps == [] {
    } else {
      var ev := StepEvent(db, steps[0]);
      EventReturns(db, ev);
      RunReturns(DbNext(db, steps[0]), steps[1..]);
    }
  }

  // ---------- payments ----------

  ghost function Successes(payments: map<TransactionNo, Payment>, no: OrderNo): set<TransactionNo> {
    set t | t in payments && payments[t].orderNo == no && payments[t].status == SUCCESS
  }

  ghost predicate PaymentsOk(db: Db) {
    && (forall t :: t in db.payments ==> db.payments[t].orderNo in db.orders)
    && (forall no :: no in db.orders ==> |Successes(db.payments, no)| == Bit(db.orders[no].status == Paid))
  }

  ghost predicate KeepsPayments(db: Db, db': Db) {
    forall t :: t in db.payments ==> t in db'.payments && db'.payments[t] == db.payments[t]
  }

  lemma PaymentsAfter(db: Db, ev: Event)
    requires Holds(db, ev)
    ensures Apply(db, ev).payments ==
      match ev
      case PaymentNoted(txn, row) => db.payments[txn := row]
      case PaidFor(txn, no) => db.payments[txn := Payment(no, SUCCESS)]
      case _ => db.payments
  {
    if ev.Returned? { RestoreTouches(db, ev.no, db.orders[ev.no]); }
    hide RestoreStock, HasOrder, CheckoutFits, TakeItems, ApplyCoupon, ItemRows, HasClaim;
  }

  lemma SuccessesAfter(payments: map<TransactionNo, Payment>, txn: TransactionNo, row: Payment, no: OrderNo)
    requires txn !in payments
    ensures Successes(payments[txn := row], no)
         == Successes(payments, no) + if row.orderNo == no && row.status == SUCCESS then {txn} else {}
  {
  }

  lemma NoPaymentYet(db: Db, no: OrderNo)
    requires PaymentsOk(db) && no !in db.orders
    ensures Successes(db.payments, no) == {}
  {
  }

  lemma EventPayments(db: Db, ev: Event)
    requires PaymentsOk(db) && Holds(db, ev)
    ensures PaymentsOk(Apply(db, ev)) && KeepsPayments(db, Apply(db, ev))
  {
    hide Apply, RestoreStock, HasOrder, CheckoutFits, HasClaim, Successes;
    OneOrderRow(db, ev);
    PaymentsAfter(db, ev);
    var db' := Apply(db, ev);
    forall no | no in db'.orders ensures |Successes(db'.payments, no)| == Bit(db'.orders[no].status == Paid) {
      PaidByOne(db, ev, no);
    }
  }

  lemma PaidByOne(db: Db, ev: Event, no: OrderNo)
    requires PaymentsOk(db) && Holds(db, ev)
    ensures var db' := Apply(db, ev);
            no in db'.orders ==> |Successes(db'.payments, no)| == Bit(db'.orders[no].status == Paid)
  {
    hide Apply, RestoreStock, HasOrder, CheckoutFits, HasClaim, Successes;
    OneOrderRow(db, ev);
    PaymentsAfter(db, ev);
    if no !in db.orders { NoPaymentYet(db, no); }
    match ev
    case PaymentNoted(txn, row) => SuccessesAfter(db.payments, txn, row, no);
    case PaidFor(txn, no') =>
      SuccessesAfter(db.payments, txn, Payment(no', SUCCESS), no);
      if no == no' { assert Successes(db.payments, no) == {}; }
    case _ =>
  }

  /**
    Payment safety in every run: an order is paid if and only if it has exactly
    one successful payment, and a recorded payment is never changed or dropped.
   */
  lemma {:induction false} RunPayments(db: Db, steps: seq<DbStep>)
    requires PaymentsOk(db)
    ensures PaymentsOk(DbRun(db, steps)) && KeepsPayments(db, DbRun(db, steps))
    decreases |steps|
  {
    hide DbNext, PaymentsOk, Holds, Apply;
    if steps == [] {
    } else {
      var ev := StepEvent(db, steps[0]);
      EventPayments(db, ev);
      RunPayments(DbNext(db, steps[0]), steps[1..]);
    }
  }

  /** Replaying an accepted callback, at once or after any other activity, changes nothing. */
  lemma ReplayIsNoOp(db: Db, no: OrderNo, txn: TransactionNo, status: string, steps: seq<DbStep>,
      no': OrderNo, status': string)
    requires PaymentsOk(db) && Pay(db, no, txn, status).Commit?
    ensures var later := DbRun(After(db, Pay(db, no, txn, status)), steps);
            && Pay(later, no', txn, status').Commit?
            && Pay(later, no', txn, status').db == later
            && Pay(later, no', txn, status').value.alreadyProcessed
  {
    hide DbNext, DbRun, PaymentsOk, Pay;
    var ev := PayEvent(db, no, txn, status);
    EventPayments(db, ev);
    PayRecords(db, no, txn, status);
    RunPayments(After(db, Pay(db, no, txn, status)), steps);
    KnownIsReplay(DbRun(After(db, Pay(db, no, txn, status)), steps), no', txn, status');
  }

  lemma PayRecords(db: Db, no: OrderNo, txn: TransactionNo, status: string)
    requires Pay(db, no, txn, status).Commit?
    ensures txn in Pay(db, no, txn, status).db.payments
  {
  }

  lemma KnownIsReplay(db: Db, no: OrderNo, txn: TransactionNo, status: string)
    requires txn in db.payments
    ensures Pay(db, no, txn, status).Commit? && Pay(db, no, txn, status).db == db
      && Pay(db, no, txn, status).value.alreadyProcessed
  {
  }

  /** A callback changes the database exactly when its transaction is new and acceptable for its order. */
  lemma PayChangesExactly(db: Db, no: OrderNo, txn: TransactionNo, status: string)
    ensures After(db, Pay(db, no, txn, status)) != db <==>
      txn !in db.payments && no in db.orders && (status == SUCCESS ==> db.orders[no].status == WaitPay)
  {
    var tx := Pay(db, no, txn, status);
    if txn !in db.payments && tx.Commit? {
      assert txn in tx.db.payments;
    }
  }

  /** An order that ended cancelled or closed is never paid later, and a paid order never loses its stock. */
  lemma FinalStaysFinal(db: Db, steps: seq<DbStep>, no: OrderNo)
    requires no in db.orders && Rank(db.orders[no].status) == 2
    ensures no in DbRun(db, steps).orders && DbRun(db, steps).orders[no].status == db.orders[no].status
  {
    hide DbRun;
    RunClimbs(db, steps);
  }
}
