/** Row stamps never run ahead of the clock. */
module Stamps {
  import opened Model
  import opened Ledger
  import opened Events

  ghost predicate StampsOk(db: Db) {
    forall no :: no in db.orders ==> db.orders[no].createdAt <= db.now && db.orders[no].updatedAt <= db.now
  }

  lemma ClockAfter(db: Db, ev: Event)
    requires Holds(db, ev)
    ensures Apply(db, ev).now >= db.now
    ensures match Written(db, ev)
            case None => true
            case Some((no, o)) =>
              && o.updatedAt <= db.now
              && if no in db.orders then o.createdAt == db.orders[no].createdAt else o.createdAt == db.now
  {
    if ev.Returned? { RestoreTouches(db, ev.no, db.orders[ev.no]); }
    hide RestoreStock, HasOrder, CheckoutFits, TakeItems, ApplyCoupon, ItemRows, HasClaim;
  }

  /** So a scan with a zero timeout finds every row. */
  lemma {:induction false} RunStamps(db: Db, steps: seq<DbStep>)
    requires StampsOk(db)
    ensures StampsOk(DbRun(db, steps)) && db.now <= DbRun(db, steps).now
    decreases |steps|
  {
    hide DbNext, Holds, Apply;
    if steps == [] {
    } else {
      var ev := StepEvent(db, steps[0]);
      OneOrderRow(db, ev);
      ClockAfter(db, ev);
      RunStamps(DbNext(db, steps[0]), steps[1..]);
    }
  }
}
