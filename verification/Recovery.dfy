/**
  Recovery: a compensation pass, the worker emptying the queue, and a second
  pass settle every order, whatever state the shop was left in.
 */
module Recovery {
  import opened Model
  import opened ActivityStock
  import opened Lifecycle
  import opened Protocol
  import opened ProtocolDb
  import opened RepairLoops

  /** The scan found every order with the status, and only those. */
  ghost predicate Lists(rows: seq<OrderNo>, db: Db, s: OrderStatus) {
    forall no :: no in rows <==> no in db.orders && db.orders[no].status == s
  }

  /** The worlds a recovery with working stores goes through. */
  datatype Course = Course(start: World, requeued: World, closed: World, ended: World, worked: World,
      again: World, end: World)

  /** What the passes read; `ending` is the rest of the first pass, after its closing loop. */
  datatype Scans = Scans(at: int, queued: seq<OrderNo>, unpaid: seq<OrderNo>, ending: seq<Step>, pending: seq<OrderNo>,
                         atAgain: int, queuedAgain: seq<OrderNo>, unpaidAgain: seq<OrderNo>)

  /** One loop with the fates of its rows, then whatever others do before the next scan. */
  function Leg(w: World, job: Job, rows: seq<OrderNo>, env: nat -> seq<Step>, fate: nat -> Fate,
      gap: seq<Step>): World
  {
    Exec(Exec(w, JobTrace(job, rows, env, fate)), gap)
  }

  /** The messages the worker finds: those pending before and those the first pass published. */
  function Backlog(c: Course, s: Scans, env: nat -> nat -> seq<Step>): seq<OrderNo> {
    s.pending + Hits(c.start, Requeueing(s.at), s.queued, env(0), AllFine())
  }

  /** `env(i)` is what others do during loop `i`, and `gap(i)` after it. */
  ghost predicate Runs(c: Course, s: Scans, env: nat -> nat -> seq<Step>, gap: nat -> seq<Step>) {
    && c.requeued == Leg(c.start, Requeueing(s.at), s.queued, env(0), AllFine(), gap(0))
    && c.closed == Leg(c.requeued, Closing, s.unpaid, env(1), AllFine(), gap(1))
    && c.ended == Exec(c.closed, s.ending)
    && c.worked == Leg(c.ended, Working, Backlog(c, s, env), env(2), AllFine(), gap(2))
    && c.again == Leg(c.worked, Requeueing(s.atAgain), s.queuedAgain, env(3), AllFine(), gap(3))
    && c.end == Leg(c.again, Closing, s.unpaidAgain, env(4), AllFine(), gap(4))
  }

  function PaidOrders(orders: map<OrderNo, Order>, a: nat): set<OrderNo> {
    set no | no in orders && orders[no].activityId == a && orders[no].status == Paid
  }

  lemma RankKept(w: World, steps: seq<Step>, no: OrderNo)
    requires no in w.db.orders
    ensures no in Exec(w, steps).db.orders
    ensures Rank(w.db.orders[no].status) <= Rank(Exec(w, steps).db.orders[no].status)
    ensures DbOk(w.db) ==> DbOk(Exec(w, steps).db)
  {
    hide Exec, DbOk, Climbs;
    RunClimbsOnly(w, steps);
    InOrders(w.db, Exec(w, steps).db, no);
    if DbOk(w.db) { RunKeepsAll(w, steps); }
  }

  lemma LegKeepsRank(w: World, job: Job, rows: seq<OrderNo>, env: nat -> seq<Step>, fate: nat -> Fate,
      gap: seq<Step>, no: OrderNo)
    requires no in w.db.orders
    ensures var mid := Exec(w, JobTrace(job, rows, env, fate));
            var w' := Leg(w, job, rows, env, fate, gap);
            no in mid.db.orders && no in w'.db.orders
            && Rank(w.db.orders[no].status) <= Rank(mid.db.orders[no].status) <= Rank(w'.db.orders[no].status)
            && (DbOk(w.db) ==> DbOk(w'.db))
  {
    hide Exec, DbOk, JobTrace;
    RankKept(w, JobTrace(job, rows, env, fate), no);
    RankKept(Exec(w, JobTrace(job, rows, env, fate)), gap, no);
  }

  lemma IndexOf(rows: seq<OrderNo>, no: OrderNo) returns (i: nat)
    requires no in rows
    ensures i < |rows| && rows[i] == no
  {
    i :| 0 <= i < |rows| && rows[i] == no;
  }

  /** After the first pass an order still in the queue has a message waiting. */
  lemma PassPublishes(c: Course, s: Scans, env: nat -> nat -> seq<Step>, gap: nat -> seq<Step>, no: OrderNo)
    requires DbOk(c.start.db) && Runs(c, s, env, gap) && s.at <= c.start.db.now
    requires Lists(s.queued, c.start.db, Queued) && no in c.start.db.orders
    ensures DbOk(c.ended.db) && no in c.ended.db.orders
    ensures no in Backlog(c, s, env) || Rank(c.ended.db.orders[no].status) >= 1
  {
    hide Exec, DbOk, JobTrace, Leg, Backlog, Hits;
    LegKeepsRank(c.start, Requeueing(s.at), s.queued, env(0), AllFine(), gap(0), no);
    LegKeepsRank(c.requeued, Closing, s.unpaid, env(1), AllFine(), gap(1), no);
    RankKept(c.closed, s.ending, no);
    if c.start.db.orders[no].status == Queued {
      var i := IndexOf(s.queued, no);
      LoopRequeues(c.start, s.at, s.queued, env(0), AllFine(), i);
      InBacklog(c, s, env, no);
    }
  }

  /** The worker takes it out of the queue. */
  lemma WorkerReadies(c: Course, s: Scans, env: nat -> nat -> seq<Step>, gap: nat -> seq<Step>, no: OrderNo)
    requires Runs(c, s, env, gap) && DbOk(c.ended.db) && no in c.ended.db.orders
    requires no in Backlog(c, s, env) || Rank(c.ended.db.orders[no].status) >= 1
    ensures DbOk(c.again.db) && no in c.again.db.orders && Rank(c.again.db.orders[no].status) >= 1
  {
    hide Exec, DbOk, JobTrace, Leg, Backlog;
    var tasks := Backlog(c, s, env);
    LegKeepsRank(c.ended, Working, tasks, env(2), AllFine(), gap(2), no);
    LegKeepsRank(c.worked, Requeueing(s.atAgain), s.queuedAgain, env(3), AllFine(), gap(3), no);
    if no in tasks {
      var i := IndexOf(tasks, no);
      LoopSettles(c.ended, Working, tasks, env(2), AllFine(), i);
    }
  }

  /** The second pass closes it unless it is final already. */
  lemma PassCloses(c: Course, s: Scans, env: nat -> nat -> seq<Step>, gap: nat -> seq<Step>, no: OrderNo)
    requires Runs(c, s, env, gap) && DbOk(c.again.db) && Lists(s.unpaidAgain, c.again.db, WaitPay)
    requires no in c.again.db.orders && Rank(c.again.db.orders[no].status) >= 1
    ensures no in c.end.db.orders && Rank(c.end.db.orders[no].status) == 2
  {
    hide Exec, DbOk, JobTrace, Leg, Backlog;
    LegKeepsRank(c.again, Closing, s.unpaidAgain, env(4), AllFine(), gap(4), no);
    if c.again.db.orders[no].status == WaitPay {
      var i := IndexOf(s.unpaidAgain, no);
      LoopSettles(c.again, Closing, s.unpaidAgain, env(4), AllFine(), i);
    }
  }

  /** One order, from anywhere, ends final. */
  lemma OrderRecovers(c: Course, s: Scans, env: nat -> nat -> seq<Step>, gap: nat -> seq<Step>, no: OrderNo)
    requires DbOk(c.start.db) && Runs(c, s, env, gap) && s.at <= c.start.db.now
    requires Lists(s.queued, c.start.db, Queued) && Lists(s.unpaidAgain, c.again.db, WaitPay)
    requires no in c.start.db.orders
    ensures no in c.end.db.orders && Rank(c.end.db.orders[no].status) == 2
  {
    hide DbOk, Runs, Lists, Backlog;
    PassPublishes(c, s, env, gap, no);
    WorkerReadies(c, s, env, gap, no);
    PassCloses(c, s, env, gap, no);
  }

  lemma InBacklog(c: Course, s: Scans, env: nat -> nat -> seq<Step>, no: OrderNo)
    ensures no in Hits(c.start, Requeueing(s.at), s.queued, env(0), AllFine()) ==> no in Backlog(c, s, env)
  {
  }

  /**
    From every reachable state, with any payments, cancels and workers running
    alongside but no new orders, a compensation pass, the worker emptying the
    queue and a second pass leave every order paid, cancelled or closed and
    every activity with its issue less its paid orders.
   */
  lemma EverythingRecovers(c: Course, s: Scans, env: nat -> nat -> seq<Step>, gap: nat -> seq<Step>)
    requires DbOk(c.start.db) && Runs(c, s, env, gap) && s.at <= c.start.db.now
    requires Lists(s.queued, c.start.db, Queued) && Lists(s.unpaidAgain, c.again.db, WaitPay)
    requires c.end.db.orders.Keys == c.start.db.orders.Keys
    ensures forall no :: no in c.end.db.orders ==> Rank(c.end.db.orders[no].status) == 2
    ensures forall a :: a in c.start.db.activities ==>
      a in c.end.db.activities
      && c.end.db.activities[a].stock == Total(c.start.db, a) - |PaidOrders(c.end.db.orders, a)|
  {
    hide Exec, DbOk, JobTrace, Lists, Leg, Backlog, Total;
    forall no | no in c.end.db.orders ensures Rank(c.end.db.orders[no].status) == 2 {
      OrderRecovers(c, s, env, gap, no);
    }
    LegKeepsTotals(c.start, Requeueing(s.at), s.queued, env(0), AllFine(), gap(0));
    LegKeepsTotals(c.requeued, Closing, s.unpaid, env(1), AllFine(), gap(1));
    TotalsKept(c.closed, s.ending);
    LegKeepsTotals(c.ended, Working, Backlog(c, s, env), env(2), AllFine(), gap(2));
    LegKeepsTotals(c.worked, Requeueing(s.atAgain), s.queuedAgain, env(3), AllFine(), gap(3));
    LegKeepsTotals(c.again, Closing, s.unpaidAgain, env(4), AllFine(), gap(4));
    forall a | a in c.start.db.activities
      ensures a in c.end.db.activities
      ensures c.end.db.activities[a].stock == Total(c.start.db, a) - |PaidOrders(c.end.db.orders, a)|
    {
      assert SameTotal(c.start.db, c.requeued.db, a) && SameTotal(c.requeued.db, c.closed.db, a);
      assert SameTotal(c.closed.db, c.ended.db, a) && SameTotal(c.ended.db, c.worked.db, a);
      assert SameTotal(c.worked.db, c.again.db, a) && SameTotal(c.again.db, c.end.db, a);
      OnlyPaidLive(c.end.db, a);
    }
  }

  ghost predicate SameTotal(db: Db, db': Db, a: nat) {
    a in db.activities ==> a in db'.activities && Total(db', a) == Total(db, a)
  }

  lemma TotalsKept(w: World, steps: seq<Step>)
    requires DbOk(w.db)
    ensures DbOk(Exec(w, steps).db)
    ensures forall a :: SameTotal(w.db, Exec(w, steps).db, a)
  {
    hide Exec, DbOk, StockOk, Total;
    ProtocolKeepsDb(w, steps);
  }

  lemma LegKeepsTotals(w: World, job: Job, rows: seq<OrderNo>, env: nat -> seq<Step>, fate: nat -> Fate, gap: seq<Step>)
    requires DbOk(w.db)
    ensures DbOk(Leg(w, job, rows, env, fate, gap).db)
    ensures forall a :: SameTotal(w.db, Leg(w, job, rows, env, fate, gap).db, a)
  {
    hide Exec, DbOk, JobTrace, SameTotal;
    var mid := Exec(w, JobTrace(job, rows, env, fate));
    TotalsKept(w, JobTrace(job, rows, env, fate));
    TotalsKept(mid, gap);
    forall a ensures SameTotal(w.db, Leg(w, job, rows, env, fate, gap).db, a) {
      SameTotalTwice(w.db, mid.db, Exec(mid, gap).db, a);
    }
  }

  lemma SameTotalTwice(db: Db, mid: Db, db': Db, a: nat)
    requires SameTotal(db, mid, a) && SameTotal(mid, db', a)
    ensures SameTotal(db, db', a)
  {
  }

  lemma OnlyPaidLive(db: Db, a: nat)
    requires forall no :: no in db.orders ==> Rank(db.orders[no].status) == 2
    ensures a in db.activities ==> db.activities[a].stock + |PaidOrders(db.orders, a)| == Total(db, a)
  {
    assert Live(db.orders, a) == PaidOrders(db.orders, a);
  }
}
