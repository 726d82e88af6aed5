/** The compensation pass as a whole, and two of them with the worker in between. */
module Passes {
  import opened Keys
  import opened Model
  import opened ActivityStock
  import opened Lifecycle
  import opened Protocol
  import opened ProtocolDb
  import opened RepairLoops
  import opened Recovery
  import opened Terms
  import C = Cart
  import L = ProtocolLimits
  import S = Stamps

  // ---------- the pieces of a compensation pass ----------

  datatype CompensationResult =
    CompensationResult(requeuedOrders: nat, closedOrders: nat, endedActivities: nat, failedCount: nat)

  /** Every row of every loop goes well. */
  function EverFine(): nat -> nat -> Fate {
    (loop: nat) => AllFine()
  }

  /** What one pass read: the clock once, and the rows of its three queries. */
  datatype Scan = Scan(now: int, queued: seq<OrderNo>, unpaid: seq<OrderNo>, over: seq<nat>)

  function AtLeastZero(seconds: int): nat {
    if seconds < 0 then 0 else seconds
  }

  function AfterRequeue(w: World, scan: Scan, env: nat -> nat -> seq<Step>, fate: nat -> nat -> Fate,
      gap: nat -> seq<Step>): World
  {
    Leg(w, Requeueing(scan.now), scan.queued, env(0), fate(0), gap(0))
  }

  function AfterClose(w: World, scan: Scan, env: nat -> nat -> seq<Step>, fate: nat -> nat -> Fate,
      gap: nat -> seq<Step>): World
  {
    Leg(AfterRequeue(w, scan, env, fate, gap), Closing, scan.unpaid, env(1), fate(1), gap(1))
  }

  predicate PassDone(w: World, scan: Scan, env: nat -> nat -> seq<Step>, fate: nat -> nat -> Fate,
      gap: nat -> seq<Step>, w': World)
  {
    w' == Exec(AfterClose(w, scan, env, fate, gap), EndTrace(scan.over, env(2), fate(2)))
  }

  /** Each query returned exactly the rows it asks for, at the moment it ran, and each row once. */
  ghost predicate ScanRight(w: World, scan: Scan, env: nat -> nat -> seq<Step>, fate: nat -> nat -> Fate,
      gap: nat -> seq<Step>, queuedTimeout: nat, payTimeout: nat)
  {
    && Distinct(scan.queued) && Distinct(scan.unpaid) && Distinct(scan.over)
    && (forall no :: no in scan.queued <==>
          && no in w.db.orders && w.db.orders[no].status == Queued
          && w.db.orders[no].updatedAt <= scan.now - queuedTimeout)
    && (var db := AfterRequeue(w, scan, env, fate, gap).db;
        forall no :: no in scan.unpaid <==>
          no in db.orders && db.orders[no].status == WaitPay && db.orders[no].createdAt <= scan.now - payTimeout)
    && (var db := AfterClose(w, scan, env, fate, gap).db;
        forall a :: a in scan.over <==> Running(db, a) && db.activities[a].endAt <= scan.now)
  }

  /** What a pass reports is what it did. */
  function Counted(w: World, scan: Scan, env: nat -> nat -> seq<Step>, fate: nat -> nat -> Fate,
      gap: nat -> seq<Step>): CompensationResult
  {
    CompensationResult(
      |Hits(w, Requeueing(scan.now), scan.queued, env(0), fate(0))|,
      |Hits(AfterRequeue(w, scan, env, fate, gap), Closing, scan.unpaid, env(1), fate(1))|,
      |EndHits(AfterClose(w, scan, env, fate, gap), scan.over, env(2), fate(2))|,
      Failures(|scan.queued|, fate(0)) + Failures(|scan.unpaid|, fate(1)) + Failures(|scan.over|, fate(2)))
  }

  lemma LegOk(w: World, job: Job, rows: seq<OrderNo>, env: nat -> seq<Step>, fate: nat -> Fate, gap: seq<Step>)
    requires DbOk(w.db)
    ensures DbOk(Leg(w, job, rows, env, fate, gap).db)
  {
    LegKeepsTotals(w, job, rows, env, fate, gap);
  }

  lemma PassOk(w: World, scan: Scan, env: nat -> nat -> seq<Step>, fate: nat -> nat -> Fate,
      gap: nat -> seq<Step>, w': World)
    requires DbOk(w.db) && PassDone(w, scan, env, fate, gap, w')
    ensures DbOk(w'.db)
  {
    hide DbOk, Exec, Leg, JobTrace, EndTrace;
    LegOk(w, Requeueing(scan.now), scan.queued, env(0), fate(0), gap(0));
    LegOk(AfterRequeue(w, scan, env, fate, gap), Closing, scan.unpaid, env(1), fate(1), gap(1));
    TotalsKept(AfterClose(w, scan, env, fate, gap), EndTrace(scan.over, env(2), fate(2)));
  }

  /** A pass with zero timeouts lists every queued order. */
  lemma ZeroTimeoutQueued(w: World, scan: Scan, env: nat -> nat -> seq<Step>, fate: nat -> nat -> Fate,
      gap: nat -> seq<Step>)
    requires S.StampsOk(w.db) && scan.now == w.db.now && ScanRight(w, scan, env, fate, gap, 0, 0)
    ensures Lists(scan.queued, w.db, Queued)
  {
    hide AfterRequeue, AfterClose;
  }

  /** Without new orders, it also lists every unpaid one. */
  lemma ZeroTimeoutUnpaid(w: World, scan: Scan, env: nat -> nat -> seq<Step>, fate: nat -> nat -> Fate,
      gap: nat -> seq<Step>)
    requires S.StampsOk(w.db) && scan.now == w.db.now && ScanRight(w, scan, env, fate, gap, 0, 0)
    requires AfterRequeue(w, scan, env, fate, gap).db.orders.Keys <= w.db.orders.Keys
    ensures Lists(scan.unpaid, AfterRequeue(w, scan, env, fate, gap).db, WaitPay)
  {
    hide Leg, AfterClose, Climbs;
    var mid := AfterRequeue(w, scan, env, fate, gap);
    LegClimbs(w, Requeueing(scan.now), scan.queued, env(0), fate(0), gap(0));
    forall no | no in mid.db.orders ensures mid.db.orders[no].createdAt <= scan.now {
      CreatedOnce(w.db, mid.db, no);
    }
  }

  lemma CreatedOnce(db: Db, db': Db, no: OrderNo)
    requires Climbs(db.orders, db'.orders) && no in db.orders
    ensures no in db'.orders && db'.orders[no].createdAt == db.orders[no].createdAt
  {
    assert Later(db.orders[no], db'.orders[no]);
  }

  lemma LegClimbs(w: World, job: Job, rows: seq<OrderNo>, env: nat -> seq<Step>, fate: nat -> Fate, gap: seq<Step>)
    ensures Climbs(w.db.orders, Leg(w, job, rows, env, fate, gap).db.orders)
  {
    hide Exec, Climbs, JobTrace;
    L.ExecAppend(w, JobTrace(job, rows, env, fate), gap);
    RunClimbsOnly(w, JobTrace(job, rows, env, fate) + gap);
  }

  lemma KeysGrow(w: World, steps: seq<Step>)
    ensures w.db.orders.Keys <= Exec(w, steps).db.orders.Keys
  {
    hide Exec;
    RunClimbsOnly(w, steps);
  }

  /** The two passes and the worker as one course of recovery. */
  lemma TwoPassesRun(w0: World, scan1: Scan, w1: World, pending: seq<OrderNo>, drain: nat -> seq<Step>,
      pause: seq<Step>, w2: World, scan2: Scan, w3: World,
      env1: nat -> nat -> seq<Step>, gap1: nat -> seq<Step>, env2: nat -> nat -> seq<Step>, gap2: nat -> seq<Step>)
      returns (c: Course, s: Scans, env: nat -> nat -> seq<Step>, gap: nat -> seq<Step>)
    requires PassDone(w0, scan1, env1, EverFine(), gap1, w1)
    requires var again := Hits(w0, Requeueing(scan1.now), scan1.queued, env1(0), AllFine());
             w2 == Leg(w1, Working, pending + again, drain, AllFine(), pause)
    requires PassDone(w2, scan2, env2, EverFine(), gap2, w3)
    ensures Runs(c, s, env, gap) && c.start == w0 && c.worked == w2 && c.end == w3
    ensures c.again == AfterRequeue(w2, scan2, env2, EverFine(), gap2)
    ensures s.at == scan1.now && s.queued == scan1.queued && s.unpaidAgain == scan2.unpaid
  {
    hide Exec, Next, JobTrace, Hits, EndTrace, Leg;
    var again := AfterRequeue(w2, scan2, env2, EverFine(), gap2);
    var last := EndTrace(scan2.over, env2(2), AllFine());
    env := (i: nat) => if i < 2 then env1(i) else if i == 2 then drain else if i == 3 then env2(0) else env2(1);
    gap := (i: nat) => if i < 2 then gap1(i) else if i == 2 then pause else if i == 3 then gap2(0) else gap2(1) + last;
    var requeued := AfterRequeue(w0, scan1, env1, EverFine(), gap1);
    var closed := AfterClose(w0, scan1, env1, EverFine(), gap1);
    c := Course(w0, requeued, closed, w1, w2, again, w3);
    s := Scans(scan1.now, scan1.queued, scan1.unpaid, EndTrace(scan1.over, env1(2), AllFine()), pending,
               scan2.now, scan2.queued, scan2.unpaid);
    LegTail(again, Closing, scan2.unpaid, env2(1), AllFine(), gap2(1), last);
    assert env(0) == env1(0) && env(1) == env1(1) && env(2) == drain && env(3) == env2(0) && env(4) == env2(1);
  }

  lemma TwoPassesRecover(w0: World, scan1: Scan, w1: World, pending: seq<OrderNo>, drain: nat -> seq<Step>,
      pause: seq<Step>, w2: World, scan2: Scan, w3: World,
      env1: nat -> nat -> seq<Step>, gap1: nat -> seq<Step>, env2: nat -> nat -> seq<Step>, gap2: nat -> seq<Step>)
    requires DbOk(w0.db) && DbOk(w2.db) && scan1.now == w0.db.now && scan2.now == w2.db.now
    requires PassDone(w0, scan1, env1, EverFine(), gap1, w1) && ScanRight(w0, scan1, env1, EverFine(), gap1, 0, 0)
    requires var again := Hits(w0, Requeueing(scan1.now), scan1.queued, env1(0), AllFine());
             w2 == Leg(w1, Working, pending + again, drain, AllFine(), pause)
    requires PassDone(w2, scan2, env2, EverFine(), gap2, w3) && ScanRight(w2, scan2, env2, EverFine(), gap2, 0, 0)
    ensures w3.db.orders.Keys == w0.db.orders.Keys ==>
      && (forall no :: no in w3.db.orders ==> Rank(w3.db.orders[no].status) == 2)
      && (forall a :: a in w0.db.activities ==>
            a in w3.db.activities && w3.db.activities[a].stock == Total(w0.db, a) - |PaidOrders(w3.db.orders, a)|)
  {
    hide Exec, Next, JobTrace, Hits, EndTrace, Total, Lists, ScanRight, Leg, PassDone, Runs, AfterRequeue;
    hide StockOk, ReturnsOk, PaymentsOk, S.StampsOk, C.CartOk;
    if w3.db.orders.Keys == w0.db.orders.Keys {
      var c, s, env, gap := TwoPassesRun(w0, scan1, w1, pending, drain, pause, w2, scan2, w3, env1, gap1, env2, gap2);
      CourseKeys(c, s, env, gap);
      ZeroTimeoutQueued(w0, scan1, env1, EverFine(), gap1);
      ZeroTimeoutUnpaid(w2, scan2, env2, EverFine(), gap2);
      EverythingRecovers(c, s, env, gap);
    }
  }

  lemma LegTail(w: World, job: Job, rows: seq<OrderNo>, env: nat -> seq<Step>, fate: nat -> Fate,
      gap: seq<Step>, more: seq<Step>)
    ensures Exec(Leg(w, job, rows, env, fate, gap), more) == Leg(w, job, rows, env, fate, gap + more)
  {
    hide Exec, JobTrace;
    L.ExecAppend(Exec(w, JobTrace(job, rows, env, fate)), gap, more);
  }

  lemma LegKeys(w: World, job: Job, rows: seq<OrderNo>, env: nat -> seq<Step>, fate: nat -> Fate, gap: seq<Step>)
    ensures w.db.orders.Keys <= Leg(w, job, rows, env, fate, gap).db.orders.Keys
  {
    hide Exec, JobTrace;
    KeysGrow(w, JobTrace(job, rows, env, fate));
    KeysGrow(Exec(w, JobTrace(job, rows, env, fate)), gap);
  }

  /** Orders are never deleted. */
  lemma CourseKeys(c: Course, s: Scans, env: nat -> nat -> seq<Step>, gap: nat -> seq<Step>)
    requires Runs(c, s, env, gap)
    ensures c.start.db.orders.Keys <= c.worked.db.orders.Keys <= c.again.db.orders.Keys <= c.end.db.orders.Keys
  {
    hide Exec, Leg, JobTrace, Backlog;
    LegKeys(c.start, Requeueing(s.at), s.queued, env(0), AllFine(), gap(0));
    LegKeys(c.requeued, Closing, s.unpaid, env(1), AllFine(), gap(1));
    KeysGrow(c.closed, s.ending);
    LegKeys(c.ended, Working, Backlog(c, s, env), env(2), AllFine(), gap(2));
    LegKeys(c.worked, Requeueing(s.atAgain), s.queuedAgain, env(3), AllFine(), gap(3));
    LegKeys(c.again, Closing, s.unpaidAgain, env(4), AllFine(), gap(4));
  }

  lemma NothingToRestore(w: World, job: Job, no: OrderNo, f: Fate)
    requires w.held == None && !Acts(w.db, job, no) && (job == Expiring || job == Closing)
    ensures FateDone(w, job, no, f) == w
  {
  }

  /** An activity listed earlier is still there: rows are never deleted. */
  lemma ActivityStays(w: World, done: seq<Step>, env: seq<Step>, a: nat)
    requires DbOk(w.db) && a in w.db.activities
    ensures a in Next(Exec(Exec(w, done), env), RestoreCommit).db.activities
  {
    hide Exec, Next, DbOk, StockOk, Total;
    L.ExecAppend(w, done, env);
    L.ExecOne(w, done + env, RestoreCommit);
    ProtocolKeepsDb(w, done + env + [RestoreCommit]);
  }

  lemma RowReady(w: World, done: seq<Step>, env: seq<Step>)
    requires DbOk(w.db)
    ensures DbOk(Next(Exec(Exec(w, done), env), RestoreCommit).db)
    ensures w.db.now <= Next(Exec(Exec(w, done), env), RestoreCommit).db.now
  {
    hide Exec, Next, DbOk, Climbs;
    L.ExecAppend(w, done, env);
    L.ExecOne(w, done + env, RestoreCommit);
    RunKeepsAll(w, done + env + [RestoreCommit]);
    ClockRuns(w, done + env + [RestoreCommit]);
  }
}
