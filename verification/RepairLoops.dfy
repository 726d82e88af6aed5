/**
  The repair loops. Each loop works through a list of rows read earlier, one
  transaction a row, with any steps of other clients before each row.
 */
module RepairLoops {
  import opened Keys
  import opened Model
  import opened Ledger
  import opened ActivityStock
  import opened Lifecycle
  import opened RedisStock
  import opened Protocol
  import opened ProtocolSafety
  import opened ProtocolRuns
  import opened ProtocolDb
  import C = Cart
  import Ev = Events
  import opened Terms
  import L = ProtocolLimits
  import P = Prices
  import S = Stamps

  datatype Job = Expiring | Closing | Requeueing(at: int) | Working

  /**
    How the transaction of one row ends. `Failed` fails before it has done
    anything, `Undone` after its Redis release, and `Unheard` commits and is
    reported as failed.
   */
  datatype Fate = Fine | Failed | Undone | Unheard

  predicate Lands(f: Fate) {
    f == Fine || f == Unheard
  }

  /** A query returns each row once. */
  ghost predicate Distinct<T>(rows: seq<T>) {
    forall i, j :: 0 <= i < j < |rows| ==> rows[i] != rows[j]
  }

  /** One row: wait for the database to be free, then the row's own transaction. */
  function RowSteps(job: Job, no: OrderNo): seq<Step> {
    match job
    case Expiring => [RestoreCommit, RestoreBegin(ByExpiry, no), RestoreCommit]
    case Closing => [RestoreCommit, RestoreBegin(ByCompensation, no), RestoreCommit]
    case Requeueing(at) => [RestoreCommit, Plain(RequeueOrder(no, at))]
    case Working => [RestoreCommit, Plain(ProcessOrder(no))]
  }

  /** One row with its fate; only a row that gives stock back can be undone after a release. */
  function FateSteps(job: Job, no: OrderNo, f: Fate): seq<Step> {
    if Lands(f) then RowSteps(job, no)
    else if f == Undone && (job == Expiring || job == Closing) then
      [RestoreCommit, RestoreBegin(if job == Expiring then ByExpiry else ByCompensation, no), RestoreRollback]
    else [RestoreCommit]
  }

  /** The loop over `rows`; `env(k)` is what everyone else does before row `k`. */
  function JobTrace(job: Job, rows: seq<OrderNo>, env: nat -> seq<Step>, fate: nat -> Fate): seq<Step> {
    if rows == [] then []
    else
      var k := |rows| - 1;
      JobTrace(job, rows[..k], env, fate) + env(k) + FateSteps(job, rows[k], fate(k))
  }

  /** The re-check inside the row's transaction. */
  predicate Acts(db: Db, job: Job, no: OrderNo) {
    no in db.orders &&
    match job
    case Expiring => InProgress(db.orders[no].status)
    case Closing => db.orders[no].status == WaitPay
    case Requeueing(at) => db.orders[no].status == Queued && at <= db.now
    case Working => db.orders[no].status == Queued
  }

  /** The world in which row `k`'s transaction runs. */
  function BeforeRow(w: World, job: Job, rows: seq<OrderNo>, env: nat -> seq<Step>, fate: nat -> Fate, k: nat): World
    requires k < |rows|
  {
    Next(Exec(w, JobTrace(job, rows[..k], env, fate) + env(k)), RestoreCommit)
  }

  /** The rows the loop acted on and counted, in order. */
  function Hits(w: World, job: Job, rows: seq<OrderNo>, env: nat -> seq<Step>, fate: nat -> Fate): seq<OrderNo> {
    if rows == [] then []
    else
      var k := |rows| - 1;
      var hit := fate(k) == Fine && Acts(BeforeRow(w, job, rows, env, fate, k).db, job, rows[k]);
      Hits(w, job, rows[..k], env, fate) + if hit then [rows[k]] else []
  }

  // ---------- one row ----------

  /** What the row's own transaction does, given a free database. */
  function RowDone(w: World, job: Job, no: OrderNo): World {
    match job
    case Expiring => Next(Next(w, RestoreBegin(ByExpiry, no)), RestoreCommit)
    case Closing => Next(Next(w, RestoreBegin(ByCompensation, no)), RestoreCommit)
    case Requeueing(at) => Next(w, Plain(RequeueOrder(no, at)))
    case Working => Next(w, Plain(ProcessOrder(no)))
  }

  function FateDone(w: World, job: Job, no: OrderNo, f: Fate): World {
    if Lands(f) then RowDone(w, job, no)
    else if f == Undone && (job == Expiring || job == Closing) then
      Next(Next(w, RestoreBegin(if job == Expiring then ByExpiry else ByCompensation, no)), RestoreRollback)
    else w
  }

  lemma ExecRow(w: World, job: Job, no: OrderNo, f: Fate)
    ensures Exec(w, FateSteps(job, no, f)) == FateDone(Next(w, RestoreCommit), job, no, f)
  {
    hide Next;
    var steps := FateSteps(job, no, f);
    ExecNothing(w);
    L.ExecOne(w, [], steps[0]);
    assert [] + [steps[0]] == [steps[0]] == steps[..1];
    if |steps| == 1 {
      assert steps[..1] == steps;
    } else {
      L.ExecOne(w, steps[..1], steps[1]);
      assert steps[..1] + [steps[1]] == steps[..2];
      if |steps| == 3 {
        L.ExecOne(w, steps[..2], steps[2]);
        assert steps[..2] + [steps[2]] == steps;
      } else {
        assert steps[..2] == steps;
      }
    }
  }

  /** The loop up to and with row `k`. */
  lemma ExecLoop(w: World, job: Job, rows: seq<OrderNo>, env: nat -> seq<Step>, fate: nat -> Fate)
    requires rows != []
    ensures Exec(w, JobTrace(job, rows, env, fate))
      == FateDone(BeforeRow(w, job, rows, env, fate, |rows| - 1), job, rows[|rows| - 1], fate(|rows| - 1))
  {
    hide Next, FateDone, FateSteps;
    var k := |rows| - 1;
    var before := JobTrace(job, rows[..k], env, fate) + env(k);
    L.ExecAppend(w, before, FateSteps(job, rows[k], fate(k)));
    ExecRow(Exec(w, before), job, rows[k], fate(k));
  }

  /** One more row of the loop. */
  lemma LoopStep(w: World, job: Job, rows: seq<OrderNo>, env: nat -> seq<Step>, fate: nat -> Fate, k: nat)
    requires k < |rows|
    ensures var before := Next(Exec(Exec(w, JobTrace(job, rows[..k], env, fate)), env(k)), RestoreCommit);
            && Exec(w, JobTrace(job, rows[..k + 1], env, fate)) == FateDone(before, job, rows[k], fate(k))
            && Hits(w, job, rows[..k + 1], env, fate)
               == Hits(w, job, rows[..k], env, fate)
                  + if fate(k) == Fine && Acts(before.db, job, rows[k]) then [rows[k]] else []
  {
    hide Next, FateDone, Acts, Exec;
    assert rows[..k + 1][..k] == rows[..k];
    ExecLoop(w, job, rows[..k + 1], env, fate);
    L.ExecAppend(w, JobTrace(job, rows[..k], env, fate), env(k));
  }

  // ---------- ending activities ----------

  function EndSteps(a: nat, f: Fate): seq<Step> {
    if Lands(f) then [RestoreCommit, Plain(EndActivityAt(a))] else [RestoreCommit]
  }

  function EndDone(w: World, a: nat, f: Fate): World {
    if Lands(f) then Next(w, Plain(EndActivityAt(a))) else w
  }

  /** The last loop of a compensation pass, over activities. */
  function EndTrace(ids: seq<nat>, env: nat -> seq<Step>, fate: nat -> Fate): seq<Step> {
    if ids == [] then []
    else
      var k := |ids| - 1;
      EndTrace(ids[..k], env, fate) + env(k) + EndSteps(ids[k], fate(k))
  }

  /** The activities the loop ended and counted, in order. */
  function EndHits(w: World, ids: seq<nat>, env: nat -> seq<Step>, fate: nat -> Fate): seq<nat> {
    if ids == [] then []
    else
      var k := |ids| - 1;
      var before := Next(Exec(Exec(w, EndTrace(ids[..k], env, fate)), env(k)), RestoreCommit);
      EndHits(w, ids[..k], env, fate) + if fate(k) == Fine && Running(before.db, ids[k]) then [ids[k]] else []
  }

  lemma EndLoopStep(w: World, ids: seq<nat>, env: nat -> seq<Step>, fate: nat -> Fate, k: nat)
    requires k < |ids|
    ensures var before := Next(Exec(Exec(w, EndTrace(ids[..k], env, fate)), env(k)), RestoreCommit);
            && Exec(w, EndTrace(ids[..k + 1], env, fate)) == EndDone(before, ids[k], fate(k))
            && EndHits(w, ids[..k + 1], env, fate)
               == EndHits(w, ids[..k], env, fate)
                  + if fate(k) == Fine && Running(before.db, ids[k]) then [ids[k]] else []
  {
    hide Next, Exec, Running;
    assert ids[..k + 1][..k] == ids[..k];
    var before := EndTrace(ids[..k], env, fate) + env(k);
    L.ExecAppend(w, EndTrace(ids[..k], env, fate), env(k));
    L.ExecOne(w, before, RestoreCommit);
    if Lands(fate(k)) {
      L.ExecOne(w, before + [RestoreCommit], Plain(EndActivityAt(ids[k])));
      assert before + [RestoreCommit] + [Plain(EndActivityAt(ids[k]))] == before + EndSteps(ids[k], fate(k));
    }
  }

  /** The world in which the transaction of activity row `k` runs. */
  function BeforeEnd(w: World, ids: seq<nat>, env: nat -> seq<Step>, fate: nat -> Fate, k: nat): World
    requires k < |ids|
  {
    Next(Exec(Exec(w, EndTrace(ids[..k], env, fate)), env(k)), RestoreCommit)
  }

  /** Only the activity's status changes, to ended. */
  function EndedIn(w: World, a: nat): World
    requires a in w.db.activities
  {
    w.(db := w.db.(activities := w.db.activities[a := w.db.activities[a].(status := Ended)]))
  }

  /**
    Right after its row lands, a running activity is ended; a row that fails or
    finds it not running changes nothing.
   */
  lemma EndRow(w: World, a: nat, f: Fate)
    requires w.held == None
    ensures EndDone(w, a, f) == if Lands(f) && Running(w.db, a) then EndedIn(w, a) else w
  {
    hide EndActivity;
    EndAnswers(w.db, a);
  }

  /** Nobody sets the status of the activity. */
  ghost predicate LeavesStatus(steps: seq<Step>, a: nat) {
    forall st :: st in steps ==> LeavesOne(st, a)
  }

  predicate LeavesOne(st: Step, a: nat) {
    !(st.Plain? && st.st.SetActivityStatus? && st.st.a == a)
  }

  predicate Lasts(db: Db, db': Db, a: nat) {
    a in db.activities && a in db'.activities
    && (db'.activities[a].status == db.activities[a].status || db'.activities[a].status == Ended)
  }

  lemma StepLasts(w: World, st: Step, a: nat)
    requires a in w.db.activities && LeavesOne(st, a)
    ensures Lasts(w.db, Next(w, st).db, a)
  {
    hide Next, DbNext;
    StepProjects(w, st);
    if DbStepsOf(w, st) != [] {
      DbRunOne(w.db, DbStepsOf(w, st)[0]);
      P.ActivityStep(w.db, DbStepsOf(w, st)[0], a);
    }
  }

  /** Then an activity keeps its status or ends. */
  lemma {:induction false} RunLasts(w: World, steps: seq<Step>, a: nat)
    requires a in w.db.activities && LeavesStatus(steps, a)
    ensures Lasts(w.db, Exec(w, steps).db, a)
    decreases |steps|
  {
    hide Next, LeavesOne;
    if steps != [] {
      assert LeavesOne(steps[0], a);
      StepLasts(w, steps[0], a);
      RunLasts(Next(w, steps[0]), steps[1..], a);
    }
  }

  /** Each row of the loop does this and nothing more. */
  ghost predicate EachEnds(w: World, ids: seq<nat>, env: nat -> seq<Step>, fate: nat -> Fate) {
    forall k :: 0 <= k < |ids| ==> EndsAt(w, ids, env, fate, k)
  }

  ghost predicate EndsAt(w: World, ids: seq<nat>, env: nat -> seq<Step>, fate: nat -> Fate, k: nat)
    requires k < |ids|
  {
    var before := BeforeEnd(w, ids, env, fate, k);
    Exec(w, EndTrace(ids[..k + 1], env, fate))
    == if Lands(fate(k)) && Running(before.db, ids[k]) then EndedIn(before, ids[k]) else before
  }

  /** Nobody sets the status of activity `ids[i]` after its row. */
  ghost predicate LeftAfter(ids: seq<nat>, env: nat -> seq<Step>, i: nat)
    requires i < |ids|
  {
    forall k :: i < k < |ids| ==> LeavesStatus(env(k), ids[i])
  }

  /**
    At the end of the loop an activity whose row landed no longer runs, and is
    ended if the row found it running, unless somebody has set its status since.
   */
  ghost predicate EndsLast(w: World, ids: seq<nat>, env: nat -> seq<Step>, fate: nat -> Fate, end: Db) {
    forall i :: 0 <= i < |ids| && Lands(fate(i)) && ids[i] in w.db.activities && LeftAfter(ids, env, i) ==>
      && ids[i] in end.activities && !Running(end, ids[i])
      && (Running(BeforeEnd(w, ids, env, fate, i).db, ids[i]) ==> end.activities[ids[i]].status == Ended)
  }

  lemma EndTail(w: World, ids: seq<nat>, env: nat -> seq<Step>, fate: nat -> Fate, i: nat, n: nat)
    requires i < n <= |ids| && LeftAfter(ids, env, i)
    requires ids[i] in Exec(w, EndTrace(ids[..i + 1], env, fate)).db.activities
    ensures Lasts(Exec(w, EndTrace(ids[..i + 1], env, fate)).db, Exec(w, EndTrace(ids[..n], env, fate)).db, ids[i])
    decreases n
  {
    hide Exec, Next, LeavesStatus, EndTrace, EndSteps;
    if n > i + 1 {
      EndTail(w, ids, env, fate, i, n - 1);
      var mid := Exec(w, EndTrace(ids[..n - 1], env, fate));
      var more := env(n - 1) + EndSteps(ids[n - 1], fate(n - 1));
      LastRow(ids, env, fate, n);
      L.ExecAppend(w, EndTrace(ids[..n - 1], env, fate), more);
      LeavesMore(env(n - 1), ids[n - 1], fate(n - 1), ids[i]);
      RunLasts(mid, more, ids[i]);
    }
  }

  lemma LastRow(ids: seq<nat>, env: nat -> seq<Step>, fate: nat -> Fate, n: nat)
    requires 0 < n <= |ids|
    ensures EndTrace(ids[..n], env, fate)
         == EndTrace(ids[..n - 1], env, fate) + (env(n - 1) + EndSteps(ids[n - 1], fate(n - 1)))
  {
    hide EndSteps;
    assert ids[..n][..n - 1] == ids[..n - 1];
  }

  lemma LeavesMore(env: seq<Step>, b: nat, f: Fate, a: nat)
    requires LeavesStatus(env, a)
    ensures LeavesStatus(env + EndSteps(b, f), a)
  {
  }

  lemma EndsEach(w: World, ids: seq<nat>, env: nat -> seq<Step>, fate: nat -> Fate)
    ensures EachEnds(w, ids, env, fate)
  {
    hide EndsAt;
    forall k | 0 <= k < |ids| ensures EndsAt(w, ids, env, fate, k) {
      EndsHere(w, ids, env, fate, k);
    }
  }

  lemma EndsHere(w: World, ids: seq<nat>, env: nat -> seq<Step>, fate: nat -> Fate, k: nat)
    requires k < |ids|
    ensures EndsAt(w, ids, env, fate, k)
  {
    hide Exec, Next, EndDone, Lands;
    EndLoopStep(w, ids, env, fate, k);
    FreeAfterWait(Exec(Exec(w, EndTrace(ids[..k], env, fate)), env(k)));
    EndRow(BeforeEnd(w, ids, env, fate, k), ids[k], fate(k));
  }

  lemma EndsStay(w: World, ids: seq<nat>, env: nat -> seq<Step>, fate: nat -> Fate)
    requires DbOk(w.db)
    ensures EndsLast(w, ids, env, fate, Exec(w, EndTrace(ids, env, fate)).db)
  {
    hide Exec, Next, DbOk, EndTrace, Lands, LeavesStatus;
    EndsEach(w, ids, env, fate);
    assert ids[..|ids|] == ids;
    forall i | 0 <= i < |ids| && Lands(fate(i)) && ids[i] in w.db.activities && LeftAfter(ids, env, i)
      ensures var end := Exec(w, EndTrace(ids, env, fate)).db;
              && ids[i] in end.activities && !Running(end, ids[i])
              && (Running(BeforeEnd(w, ids, env, fate, i).db, ids[i]) ==> end.activities[ids[i]].status == Ended)
    {
      BeforeEndHas(w, ids, env, fate, i);
      assert EndsAt(w, ids, env, fate, i);
      EndTail(w, ids, env, fate, i, |ids|);
    }
  }

  lemma BeforeEndHas(w: World, ids: seq<nat>, env: nat -> seq<Step>, fate: nat -> Fate, i: nat)
    requires DbOk(w.db) && i < |ids| && ids[i] in w.db.activities
    ensures ids[i] in BeforeEnd(w, ids, env, fate, i).db.activities
  {
    hide Exec, Next, DbOk, StockOk, Total;
    var before := EndTrace(ids[..i], env, fate);
    L.ExecAppend(w, before, env(i));
    L.ExecOne(w, before + env(i), RestoreCommit);
    ProtocolKeepsDb(w, before + env(i) + [RestoreCommit]);
  }

  lemma RestoreNow(db: Db, who: By, no: OrderNo)
    requires DbOk(db) && no in db.orders
    requires (who == ByExpiry && InProgress(db.orders[no].status))
      || (who == ByCompensation && db.orders[no].status == WaitPay)
    ensures Restores(db, who, no)
    ensures no in After(db, RestoreTx(db, who, no)).orders
    ensures After(db, RestoreTx(db, who, no)).orders[no].status == Closed
  {
    hide C.CartOk, StockOk, RestoreStock, ReturnsOk, PaymentsOk;
    C.RestoreAlwaysCommits(db, no);
    OnlyOrders(db, no);
  }

  lemma OnlyOrders(db: Db, no: OrderNo)
    requires no in db.orders && RestoreStock(db, no, db.orders[no]).Commit?
    ensures RestoreStock(db, no, db.orders[no]).db.orders == db.orders
  {
  }

  /** After its transaction a row is no longer one the job would act on. */
  lemma RowSettles(w: World, job: Job, no: OrderNo)
    requires DbOk(w.db) && w.held == None && no in w.db.orders && !job.Requeueing?
    ensures no in RowDone(w, job, no).db.orders && !Acts(RowDone(w, job, no).db, job, no)
    ensures RowDone(w, job, no).held == None
  {
    hide DbOk, RestoreTx, Restores;
    match job
    case Working =>
    case Requeueing(_) =>
    case Expiring => RestoreSettles(w, ByExpiry, no);
    case Closing => RestoreSettles(w, ByCompensation, no);
  }

  /** Exactly what the row's transaction leaves in the database, whatever its fate. */
  lemma RowDoes(w: World, job: Job, no: OrderNo, f: Fate)
    requires DbOk(w.db) && w.held == None && (job.Requeueing? ==> job.at <= w.db.now)
    ensures var db' := FateDone(w, job, no, f).db;
            if !Lands(f) || !Acts(w.db, job, no) then db' == w.db
            else
              match job
              case Expiring => OpenOrder(w.db, no) && GivesBack(w.db, db', no, Closed)
              case Closing => w.db.orders[no].status == WaitPay && GivesBack(w.db, db', no, Closed)
              case Requeueing(at) => db' == w.db.(orders := w.db.orders[no := w.db.orders[no].(updatedAt := at)])
              case Working =>
                && w.db.orders[no].status == Queued
                && db' == w.db.(orders := w.db.orders[no := w.db.orders[no].(status := WaitPay, updatedAt := w.db.now)])
  {
    hide Next, GivesBack, DbOk;
    match job
    case Expiring => RestoreRow(w, ByExpiry, no);
    case Closing => RestoreRow(w, ByCompensation, no);
    case Requeueing(at) => RequeueRowIs(w, no, at);
    case Working => ProcessRowIs(w, no);
  }

  lemma RestoreRow(w: World, who: By, no: OrderNo)
    requires DbOk(w.db) && w.held == None && (who == ByExpiry || who == ByCompensation)
    ensures var begun := Next(w, RestoreBegin(who, no));
            var acts := Acts(w.db, if who == ByExpiry then Expiring else Closing, no);
            && Next(begun, RestoreRollback).db == w.db
            && (if acts then OpenOrder(w.db, no) && GivesBack(w.db, Next(begun, RestoreCommit).db, no, Closed)
                else Next(begun, RestoreCommit).db == w.db)
  {
    hide Expire, CloseUnpaid, GivesBack, C.CartOk, StockOk, ReturnsOk, PaymentsOk, ReleaseScript;
    ExpireAnswers(w.db, no);
    CloseAnswers(w.db, no);
    if Restores(w.db, who, no) && no in w.db.orders {
      hide Next;
      BeginIsRelease(w, who, no);
      EndIsCommit(Next(w, RestoreBegin(who, no)), who, no);
    }
  }

  lemma RequeueRowIs(w: World, no: OrderNo, at: int)
    requires w.held == None && at <= w.db.now
    ensures Next(w, Plain(RequeueOrder(no, at))).db
         == if no in w.db.orders && w.db.orders[no].status == Queued
            then w.db.(orders := w.db.orders[no := w.db.orders[no].(updatedAt := at)]) else w.db
  {
    hide Requeue;
    QueueAnswers(w.db, no, at);
  }

  lemma ProcessRowIs(w: World, no: OrderNo)
    requires w.held == None
    ensures Next(w, Plain(ProcessOrder(no))).db
         == if no in w.db.orders && w.db.orders[no].status == Queued
            then w.db.(orders := w.db.orders[no := w.db.orders[no].(status := WaitPay, updatedAt := w.db.now)])
            else w.db
  {
    hide Process;
    QueueAnswers(w.db, no, 0);
  }

  lemma RestoreSettles(w: World, who: By, no: OrderNo)
    requires DbOk(w.db) && w.held == None && no in w.db.orders && (who == ByExpiry || who == ByCompensation)
    ensures var w' := Next(Next(w, RestoreBegin(who, no)), RestoreCommit);
            && w'.held == None && no in w'.db.orders
            && w'.db.orders[no].status != WaitPay && (who == ByExpiry ==> !InProgress(w'.db.orders[no].status))
  {
    hide DbOk, RestoreTx, Restores;
    if who == ByExpiry && InProgress(w.db.orders[no].status) {
      RestoreNow(w.db, who, no);
    } else if who == ByCompensation && w.db.orders[no].status == WaitPay {
      RestoreNow(w.db, who, no);
    } else {
      NoRestore(w.db, who, no);
    }
  }

  lemma NoRestore(db: Db, who: By, no: OrderNo)
    requires no in db.orders
    requires (who == ByExpiry && !InProgress(db.orders[no].status))
      || (who == ByCompensation && db.orders[no].status != WaitPay)
    ensures !Restores(db, who, no)
  {
  }

  /** The fates of the rows of a loop in which nothing fails. */
  function AllFine(): nat -> Fate {
    (i: nat) => Fine
  }

  /** How many of the first `n` rows are reported as failed. */
  function Failures(n: nat, fate: nat -> Fate): nat {
    if n == 0 then 0 else Failures(n - 1, fate) + Bit(fate(n - 1) != Fine)
  }

  // ---------- the loop ----------

  /** A settled row stays settled: statuses only climb. */
  lemma StaysSettled(db: Db, db': Db, job: Job, no: OrderNo)
    requires Climbs(db.orders, db'.orders) && no in db.orders && !job.Requeueing?
    requires !Acts(db, job, no)
    requires job.Closing? ==> Rank(db.orders[no].status) >= 1
    ensures !Acts(db', job, no)
  {
    assert Later(db.orders[no], db'.orders[no]);
  }

  lemma RunKeepsAll(w: World, steps: seq<Step>)
    requires DbOk(w.db)
    ensures DbOk(Exec(w, steps).db) && Climbs(w.db.orders, Exec(w, steps).db.orders)
  {
    hide DbOk, Exec, Conserves, KeepsPayments, C.CartKept, Climbs;
    ProtocolKeepsDb(w, steps);
  }

  lemma BeforeRowOk(w: World, job: Job, rows: seq<OrderNo>, env: nat -> seq<Step>, fate: nat -> Fate, k: nat)
    requires DbOk(w.db) && k < |rows|
    ensures var b := BeforeRow(w, job, rows, env, fate, k);
            DbOk(b.db) && b.held == None && Climbs(w.db.orders, b.db.orders)
  {
    hide DbOk, Exec, Climbs, Next;
    var steps := JobTrace(job, rows[..k], env, fate) + env(k);
    L.ExecOne(w, steps, RestoreCommit);
    RunKeepsAll(w, steps + [RestoreCommit]);
    FreeAfterWait(Exec(w, steps));
  }

  lemma FreeAfterWait(w: World)
    ensures Next(w, RestoreCommit).held == None
  {
  }

  lemma AfterRowOk(w: World, job: Job, rows: seq<OrderNo>, env: nat -> seq<Step>, fate: nat -> Fate)
    requires DbOk(w.db) && rows != []
    ensures Climbs(Exec(w, JobTrace(job, rows[..|rows| - 1], env, fate)).db.orders,
      Exec(w, JobTrace(job, rows, env, fate)).db.orders)
  {
    hide DbOk, Exec, Climbs, Next;
    var k := |rows| - 1;
    var first := JobTrace(job, rows[..k], env, fate);
    var more := env(k) + FateSteps(job, rows[k], fate(k));
    assert JobTrace(job, rows, env, fate) == first + more;
    L.ExecAppend(w, first, more);
    RunKeepsAll(w, first);
    RunKeepsAll(Exec(w, first), more);
  }

  /**
    With everyone else running in between and other rows failing, after the loop
    a row whose transaction lands is no longer one the job acts on: expired rows
    are closed, cancelled or paid, closed rows are past payment, worked rows are
    past the queue.
   */
  lemma {:induction false} LoopSettles(w: World, job: Job, rows: seq<OrderNo>, env: nat -> seq<Step>,
      fate: nat -> Fate, i: nat)
    requires DbOk(w.db) && !job.Requeueing?
    requires i < |rows| && Lands(fate(i)) && rows[i] in w.db.orders
    requires job.Closing? ==> Rank(w.db.orders[rows[i]].status) >= 1
    ensures var end := Exec(w, JobTrace(job, rows, env, fate));
            rows[i] in end.db.orders && !Acts(end.db, job, rows[i])
    decreases |rows|
  {
    hide DbOk, Exec, Next, RowDone, Climbs, Acts;
    var k, no := |rows| - 1, rows[i];
    RunKeepsAll(w, JobTrace(job, rows, env, fate));
    InOrders(w.db, Exec(w, JobTrace(job, rows, env, fate)).db, no);
    if i == k {
      ExecLoop(w, job, rows, env, fate);
      BeforeRowOk(w, job, rows, env, fate, k);
      InOrders(w.db, BeforeRow(w, job, rows, env, fate, k).db, no);
      RowSettles(BeforeRow(w, job, rows, env, fate, k), job, no);
    } else {
      LoopSettles(w, job, rows[..k], env, fate, i);
      var mid := Exec(w, JobTrace(job, rows[..k], env, fate));
      RunKeepsAll(w, JobTrace(job, rows[..k], env, fate));
      InOrders(w.db, mid.db, no);
      AfterRowOk(w, job, rows, env, fate);
      StaysSettled(mid.db, Exec(w, JobTrace(job, rows, env, fate)).db, job, no);
    }
  }

  lemma InOrders(db: Db, db': Db, no: OrderNo)
    requires Climbs(db.orders, db'.orders) && no in db.orders
    ensures no in db'.orders && Rank(db.orders[no].status) <= Rank(db'.orders[no].status)
  {
  }

  /** After the requeue loop every row that went well has been published or has already left the queue. */
  lemma {:induction false} LoopRequeues(w: World, at: int, rows: seq<OrderNo>, env: nat -> seq<Step>,
      fate: nat -> Fate, i: nat)
    requires DbOk(w.db) && at <= w.db.now
    requires i < |rows| && fate(i) == Fine && rows[i] in w.db.orders
    ensures var end := Exec(w, JobTrace(Requeueing(at), rows, env, fate));
            && rows[i] in end.db.orders
            && (rows[i] in Hits(w, Requeueing(at), rows, env, fate) || end.db.orders[rows[i]].status != Queued)
    decreases |rows|
  {
    hide DbOk, Exec, Next, RowDone, Climbs, Acts, BeforeRow, JobTrace;
    var job := Requeueing(at);
    var k, no := |rows| - 1, rows[i];
    var end := Exec(w, JobTrace(job, rows, env, fate));
    RunKeepsAll(w, JobTrace(job, rows, env, fate));
    InOrders(w.db, end.db, no);
    var b := BeforeRow(w, job, rows, env, fate, k);
    BeforeRowOk(w, job, rows, env, fate, k);
    ClockForward(w, job, rows, env, fate, k);
    if i == k {
      InOrders(w.db, b.db, no);
      if !Acts(b.db, job, no) {
        ExecLoop(w, job, rows, env, fate);
        RequeueClimbs(b, at, no);
        InOrders(b.db, end.db, no);
        LeftQueue(b.db, at, no);
      }
    } else {
      LoopRequeues(w, at, rows[..k], env, fate, i);
      RunKeepsAll(w, JobTrace(job, rows[..k], env, fate));
      AfterRowOk(w, job, rows, env, fate);
      InOrders(Exec(w, JobTrace(job, rows[..k], env, fate)).db, end.db, no);
    }
  }

  lemma LeftQueue(db: Db, at: int, no: OrderNo)
    requires no in db.orders && at <= db.now && !Acts(db, Requeueing(at), no)
    ensures Rank(db.orders[no].status) >= 1
  {
  }

  lemma RequeueClimbs(b: World, at: int, no: OrderNo)
    ensures Climbs(b.db.orders, RowDone(b, Requeueing(at), no).db.orders)
  {
    StepClimbs(b.db, RequeueOrder(no, at));
    SelfClimbs(b.db.orders);
  }

  lemma SelfClimbs(orders: map<OrderNo, Order>)
    ensures Climbs(orders, orders)
  {
  }

  lemma ClockForward(w: World, job: Job, rows: seq<OrderNo>, env: nat -> seq<Step>, fate: nat -> Fate, k: nat)
    requires k < |rows|
    ensures w.db.now <= BeforeRow(w, job, rows, env, fate, k).db.now
  {
    hide Next, Exec;
    var steps := JobTrace(job, rows[..k], env, fate) + env(k);
    L.ExecOne(w, steps, RestoreCommit);
    ClockRuns(w, steps + [RestoreCommit]);
  }

  lemma ClockRuns(w: World, steps: seq<Step>)
    ensures w.db.now <= Exec(w, steps).db.now
  {
    hide Exec, DbTrace, DbRun;
    RunProjects(w, steps);
    DbClock(w.db, DbTrace(w, steps));
  }

  lemma {:induction false} DbClock(db: Db, steps: seq<DbStep>)
    ensures db.now <= DbRun(db, steps).now
    decreases |steps|
  {
    hide DbNext, Ev.Holds, Ev.Apply;
    if steps == [] {
    } else {
      var ev := Ev.StepEvent(db, steps[0]);
      S.ClockAfter(db, ev);
      DbClock(DbNext(db, steps[0]), steps[1..]);
    }
  }

  // ---------- what the counters count ----------

  lemma RunClimbsOnly(w: World, steps: seq<Step>)
    ensures Climbs(w.db.orders, Exec(w, steps).db.orders)
  {
    hide Exec, DbTrace, DbRun, Climbs;
    RunProjects(w, steps);
    RunClimbs(w.db, DbTrace(w, steps));
  }

  lemma ExecNothing(w: World)
    ensures Exec(w, []) == w
  {
  }

  /** Every order a closing or expiring loop counts ends closed, counted once. */
  lemma {:induction false} HitsClosed(w: World, job: Job, rows: seq<OrderNo>, env: nat -> seq<Step>, fate: nat -> Fate)
    requires DbOk(w.db) && (job.Expiring? || job.Closing?)
    ensures var end := Exec(w, JobTrace(job, rows, env, fate));
            forall no :: no in Hits(w, job, rows, env, fate) ==>
              no in end.db.orders && end.db.orders[no].status == Closed
    ensures Distinct(Hits(w, job, rows, env, fate))
    decreases |rows|
  {
    hide DbOk, Next, Exec, RowDone, Climbs, BeforeRow;
    if rows != [] {
      var k := |rows| - 1;
      var end := Exec(w, JobTrace(job, rows, env, fate));
      var mid := Exec(w, JobTrace(job, rows[..k], env, fate));
      var b := BeforeRow(w, job, rows, env, fate, k);
      HitsClosed(w, job, rows[..k], env, fate);
      AfterRowOk(w, job, rows, env, fate);
      BeforeRowOk(w, job, rows, env, fate, k);
      MidToBefore(w, job, rows, env, fate, k);
      ExecLoop(w, job, rows, env, fate);
      forall no | no in Hits(w, job, rows[..k], env, fate)
        ensures no in end.db.orders && end.db.orders[no].status == Closed && !Acts(b.db, job, no)
      {
        FinalLater(mid.db, end.db, no);
        FinalLater(mid.db, b.db, no);
      }
      if fate(k) == Fine && Acts(b.db, job, rows[k]) {
        RowCloses(b, job, rows[k]);
      }
    }
  }

  lemma FinalLater(db: Db, db': Db, no: OrderNo)
    requires Climbs(db.orders, db'.orders) && no in db.orders && Rank(db.orders[no].status) == 2
    ensures no in db'.orders && db'.orders[no].status == db.orders[no].status
  {
  }

  lemma MidToBefore(w: World, job: Job, rows: seq<OrderNo>, env: nat -> seq<Step>, fate: nat -> Fate, k: nat)
    requires k < |rows|
    ensures Climbs(Exec(w, JobTrace(job, rows[..k], env, fate)).db.orders,
      BeforeRow(w, job, rows, env, fate, k).db.orders)
  {
    hide Next, Exec, Climbs;
    var first := JobTrace(job, rows[..k], env, fate);
    L.ExecOne(w, first + env(k), RestoreCommit);
    L.ExecAppend(w, first, env(k) + [RestoreCommit]);
    assert first + (env(k) + [RestoreCommit]) == first + env(k) + [RestoreCommit];
    RunClimbsOnly(Exec(w, first), env(k) + [RestoreCommit]);
  }

  lemma RowCloses(w: World, job: Job, no: OrderNo)
    requires DbOk(w.db) && w.held == None && (job.Expiring? || job.Closing?) && Acts(w.db, job, no)
    ensures no in RowDone(w, job, no).db.orders && RowDone(w, job, no).db.orders[no].status == Closed
  {
    hide DbOk, RestoreTx, Restores;
    RestoreNow(w.db, if job.Expiring? then ByExpiry else ByCompensation, no);
  }

  // ---------- rows counted and rows acted on ----------

  /** Every row that goes well still passes its re-check when its turn comes. */
  ghost predicate AllAct(w: World, job: Job, rows: seq<OrderNo>, env: nat -> seq<Step>, fate: nat -> Fate) {
    forall i :: 0 <= i < |rows| && fate(i) == Fine ==> Acts(BeforeRow(w, job, rows, env, fate, i).db, job, rows[i])
  }

  /**
    The rows a loop acts on and the rows that fail are never more than the rows
    listed, and they are all of them if and only if no row that goes well is
    skipped by its re-check.
   */
  lemma {:induction false} HitsAtMost(w: World, job: Job, rows: seq<OrderNo>, env: nat -> seq<Step>, fate: nat -> Fate)
    ensures |Hits(w, job, rows, env, fate)| + Failures(|rows|, fate) <= |rows|
    ensures |Hits(w, job, rows, env, fate)| + Failures(|rows|, fate) == |rows| <==> AllAct(w, job, rows, env, fate)
    decreases |rows|
  {
    hide BeforeRow, Acts, AllAct;
    if rows == [] {
      NoneToAct(w, job, env, fate);
    } else {
      HitsAtMost(w, job, rows[..|rows| - 1], env, fate);
      LastActs(w, job, rows, env, fate);
    }
  }

  lemma NoneToAct(w: World, job: Job, env: nat -> seq<Step>, fate: nat -> Fate)
    ensures AllAct(w, job, [], env, fate)
  {
  }

  lemma LastActs(w: World, job: Job, rows: seq<OrderNo>, env: nat -> seq<Step>, fate: nat -> Fate)
    requires rows != []
    ensures var k := |rows| - 1;
            AllAct(w, job, rows, env, fate) <==>
              AllAct(w, job, rows[..k], env, fate)
              && (fate(k) == Fine ==> Acts(BeforeRow(w, job, rows, env, fate, k).db, job, rows[k]))
  {
    hide BeforeRow, Acts;
    var k := |rows| - 1;
    forall i | 0 <= i < k
      ensures BeforeRow(w, job, rows[..k], env, fate, i) == BeforeRow(w, job, rows, env, fate, i)
    {
      SameBefore(w, job, rows, env, fate, k, i);
    }
  }

  lemma SameBefore(w: World, job: Job, rows: seq<OrderNo>, env: nat -> seq<Step>, fate: nat -> Fate, k: nat, i: nat)
    requires i < k <= |rows|
    ensures BeforeRow(w, job, rows[..k], env, fate, i) == BeforeRow(w, job, rows, env, fate, i)
  {
    hide Exec, Next;
    assert rows[..k][..i] == rows[..i];
  }

  /** A user cancels just before the row's turn. */
  function CancelFirst(user: UserId, no: OrderNo): nat -> seq<Step> {
    (k: nat) => [RestoreBegin(ByUser(user), no), RestoreCommit]
  }

  /**
    A reachable shop whose one open order is due, and whose owner cancels after
    the expiry pass has listed it: the row is counted, and the order is not
    expired but cancelled.
   */
  lemma SkippedRun() returns (steps: seq<Step>, w: World)
    ensures w == Exec(Start(0), steps) && w.db.orders.Keys == {"A"} && InProgress(w.db.orders["A"].status)
    ensures Hits(w, Expiring, ["A"], CancelFirst(7, "A"), AllFine()) == [] && Failures(1, AllFine()) == 0
    ensures var end := Exec(w, JobTrace(Expiring, ["A"], CancelFirst(7, "A"), AllFine()));
            "A" in end.db.orders && end.db.orders["A"].status == Cancelled
  {
    hide Exec, Next, CreateOf, ReserveOf, BeforeRow, RowDone, Acts;
    steps, w := OneOrder();
    var env := CancelFirst(7, "A");
    var before := BeforeRow(w, Expiring, ["A"], env, AllFine(), 0);
    CancelledBefore(w, ["A"]);
    ExecLoop(w, Expiring, ["A"], env, AllFine());
    NoActNow(before, "A");
    assert ["A"][..0] == [];
  }

  /** One unit, sold to user 7. */
  lemma OneOrder() returns (steps: seq<Step>, w: World)
    ensures w == Exec(Start(0), steps) && w.held == None
    ensures w.db.activities == map[1 := L.OnSale(0)] && w.db.now == 0
    ensures w.db.orders == map["A" := NewActivityOrder(0, 7, 1, L.OnSale(1))]
  {
    hide Exec, CreateOf, ReserveOf, NewActivityOrder;
    steps, w := L.Opening();
    steps, w := L.Extend(Start(0), steps, w, Begin(1, 7, 1));
    steps, w := L.ReserveOne(Start(0), steps, w, 1, 7);
    steps, w := L.CommitFirst(Start(0), steps, w, 1, 7);
  }

  lemma CancelledBefore(w: World, rows: seq<OrderNo>)
    requires w.held == None && w.db.activities == map[1 := L.OnSale(0)] && rows != []
    requires w.db.orders == map["A" := NewActivityOrder(0, 7, 1, L.OnSale(1))]
    ensures var before := BeforeRow(w, Expiring, rows, CancelFirst(7, "A"), AllFine(), 0);
            before.held == None && "A" in before.db.orders && before.db.orders["A"].status == Cancelled
  {
    hide Exec, Next;
    var env := CancelFirst(7, "A");
    CancelNow(w);
    assert JobTrace(Expiring, rows[..0], env, AllFine()) + env(0) == [] + [env(0)[0]] + [env(0)[1]];
    ExecNothing(w);
    L.ExecOne(w, [], env(0)[0]);
    L.ExecOne(w, [] + [env(0)[0]], env(0)[1]);
  }

  lemma CancelNow(w: World)
    requires w.held == None && w.db.activities == map[1 := L.OnSale(0)]
    requires w.db.orders == map["A" := NewActivityOrder(0, 7, 1, L.OnSale(1))]
    ensures var w' := Next(Next(Next(w, RestoreBegin(ByUser(7), "A")), RestoreCommit), RestoreCommit);
            w'.held == None && "A" in w'.db.orders && w'.db.orders["A"].status == Cancelled
  {
    hide Next, Restores, RestoreTx, NewActivityOrder;
    L.FirstCancel(w);
    BeginIsRelease(w, ByUser(7), "A");
    var held := Next(w, RestoreBegin(ByUser(7), "A"));
    EndIsCommit(held, ByUser(7), "A");
    NothingHeld(Next(held, RestoreCommit));
  }

  lemma NothingHeld(w: World)
    requires w.held == None
    ensures Next(w, RestoreCommit) == w
  {
  }

  /** The row of a cancelled order changes nothing. */
  lemma NoActNow(w: World, no: OrderNo)
    requires w.held == None && no in w.db.orders && w.db.orders[no].status == Cancelled
    ensures !Acts(w.db, Expiring, no) && RowDone(w, Expiring, no) == w
  {
    NoRestore(w.db, ByExpiry, no);
  }
}
