/**
  Every run, evictions included: how many live orders have lost their mark, how
  far apart the two stocks are, and when the database has to answer sold out
  after Redis has promised a unit.
 */
module ProtocolBooks {
  import opened Keys
  import opened Model
  import opened Ledger
  import opened Lifecycle
  import opened RedisStock
  import opened ActivityStock
  import opened Protocol
  import opened ProtocolMarks
  import opened ProtocolRuns
  import D = ProtocolDb
  import Ev = Events

  // ---------- first orders ----------

  /**
    As long as a user has never had an order for the activity, there is at most
    one request of theirs in flight, and it has its mark. This survives every
    fault: only a restore or a stray release takes a mark from under a request,
    and both need an earlier order.
   */
  ghost predicate Tracked(w: World, a: nat) {
    && (forall r :: r in w.requests && Flying(w, r, a) ==> w.requests[r].user in Buyers(w.redis, a))
    && (forall r, s ::
          r in w.requests && s in w.requests && Flying(w, r, a) && SameMark(w.requests[r], w.requests[s]) ==> r == s)
    && (forall r :: r in w.requests && Strays(w, r, a) ==> HasOrder(w.db, w.requests[r].user, a))
  }

  predicate Strays(w: World, r: nat, a: nat)
    requires r in w.requests
  {
    w.requests[r].activityId == a && w.requests[r].phase == Astray
  }

  /** In flight, for a user without any order. */
  ghost predicate Flying(w: World, r: nat, a: nat)
    requires r in w.requests
  {
    w.requests[r].activityId == a && Carries(w.requests[r].phase) && !HasOrder(w.db, w.requests[r].user, a)
  }

  lemma HasOrderStays(w: World, st: Step, user: UserId, a: nat)
    requires HasOrder(w.db, user, a)
    ensures HasOrder(Next(w, st).db, user, a)
  {
    hide Next, D.DbStepsOf, DbRun;
    D.StepProjects(w, st);
    RunClimbs(w.db, D.DbStepsOf(w, st));
    var no :| no in w.db.orders && w.db.orders[no].user == user && w.db.orders[no].activityId == a;
    assert Later(w.db.orders[no], Next(w, st).db.orders[no]);
  }

  /** A request in flight now was in flight before, or has just set its mark. */
  lemma FlyingBefore(w: World, st: Step, a: nat, r: nat)
    requires r in Next(w, st).requests && Flying(Next(w, st), r, a)
    ensures var q := Next(w, st).requests[r];
            if r in w.requests && Carries(w.requests[r].phase)
            then Flying(w, r, a) && SameMark(w.requests[r], q)
            else st.Reserve? && st.r == r && q.user in Taken(w, st, a)
  {
    hide Next, HasOrder, InFlight, Taken;
    var q := Next(w, st).requests[r];
    MarkedBefore(w, st, a, r);
    if HasOrder(w.db, q.user, a) { HasOrderStays(w, st, q.user, a); }
  }

  lemma TrackedStep(w: World, st: Step, a: nat)
    requires Tracked(w, a)
    ensures Tracked(Next(w, st), a)
  {
    hide Next, HasOrder, Taken, Buyers, Dropped, Begun;
    var w' := Next(w, st);
    BuyersAfter(w, st, a);
    OnlyOne(w, st, a);
    forall r | r in w'.requests && Flying(w', r, a) ensures w'.requests[r].user in Buyers(w'.redis, a) {
      FlyingBefore(w, st, a, r);
      if w'.requests[r].user in Dropped(w, st, a) { DroppedEnds(w, st, a, r); }
      if w'.requests[r].user in Begun(w, st, a) { BegunHasOrder(w, st, a, w'.requests[r].user); }
    }
    forall r, s | r in w'.requests && s in w'.requests && Flying(w', r, a) && SameMark(w'.requests[r], w'.requests[s])
      ensures r == s
    {
      assert Flying(w', s, a);
      FlyingBefore(w, st, a, r);
      FlyingBefore(w, st, a, s);
    }
    forall r | r in w'.requests && Strays(w', r, a) ensures HasOrder(w'.db, w'.requests[r].user, a) {
      StraysBefore(w, st, a, r);
    }
  }

  /** A request is astray because it was, or because its order has just been committed. */
  lemma StraysBefore(w: World, st: Step, a: nat, r: nat)
    requires Tracked(w, a) && r in Next(w, st).requests && Strays(Next(w, st), r, a)
    ensures HasOrder(Next(w, st).db, Next(w, st).requests[r].user, a)
  {
    hide Next, HasOrder, CreateOf, ReserveOf, Flying;
    RequestsAfter(w, st);
    if r in w.requests && w.requests[r].phase == Astray {
      assert Strays(w, r, a);
      HasOrderStays(w, st, w.requests[r].user, a);
    } else {
      PlacedHasOrder(w, st.r, st.no);
    }
  }

  lemma PlacedHasOrder(w: World, r: nat, no: OrderNo)
    requires InPhase(w, r, Marked) && w.held == None && CreateOf(w, r, no).Commit?
    ensures HasOrder(Next(w, CommitReplyLost(r, no)).db, w.requests[r].user, w.requests[r].activityId)
  {
    hide KeyTaken;
    assert no in Next(w, CommitReplyLost(r, no)).db.orders;
  }

  /** A release that removes a first user's mark ends their only request. */
  lemma DroppedEnds(w: World, st: Step, a: nat, r: nat)
    requires Tracked(w, a) && r in w.requests && Flying(w, r, a) && w.requests[r].user in Dropped(w, st, a)
    ensures r !in Next(w, st).requests
  {
    hide HasOrder, Buyers, ReleaseScript;
    assert SameMark(w.requests[r], w.requests[st.r]);
  }

  lemma BegunHasOrder(w: World, st: Step, a: nat, user: UserId)
    requires user in Begun(w, st, a)
    ensures HasOrder(Next(w, st).db, user, a)
  {
    hide Restores;
  }

  lemma {:induction false} TrackedRun(w: World, steps: seq<Step>, a: nat)
    requires Tracked(w, a)
    ensures Tracked(Exec(w, steps), a)
    decreases |steps|
  {
    hide Next, Tracked;
    if steps != [] {
      TrackedStep(w, steps[0], a);
      TrackedRun(Next(w, steps[0]), steps[1..], a);
    }
  }

  // ---------- orders without a mark ----------

  /** Holders of settled orders that have lost their mark. */
  ghost function Unmarked(w: World, a: nat): set<UserId> {
    if a in w.db.activities then Settled(w, a) - Buyers(w.redis, a) else {}
  }

  /** The settled holder whose mark a step takes away: a stray release, or a restore undone after its release. */
  ghost function Evicted(w: World, st: Step, a: nat): set<UserId> {
    if a in w.db.activities
    then (Dropped(w, st, a) * Settled(w, a) * Buyers(w.redis, a)) + (Undone(w, st, a) - Buyers(w.redis, a))
    else {}
  }

  /** The unmarked holder a step deals with: marked again by a new Reserve, or given back. */
  ghost function Cured(w: World, st: Step, a: nat): set<UserId> {
    if a in w.db.activities then (Taken(w, st, a) + Begun(w, st, a)) * Unmarked(w, a) else {}
  }

  ghost function EvictedIn(w: World, steps: seq<Step>, a: nat): nat
    decreases |steps|
  {
    if steps == [] then 0 else |Evicted(w, steps[0], a)| + EvictedIn(Next(w, steps[0]), steps[1..], a)
  }

  ghost function CuredIn(w: World, steps: seq<Step>, a: nat): nat
    decreases |steps|
  {
    if steps == [] then 0 else |Cured(w, steps[0], a)| + CuredIn(Next(w, steps[0]), steps[1..], a)
  }

  lemma PlacedIsMarked(w: World, st: Step, a: nat)
    requires Tracked(w, a)
    ensures Placed(w, st, a) <= Buyers(w.redis, a)
  {
    hide Buyers, InsertOrder;
  }

  /** The two sets after a step, one case at a time. */
  lemma SetsAfter(w: World, st: Step, a: nat)
    requires Sound(w) && a in w.db.activities
    ensures a in Next(w, st).db.activities
    ensures st.Reserve? || st.ReserveReplyLost? ==>
      Settled(Next(w, st), a) == Settled(w, a) && Buyers(Next(w, st).redis, a) == Buyers(w.redis, a) + Taken(w, st, a)
    ensures st.Release? ==>
      Settled(Next(w, st), a) == Settled(w, a) && Buyers(Next(w, st).redis, a) == Buyers(w.redis, a) - Dropped(w, st, a)
    ensures st.RestoreBegin? ==>
      && Settled(Next(w, st), a) == Settled(w, a) - Begun(w, st, a)
      && Buyers(Next(w, st).redis, a) == Buyers(w.redis, a) - Begun(w, st, a)
    ensures !st.Reserve? && !st.ReserveReplyLost? && !st.Release? && !st.RestoreBegin? ==>
      && Settled(Next(w, st), a) == Settled(w, a) + Placed(w, st, a) + Undone(w, st, a)
      && Buyers(Next(w, st).redis, a) == Buyers(w.redis, a)
  {
    hide Sound, Next, Settled, Buyers, Taken, Placed, Dropped, Begun, Undone;
    BuyersAfter(w, st, a);
    SettledAfter(w, st, a);
    OnlyOne(w, st, a);
    ActivitiesAfter(w, st);
  }

  lemma UnmarkedStep(w: World, st: Step, a: nat)
    requires Sound(w) && Tracked(w, a)
    ensures |Unmarked(Next(w, st), a)| == |Unmarked(w, a)| + |Evicted(w, st, a)| - |Cured(w, st, a)|
  {
    hide Sound, Next, Tracked, Unmarked, Evicted, Cured;
    if a !in w.db.activities {
      NoneUnmarkedYet(w, st, a);
      NoneNow(w, st, a);
    } else if st.Reserve? || st.ReserveReplyLost? {
      UnmarkedTake(w, st, a);
    } else if st.Release? {
      UnmarkedDrop(w, st, a);
    } else if st.RestoreBegin? {
      UnmarkedBegin(w, st, a);
    } else {
      UnmarkedOther(w, st, a);
    }
  }

  lemma NoneNow(w: World, st: Step, a: nat)
    requires a !in w.db.activities
    ensures Unmarked(w, a) == {} && Evicted(w, st, a) == {} && Cured(w, st, a) == {}
  {
  }

  lemma UnmarkedTake(w: World, st: Step, a: nat)
    requires Sound(w) && a in w.db.activities && (st.Reserve? || st.ReserveReplyLost?)
    ensures |Unmarked(Next(w, st), a)| == |Unmarked(w, a)| + |Evicted(w, st, a)| - |Cured(w, st, a)|
  {
    hide Sound, Next, Settled, Buyers, Taken, Dropped, Begun, Undone;
    SetsAfter(w, st, a);
    OnlyOne(w, st, a);
    Recount(Settled(w, a), Buyers(w.redis, a), Taken(w, st, a), Dropped(w, st, a), Begun(w, st, a), Undone(w, st, a));
    TakeCount(Settled(w, a), Buyers(w.redis, a), Taken(w, st, a));
  }

  lemma UnmarkedDrop(w: World, st: Step, a: nat)
    requires Sound(w) && a in w.db.activities && st.Release?
    ensures |Unmarked(Next(w, st), a)| == |Unmarked(w, a)| + |Evicted(w, st, a)| - |Cured(w, st, a)|
  {
    hide Sound, Next, Settled, Buyers, Taken, Dropped, Begun, Undone;
    SetsAfter(w, st, a);
    OnlyOne(w, st, a);
    Recount(Settled(w, a), Buyers(w.redis, a), Taken(w, st, a), Dropped(w, st, a), Begun(w, st, a), Undone(w, st, a));
    DropCount(Settled(w, a), Buyers(w.redis, a), Dropped(w, st, a));
  }

  lemma UnmarkedBegin(w: World, st: Step, a: nat)
    requires Sound(w) && a in w.db.activities && st.RestoreBegin?
    ensures |Unmarked(Next(w, st), a)| == |Unmarked(w, a)| + |Evicted(w, st, a)| - |Cured(w, st, a)|
  {
    hide Sound, Next, Settled, Buyers, Taken, Dropped, Begun, Undone;
    SetsAfter(w, st, a);
    OnlyOne(w, st, a);
    Recount(Settled(w, a), Buyers(w.redis, a), Taken(w, st, a), Dropped(w, st, a), Begun(w, st, a), Undone(w, st, a));
    BeginCount(Settled(w, a), Buyers(w.redis, a), Begun(w, st, a));
  }

  lemma UnmarkedOther(w: World, st: Step, a: nat)
    requires Sound(w) && Tracked(w, a) && a in w.db.activities
    requires !st.Reserve? && !st.ReserveReplyLost? && !st.Release? && !st.RestoreBegin?
    ensures |Unmarked(Next(w, st), a)| == |Unmarked(w, a)| + |Evicted(w, st, a)| - |Cured(w, st, a)|
  {
    hide Sound, Tracked, Next, Settled, Buyers, Taken, Placed, Dropped, Begun, Undone;
    SetsAfter(w, st, a);
    PlacedIsMarked(w, st, a);
    SettledAfter(w, st, a);
    OnlyOne(w, st, a);
    Recount(Settled(w, a), Buyers(w.redis, a), Taken(w, st, a), Dropped(w, st, a), Begun(w, st, a), Undone(w, st, a));
    UndoCount(Settled(w, a), Buyers(w.redis, a), Placed(w, st, a), Undone(w, st, a));
  }

  /** The evicted and the cured of a step, when it does one thing only. */
  lemma Recount(settled: set<UserId>, buyers: set<UserId>, taken: set<UserId>, dropped: set<UserId>, begun: set<UserId>,
      undone: set<UserId>)
    ensures taken == {} && begun == {} ==> (taken + begun) * (settled - buyers) == {}
    ensures begun == {} ==> (taken + begun) * (settled - buyers) == taken * (settled - buyers)
    ensures taken == {} ==> (taken + begun) * (settled - buyers) == begun * (settled - buyers)
    ensures dropped == {} ==> dropped * settled * buyers + (undone - buyers) == undone - buyers
    ensures undone == {} ==> dropped * settled * buyers + (undone - buyers) == dropped * settled * buyers
    ensures dropped == {} && undone == {} ==> dropped * settled * buyers + (undone - buyers) == {}
  {
  }

  lemma TakeCount(settled: set<UserId>, buyers: set<UserId>, taken: set<UserId>)
    ensures |settled - (buyers + taken)| == |settled - buyers| - |taken * (settled - buyers)|
  {
    var cured := taken * (settled - buyers);
    assert settled - buyers == (settled - (buyers + taken)) + cured;
  }

  lemma DropCount(settled: set<UserId>, buyers: set<UserId>, dropped: set<UserId>)
    ensures |settled - (buyers - dropped)| == |settled - buyers| + |dropped * settled * buyers|
  {
    assert settled - (buyers - dropped) == (settled - buyers) + dropped * settled * buyers;
  }

  lemma BeginCount(settled: set<UserId>, buyers: set<UserId>, begun: set<UserId>)
    ensures |(settled - begun) - (buyers - begun)| == |settled - buyers| - |begun * (settled - buyers)|
  {
    assert settled - buyers == ((settled - begun) - (buyers - begun)) + begun * (settled - buyers);
  }

  lemma UndoCount(settled: set<UserId>, buyers: set<UserId>, placed: set<UserId>, undone: set<UserId>)
    requires placed <= buyers && undone !! settled
    ensures |(settled + placed + undone) - buyers| == |settled - buyers| + |undone - buyers|
  {
    assert (settled + placed + undone) - buyers == (settled - buyers) + (undone - buyers);
  }

  lemma NoneUnmarkedYet(w: World, st: Step, a: nat)
    requires Sound(w) && a !in w.db.activities
    ensures Unmarked(Next(w, st), a) == {}
  {
    hide Sound, Next, Holders, Buyers;
    NothingYet(w, a);
    ActivitiesAfter(w, st);
    if a in Next(w, st).db.activities { SettledNew(w, st, a); }
  }

  /** In every run the orders without a mark are those there were, plus the evictions, less the cures. */
  lemma {:induction false} UnmarkedLaw(w: World, steps: seq<Step>, a: nat)
    requires Sound(w) && Tracked(w, a)
    ensures |Unmarked(Exec(w, steps), a)| == |Unmarked(w, a)| + EvictedIn(w, steps, a) - CuredIn(w, steps, a)
    decreases |steps|
  {
    hide Sound, Next, Tracked, Unmarked, Evicted, Cured;
    if steps == [] {
    } else {
      UnmarkedStep(w, steps[0], a);
      StepSound(w, steps[0]);
      TrackedStep(w, steps[0], a);
      UnmarkedLaw(Next(w, steps[0]), steps[1..], a);
    }
  }

  lemma StartIsTracked(now: int, a: nat)
    ensures Tracked(Start(now), a) && Unmarked(Start(now), a) == {}
  {
  }

  // ---------- the two stocks after any run ----------

  lemma Difference(s: set<UserId>, t: set<UserId>)
    ensures |s| + |t - s| == |t| + |s - t|
  {
    assert s == (s * t) + (s - t);
    assert t == (s * t) + (t - s);
  }

  /** Marks without a settled order: requests in flight, stranded marks, and second reservations. */
  ghost function Spare(w: World, a: nat): set<UserId> {
    Buyers(w.redis, a) - Settled(w, a)
  }

  lemma StockGap(w: World, a: nat)
    requires Sound(w) && a in w.redis.stock
    ensures a in w.db.activities
    ensures w.redis.stock[a]
         == w.db.activities[a].stock + |Returning(w, a)| + |Unmarked(w, a)| - |Spare(w, a)| + Credit(w, a)
  {
    hide Sound, Settled, Buyers, Returning, Credit;
    StockIs(w, a);
    Difference(Settled(w, a), Buyers(w.redis, a));
  }

  /** How far the run has let Redis run ahead: evictions not cured, and what overwrites added. */
  ghost function Ahead(w: World, steps: seq<Step>, a: nat): int {
    EvictedIn(w, steps, a) - CuredIn(w, steps, a) + Shifts(w, steps, a)
  }

  /**
    The law of every run, whatever went wrong in it: the counter is MySQL stock,
    plus the order being given back, plus the evictions not cured, plus what the
    overwrites moved it by, less the marks without a settled order.
   */
  lemma DriftLaw(now: int, steps: seq<Step>, a: nat)
    ensures var w := Exec(Start(now), steps);
            a in w.redis.stock ==>
              && a in w.db.activities
              && w.redis.stock[a]
                 == w.db.activities[a].stock + |Returning(w, a)| + Ahead(Start(now), steps, a) - |Spare(w, a)|
  {
    hide Exec, Sound, Tracked, Unmarked, Credit, Returning, Spare, EvictedIn, CuredIn, Shifts;
    RunBooks(now, steps, a);
    var w := Exec(Start(now), steps);
    if a in w.redis.stock { StockGap(w, a); }
  }

  lemma RunBooks(now: int, steps: seq<Step>, a: nat)
    ensures var w := Exec(Start(now), steps);
            Sound(w) && Tracked(w, a) && |Unmarked(w, a)| + Credit(w, a) == Ahead(Start(now), steps, a)
  {
    hide Exec, Sound, Tracked, Unmarked, Credit, EvictedIn, CuredIn, Shifts;
    StartIsSound(now);
    StartIsTracked(now, a);
    assert Balanced(Start(now), a);
    RunSound(Start(now), steps);
    TrackedRun(Start(now), steps, a);
    UnmarkedLaw(Start(now), steps, a);
    CreditLaw(Start(now), steps, a);
  }

  // ---------- the fallback after any run ----------

  /**
    When the transaction after a successful Reserve answers sold out, for every
    run: the user has no order yet, and what the run let Redis run ahead covers
    the counter and all marks without a settled order, this request's among them.
   */
  lemma FallbackExactly(now: int, steps: seq<Step>, r: nat, no: OrderNo)
    ensures var w := Exec(Start(now), steps);
            InPhase(w, r, Marked) && w.held == None ==>
              var q := w.requests[r];
              var a := q.activityId;
              && a in w.redis.stock
              && (CreateOf(w, r, no) == Rollback(SoldOut) <==>
                    !HasOrder(w.db, q.user, a) && w.redis.stock[a] + |Spare(w, a)| <= Ahead(Start(now), steps, a))
  {
    hide Exec, Spare, Ahead, HasOrder, CreateReserved;
    var w := Exec(Start(now), steps);
    if InPhase(w, r, Marked) && w.held == None {
      var a := w.requests[r].activityId;
      RunBooks(now, steps, a);
      DriftLaw(now, steps, a);
      MarkedHasCounter(w, r);
      SoldOutIs(w, r, no);
    }
  }

  lemma MarkedHasCounter(w: World, r: nat)
    requires Sound(w) && InPhase(w, r, Marked)
    ensures w.requests[r].activityId in w.redis.stock
  {
    assert CounterOk(w, w.requests[r].activityId);
  }

  lemma SoldOutIs(w: World, r: nat, no: OrderNo)
    requires Sound(w) && InPhase(w, r, Marked)
    ensures var q := w.requests[r];
            var a := q.activityId;
            a in w.db.activities
            && (CreateOf(w, r, no) == Rollback(SoldOut) <==>
                 !HasOrder(w.db, q.user, a) && w.db.activities[a].stock <= 0)
  {
    hide HasOrder, KeyTaken, Restores, Holders, Live;
  }

  /**
    So a run in which overwrites add nothing to an activity and no order of it
    loses its mark never reaches the fallback.
   */
  lemma FallbackNeedsTrouble(now: int, steps: seq<Step>, r: nat, no: OrderNo)
    ensures var w := Exec(Start(now), steps);
            InPhase(w, r, Marked) && w.held == None && CreateOf(w, r, no) == Rollback(SoldOut) ==>
              EvictedIn(Start(now), steps, w.requests[r].activityId)
                + Shifts(Start(now), steps, w.requests[r].activityId) >= 1
  {
    hide Exec, HasOrder, CreateReserved, EvictedIn, CuredIn, Shifts, Sound;
    var w := Exec(Start(now), steps);
    if InPhase(w, r, Marked) && w.held == None && CreateOf(w, r, no) == Rollback(SoldOut) {
      var a := w.requests[r].activityId;
      FallbackExactly(now, steps, r, no);
      RunBooks(now, steps, a);
      SpareOne(w, r);
      CounterIsNatural(w, a);
    }
  }

  /** A first-time request past its Reserve has a spare mark. */
  lemma SpareOne(w: World, r: nat)
    requires InPhase(w, r, Marked) && Tracked(w, w.requests[r].activityId)
    requires !HasOrder(w.db, w.requests[r].user, w.requests[r].activityId)
    ensures |Spare(w, w.requests[r].activityId)| >= 1
  {
    assert Flying(w, r, w.requests[r].activityId);
    assert w.requests[r].user in Spare(w, w.requests[r].activityId);
  }

  lemma CounterIsNatural(w: World, a: nat)
    requires Sound(w) && a in w.redis.stock
    ensures w.redis.stock[a] >= 0
  {
    assert CounterOk(w, a);
  }

  // ---------- stranded marks ----------

  /** The user is marked for the activity without any order for it or any request past its Reserve. */
  ghost predicate LockedOut(w: World, a: nat, user: UserId) {
    && user in Buyers(w.redis, a)
    && !HasOrder(w.db, user, a)
    && forall r :: r in w.requests && w.requests[r].activityId == a && w.requests[r].user == user ==>
         w.requests[r].phase == Loaded
  }

  /** An activity order appears only from a request that is past its Reserve. */
  lemma OrderNeedsMark(w: World, st: Step, user: UserId, a: nat)
    requires a > 0 && !HasOrder(w.db, user, a) && HasOrder(Next(w, st).db, user, a)
    ensures user in Placed(w, st, a)
  {
    hide HasOrder, CreateOf, RestoreTx, DbNext, CreateActivity, Restores, ReserveScript, ReleaseScript;
    match st
    case Plain(ds) => if IsPlain(ds) { PlainPlacesNone(w.db, ds, user, a); }
    case NewActivity(_, _, _, _, _) => NewPlacesNone(w.db, st, user, a);
    case CommitOrder(r, no) => if InPhase(w, r, Marked) { CreatePlacesOne(w, r, no, user, a); }
    case CommitReplyLost(r, no) => if InPhase(w, r, Marked) { CreatePlacesOne(w, r, no, user, a); }
    case RestoreCommit => if w.held.Some? { RestorePlacesNone(w.db, w.held.value.who, w.held.value.no, user, a); }
    case _ =>
  }

  lemma PlainPlacesNone(db: Db, ds: DbStep, user: UserId, a: nat)
    requires a > 0 && IsPlain(ds) && HasOrder(DbNext(db, ds), user, a)
    ensures HasOrder(db, user, a)
  {
    hide DbNext, Ev.Holds, Ev.Apply, Ev.Written;
    var ev := Ev.StepEvent(db, ds);
    Ev.OneOrderRow(db, ev);
    Ev.StockAside(db, ev);
    var no :| no in DbNext(db, ds).orders && DbNext(db, ds).orders[no].user == user
              && DbNext(db, ds).orders[no].activityId == a;
    assert no in db.orders && db.orders[no].user == user && db.orders[no].activityId == a;
  }

  lemma NewPlacesNone(db: Db, st: Step, user: UserId, a: nat)
    requires st.NewActivity?
    ensures var tx := CreateActivity(db, st.a, st.p, st.price, st.stock, st.seconds);
            tx.Commit? && HasOrder(tx.db, user, a) ==> HasOrder(db, user, a)
  {
  }

  lemma CreatePlacesOne(w: World, r: nat, no: OrderNo, user: UserId, a: nat)
    requires InPhase(w, r, Marked) && HasOrder(After(w.db, CreateOf(w, r, no)), user, a) && !HasOrder(w.db, user, a)
    ensures CreateOf(w, r, no).Commit? && w.requests[r].user == user && w.requests[r].activityId == a
  {
    hide KeyTaken;
    var db := After(w.db, CreateOf(w, r, no));
    var n :| n in db.orders && db.orders[n].user == user && db.orders[n].activityId == a;
  }

  lemma RestorePlacesNone(db: Db, who: By, no: OrderNo, user: UserId, a: nat)
    requires HasOrder(After(db, RestoreTx(db, who, no)), user, a)
    ensures HasOrder(db, user, a)
  {
    hide RestoreStock;
    var db' := After(db, RestoreTx(db, who, no));
    if no in db.orders && RestoreStock(db, no, db.orders[no]).Commit? { Ev.RestoreTouches(db, no, db.orders[no]); }
    var n :| n in db'.orders && db'.orders[n].user == user && db'.orders[n].activityId == a;
    assert n in db.orders && db.orders[n].user == user && db.orders[n].activityId == a;
  }

  lemma LockedOutStep(w: World, st: Step, a: nat, user: UserId)
    requires a > 0 && LockedOut(w, a, user)
    ensures LockedOut(Next(w, st), a, user)
  {
    hide Next, HasOrder, Buyers, CreateOf, ReserveOf, Restores;
    BuyersAfter(w, st, a);
    RequestsAfter(w, st);
    if HasOrder(Next(w, st).db, user, a) { OrderNeedsMark(w, st, user, a); }
    if user in Begun(w, st, a) { BegunIsOrder(w, st, a, user); }
    var w' := Next(w, st);
    forall r | r in w'.requests && w'.requests[r].activityId == a && w'.requests[r].user == user
      ensures w'.requests[r].phase == Loaded
    {
      if w'.requests[r].phase != Loaded { MovesOn(w, st, a, r); }
    }
  }

  lemma BegunIsOrder(w: World, st: Step, a: nat, user: UserId)
    requires user in Begun(w, st, a)
    ensures HasOrder(w.db, user, a)
  {
    hide Restores;
  }

  /** A request past its check was so before, or has just set its mark. */
  lemma MovesOn(w: World, st: Step, a: nat, r: nat)
    requires r in Next(w, st).requests && Next(w, st).requests[r].activityId == a
      && Next(w, st).requests[r].phase != Loaded
    ensures var q := Next(w, st).requests[r];
            || (r in w.requests && w.requests[r].phase != Loaded && w.requests[r].activityId == a
                && w.requests[r].user == q.user)
            || q.user in Taken(w, st, a)
  {
    hide Next, CreateOf, ReserveOf;
    RequestsAfter(w, st);
  }

  lemma {:induction false} LockedOutRun(w: World, steps: seq<Step>, a: nat, user: UserId)
    requires a > 0 && LockedOut(w, a, user)
    ensures LockedOut(Exec(w, steps), a, user)
    decreases |steps|
  {
    hide Next, LockedOut;
    if steps != [] {
      LockedOutStep(w, steps[0], a, user);
      LockedOutRun(Next(w, steps[0]), steps[1..], a, user);
    }
  }

  /** A first-time user's request past its check has its mark, and is the only one that has. */
  lemma OneFirstRequest(w: World, a: nat, r: nat, s: nat)
    requires Tracked(w, a) && r in w.requests && w.requests[r].activityId == a && !HasOrder(w.db, w.requests[r].user, a)
    ensures w.requests[r].phase == Loaded || w.requests[r].user in Buyers(w.redis, a)
    ensures w.requests[r].user in MarkOf(w.requests, s, a) ==> r == s || w.requests[r].phase == Loaded
  {
    hide HasOrder, Buyers;
    assert w.requests[r].phase == Astray ==> Strays(w, r, a);
    assert Carries(w.requests[r].phase) ==> Flying(w, r, a);
    assert w.requests[r].user in MarkOf(w.requests, s, a) && Carries(w.requests[r].phase) ==>
      SameMark(w.requests[r], w.requests[s]);
  }

  /** A mark stranded for a user without an order is one nobody will ever take away. */
  lemma StrandedLocksOut(w: World, st: Step, a: nat, user: UserId)
    requires Tracked(w, a) && a > 0 && user in Stranded(w, st, a) && !HasOrder(w.db, user, a)
    ensures LockedOut(Next(w, st), a, user)
  {
    hide Next, HasOrder, Buyers, CreateOf, ReserveOf, Restores;
    BuyersAfter(w, st, a);
    RequestsAfter(w, st);
    if HasOrder(Next(w, st).db, user, a) { OrderNeedsMark(w, st, user, a); }
    var w' := Next(w, st);
    forall r | r in w'.requests && w'.requests[r].activityId == a && w'.requests[r].user == user
      ensures w'.requests[r].phase == Loaded
    {
      assert r in w.requests && w'.requests[r] == w.requests[r] && r != st.r;
      OneFirstRequest(w, a, r, st.r);
    }
  }

  /**
    A lost Reserve reply or a lost release locks a first-time user out of the
    activity for good: whatever happens afterwards, they never have an order for
    it, and every Reserve of theirs answers duplicate.
   */
  lemma StrandedForever(now: int, before: seq<Step>, st: Step, after: seq<Step>, a: nat, user: UserId)
    requires a > 0 && user in Stranded(Exec(Start(now), before), st, a)
    requires !HasOrder(Exec(Start(now), before).db, user, a)
    ensures var w := Exec(Next(Exec(Start(now), before), st), after);
            && !HasOrder(w.db, user, a)
            && forall r :: r in w.requests && w.requests[r].activityId == a && w.requests[r].user == user ==>
                 ReserveOf(w, r).1.code == ALREADY
  {
    hide Exec, Next, HasOrder, Tracked, Stranded, ReserveOf, Buyers;
    StartIsTracked(now, a);
    TrackedRun(Start(now), before, a);
    StrandedLocksOut(Exec(Start(now), before), st, a, user);
    LockedOutRun(Next(Exec(Start(now), before), st), after, a, user);
    var w := Exec(Next(Exec(Start(now), before), st), after);
    forall r | r in w.requests && w.requests[r].activityId == a && w.requests[r].user == user
      ensures ReserveOf(w, r).1.code == ALREADY
    {
      MarkedIsDuplicate(w, r);
    }
  }

  lemma MarkedIsDuplicate(w: World, r: nat)
    requires r in w.requests && w.requests[r].user in Buyers(w.redis, w.requests[r].activityId)
    ensures ReserveOf(w, r).1.code == ALREADY
  {
  }
}
