/**
  The protocol over whole runs, one activity at a time: what overwrites add to
  the books, how the marks split, the two-store law, and what Reserve and the
  fallback can answer.
 */
module ProtocolRuns {
  import opened Keys
  import opened Model
  import opened Ledger
  import opened RedisStock
  import opened ActivityStock
  import opened Protocol
  import opened ProtocolSafety
  import opened ProtocolMarks

  function Start(now: int): World {
    World(EmptyDb(now), Redis(map[], map[]), map[], None, map[])
  }

  lemma StartIsSound(now: int)
    ensures Sound(Start(now))
    ensures forall a :: Balanced(Start(now), a) && Leaked(Start(now), a) == {}
  {
  }

  /** Soundness in every run, with every fault, repair and late prewarm allowed. */
  lemma {:induction false} RunSound(w: World, steps: seq<Step>)
    requires Sound(w)
    ensures Sound(Exec(w, steps))
    ensures forall a :: a in w.db.activities ==>
      a in Exec(w, steps).db.activities && Total(Exec(w, steps).db, a) == Total(w.db, a)
    decreases |steps|
  {
    hide Sound, Next, Total;
    if steps == [] {
    } else {
      StepSound(w, steps[0]);
      RunSound(Next(w, steps[0]), steps[1..]);
    }
  }

  lemma StepSound(w: World, st: Step)
    requires Sound(w)
    ensures Sound(Next(w, st))
    ensures forall a :: a in w.db.activities ==>
      a in Next(w, st).db.activities && Total(Next(w, st).db, a) == Total(w.db, a)
  {
    hide Sound, Next, Total, CounterOk, Credit;
    StepKeeps(w, st);
    forall a | a in w.db.activities
      ensures a in Next(w, st).db.activities && Total(Next(w, st).db, a) == Total(w.db, a)
    {
      assert KeepsAt(w, Next(w, st), st, a);
    }
  }

  // ---------- what overwrites add ----------

  /** The counter, or the MySQL stock it will be initialised with. */
  function Counter(w: World, a: nat): int
    requires a in w.db.activities
  {
    if a in w.redis.stock then w.redis.stock[a] else w.db.activities[a].stock
  }

  /** How far a prewarm or a repair moves the counter. */
  function Shift(w: World, st: Step, a: nat): int {
    if a !in w.db.activities then 0
    else
      match st
      case Prewarm(b) => if b == a && a in w.prewarms then w.prewarms[a] - Counter(w, a) else 0
      case Repair(b, value) => if b == a then value - Counter(w, a) else 0
      case _ => 0
  }

  function Shifts(w: World, steps: seq<Step>, a: nat): int
    decreases |steps|
  {
    if steps == [] then 0 else Shift(w, steps[0], a) + Shifts(Next(w, steps[0]), steps[1..], a)
  }

  lemma CreditStep(w: World, st: Step, a: nat)
    requires Sound(w)
    ensures Credit(Next(w, st), a) == Credit(w, a) + Shift(w, st, a)
  {
    hide Next, StockOk, Buyers, Restores, DbNext;
    StepKeeps(w, st);
    assert KeepsAt(w, Next(w, st), st, a);
    if Overwrites(w, st, a) { OverwriteCredit(w, st, a); }
  }

  lemma OverwriteCredit(w: World, st: Step, a: nat)
    requires Sound(w) && Overwrites(w, st, a)
    ensures Credit(Next(w, st), a) == Credit(w, a) + Shift(w, st, a)
  {
    hide StockOk, Restores, DbNext;
    assert CounterOk(w, a);
    if a in w.db.activities && a !in w.redis.stock { assert Live(w.db.orders, a) == {}; }
  }

  /** In every run the books are out by exactly what the overwrites of the run have moved the counter. */
  lemma {:induction false} CreditLaw(w: World, steps: seq<Step>, a: nat)
    requires Sound(w)
    ensures Credit(Exec(w, steps), a) == Credit(w, a) + Shifts(w, steps, a)
    decreases |steps|
  {
    hide Sound, Next, Credit, Shift;
    if steps == [] {
    } else {
      CreditStep(w, steps[0], a);
      StepSound(w, steps[0]);
      CreditLaw(Next(w, steps[0]), steps[1..], a);
    }
  }

  // ---------- runs without evictions ----------

  /** No step of the run takes the mark from an order of the activity that stays. */
  ghost predicate NoEviction(w: World, steps: seq<Step>, a: nat)
    decreases |steps|
  {
    steps == [] || (!Evicts(w, steps[0], a) && NoEviction(Next(w, steps[0]), steps[1..], a))
  }

  /** How many marks of the activity the faults of a run strand, and how many stranded ones are used up again. */
  ghost function StrandedIn(w: World, steps: seq<Step>, a: nat): nat
    decreases |steps|
  {
    if steps == [] then 0
    else |Stranded(w, steps[0], a)| + StrandedIn(Next(w, steps[0]), steps[1..], a)
  }

  ghost function ReclaimedIn(w: World, steps: seq<Step>, a: nat): nat
    decreases |steps|
  {
    if steps == [] then 0
    else |Reclaimed(w, steps[0], a)| + ReclaimedIn(Next(w, steps[0]), steps[1..], a)
  }

  lemma WholeStep(w: World, st: Step, a: nat)
    requires Sound(w) && Whole(w, a) && !Evicts(w, st, a)
    ensures Whole(Next(w, st), a)
    ensures |Leaked(Next(w, st), a)| == |Leaked(w, a)| + |Stranded(w, st, a)| - |Reclaimed(w, st, a)|
  {
    hide Sound, Next, Parted, Leaked, Stranded, Reclaimed, Evicts, OneMark;
    if a in w.db.activities {
      SplitAfter(w, st, a);
      var kept := Leaked(w, a) - Reclaimed(w, st, a);
      assert Leaked(w, a) == kept + Reclaimed(w, st, a);
    } else {
      WholeIfNew(w, st, a);
      NothingYet(w, a);
    }
  }

  /**
    The split of the marks over every run without evictions, whatever else goes
    wrong, and the exact size of the leak: the marks its faults stranded less
    those that undone restores and releases gone astray used up.
   */
  lemma {:induction false} MarksLaw(w: World, steps: seq<Step>, a: nat)
    requires Sound(w) && Whole(w, a) && NoEviction(w, steps, a)
    ensures Whole(Exec(w, steps), a)
    ensures |Leaked(Exec(w, steps), a)| == |Leaked(w, a)| + StrandedIn(w, steps, a) - ReclaimedIn(w, steps, a)
    decreases |steps|
  {
    hide Sound, Next, Leaked, Stranded, Reclaimed, Evicts, Whole;
    if steps == [] {
    } else {
      WholeStep(w, steps[0], a);
      StepSound(w, steps[0]);
      MarksLaw(Next(w, steps[0]), steps[1..], a);
    }
  }

  /** Some step of the run uses up the user's stranded mark. */
  ghost predicate Reclaims(w: World, steps: seq<Step>, a: nat, user: UserId)
    decreases |steps|
  {
    steps != [] && (user in Reclaimed(w, steps[0], a) || Reclaims(Next(w, steps[0]), steps[1..], a, user))
  }

  /**
    A stranded mark stays until a restore of that user's own order is undone, or
    a release gone astray takes it: until then every Reserve of the user answers
    duplicate.
   */
  lemma {:induction false} LeakStays(w: World, steps: seq<Step>, a: nat, user: UserId)
    requires Sound(w) && Whole(w, a) && a in w.db.activities && NoEviction(w, steps, a) && user in Leaked(w, a)
    ensures user in Leaked(Exec(w, steps), a) || Reclaims(w, steps, a, user)
    decreases |steps|
  {
    hide Sound, Next, Leaked, Stranded, Reclaimed, Evicts, Whole;
    if steps == [] {
    } else if user !in Reclaimed(w, steps[0], a) {
      SplitAfter(w, steps[0], a);
      WholeStep(w, steps[0], a);
      StepSound(w, steps[0]);
      ActivitiesAfter(w, steps[0]);
      LeakStays(Next(w, steps[0]), steps[1..], a, user);
    }
  }

  // ---------- clean runs ----------

  /** The activity's marks part and its books are even. */
  ghost predicate Balanced(w: World, a: nat) {
    Sound(w) && Whole(w, a) && Credit(w, a) == 0
  }

  /**
    No eviction and no overwrite that moves the activity's counter. Lost
    replies, failed calls, crashes, failed and undone transactions, and whatever
    happens to other activities, are all allowed.
   */
  ghost predicate CleanRun(w: World, steps: seq<Step>, a: nat)
    decreases |steps|
  {
    steps == [] || (!Evicts(w, steps[0], a) && Shift(w, steps[0], a) == 0 && CleanRun(Next(w, steps[0]), steps[1..], a))
  }

  lemma {:induction false} CleanRunParts(w: World, steps: seq<Step>, a: nat)
    requires CleanRun(w, steps, a)
    ensures NoEviction(w, steps, a) && Shifts(w, steps, a) == 0
    decreases |steps|
  {
    hide Next, Evicts, Shift;
    if steps != [] { CleanRunParts(Next(w, steps[0]), steps[1..], a); }
  }

  /** The two-store invariant of an activity over every run that is clean for it. */
  lemma CleanRunBalanced(w: World, steps: seq<Step>, a: nat)
    requires Balanced(w, a) && CleanRun(w, steps, a)
    ensures Balanced(Exec(w, steps), a)
    ensures |Leaked(Exec(w, steps), a)| == |Leaked(w, a)| + StrandedIn(w, steps, a) - ReclaimedIn(w, steps, a)
  {
    hide Sound, Exec, Leaked, Whole, Credit;
    CleanRunParts(w, steps, a);
    RunSound(w, steps);
    CreditLaw(w, steps, a);
    MarksLaw(w, steps, a);
  }

  // ---------- what the invariant says at any moment ----------

  /** MySQL stock plus users holding live orders is the total issued. */
  lemma TotalIsHolders(w: World, a: nat)
    requires Sound(w) && a in w.db.activities
    ensures w.db.activities[a].stock + |Holders(w.db.orders, a)| == Total(w.db, a)
  {
    HoldersCount(w.db.orders, a);
  }

  lemma PartsCount(buyers: set<UserId>, settled: set<UserId>, inFlight: set<UserId>)
    requires settled <= buyers && inFlight <= buyers && settled !! inFlight
    ensures |buyers| == |settled| + |inFlight| + |buyers - settled - inFlight|
  {
    assert buyers == settled + inFlight + (buyers - settled - inFlight);
  }

  lemma ReturningHolds(w: World, a: nat)
    requires Sound(w) && a in w.db.activities
    ensures Returning(w, a) <= Holders(w.db.orders, a)
    ensures |Settled(w, a)| == |Holders(w.db.orders, a)| - |Returning(w, a)|
  {
    hide Holders, StockOk, CounterOk, Total;
    ReturningIsHolder(w, a);
    assert Holders(w.db.orders, a) == Settled(w, a) + Returning(w, a);
  }

  /** MySQL stock in terms of settled orders, in every sound state. */
  lemma StockIs(w: World, a: nat)
    requires Sound(w) && a in w.redis.stock
    ensures a in w.db.activities
    ensures w.redis.stock[a] + |Buyers(w.redis, a)|
         == w.db.activities[a].stock + |Settled(w, a)| + |Returning(w, a)| + Credit(w, a)
  {
    hide Settled, Returning, Holders, StockOk, Buyers, Restores;
    assert CounterOk(w, a);
    TotalIsHolders(w, a);
    ReturningHolds(w, a);
  }

  /**
    The two stores while the marks part: the marks are settled orders, in-flight
    requests and leaks, so Redis lags MySQL by exactly the last two, leads by
    the order being given back, and is out by the credit of overwrites.
   */
  lemma TwoStoreLaw(w: World, a: nat)
    requires Sound(w) && Whole(w, a) && a in w.redis.stock
    ensures a in w.db.activities
    ensures |Buyers(w.redis, a)| == |Settled(w, a)| + |InFlight(w, a)| + |Leaked(w, a)|
    ensures w.redis.stock[a]
         == w.db.activities[a].stock + |Returning(w, a)| - |InFlight(w, a)| - |Leaked(w, a)| + Credit(w, a)
  {
    hide Sound, Settled, InFlight, Buyers, Returning, Credit;
    StockIs(w, a);
    PartsCount(Buyers(w.redis, a), Settled(w, a), InFlight(w, a));
  }

  ghost predicate Idle(w: World) {
    w.requests == map[] && w.held == None && w.prewarms == map[]
  }

  /** What reconciliation sees when nothing is running: the difference is the leak, and no leak means no difference. */
  lemma IdleDrift(w: World, a: nat)
    requires Balanced(w, a) && Idle(w) && a in w.redis.stock
    ensures a in w.db.activities
    ensures w.db.activities[a].stock - w.redis.stock[a] == |Leaked(w, a)|
    ensures w.redis.stock[a] == w.db.activities[a].stock <==> Leaked(w, a) == {}
    ensures Leaked(w, a) == {} ==> Buyers(w.redis, a) == Holders(w.db.orders, a)
  {
    hide Holders, Buyers, Sound, Credit;
    TwoStoreLaw(w, a);
    assert InFlight(w, a) == {};
  }

  /**
    Reserve answers duplicate exactly to marked users, and sold out to the
    others exactly when settled, in-flight and leaked marks use up the issue and
    what overwrites added to it.
   */
  lemma SoldOutExactly(w: World, r: nat)
    requires Sound(w) && InPhase(w, r, Loaded) && Whole(w, w.requests[r].activityId)
    ensures var q := w.requests[r];
            var a := q.activityId;
            var code := ReserveOf(w, r).1.code;
            && a in w.db.activities
            && (code == ALREADY <==> q.user in Buyers(w.redis, a))
            && (code == EMPTY <==>
                  && q.user !in Buyers(w.redis, a)
                  && |Settled(w, a)| + |InFlight(w, a)| + |Leaked(w, a)| == Total(w.db, a) + Credit(w, a))
  {
    hide Settled, InFlight, Holders, StockOk;
    var q := w.requests[r];
    var a := q.activityId;
    assert CounterOk(w, a);
    PartsCount(Buyers(w.redis, a), Settled(w, a), InFlight(w, a));
    if a !in w.redis.stock {
      assert Live(w.db.orders, a) == {};
      SnapshotStock(w, a);
    }
  }

  lemma SnapshotStock(w: World, a: nat)
    requires Sound(w) && a in w.db.activities
    ensures w.db.activities[a].stock >= 0
  {
  }

  /**
    While the marks part and overwrites have added no more than has leaked, the
    conditional UPDATE after a successful Reserve finds stock: the sold-out
    fallback cannot answer, and a request can only be turned away for a
    duplicate, a closed window or a clashing order number.
   */
  lemma FallbackUnreachable(w: World, r: nat, no: OrderNo)
    requires Sound(w) && InPhase(w, r, Marked) && w.held == None
    requires Whole(w, w.requests[r].activityId)
      && Credit(w, w.requests[r].activityId) <= |Leaked(w, w.requests[r].activityId)|
    ensures w.requests[r].activityId in w.db.activities
    ensures w.db.activities[w.requests[r].activityId].stock >= 1
    ensures CreateOf(w, r, no) != Rollback(SoldOut)
  {
    hide Settled, Holders, StockOk, HasOrder, KeyTaken, Buyers, Leaked, Credit;
    var a := w.requests[r].activityId;
    assert CounterOk(w, a);
    TwoStoreLaw(w, a);
    assert w.requests[r].user in InFlight(w, a);
    assert |InFlight(w, a)| >= 1;
  }

  // ---------- from the start ----------

  /** The two-store law in terms of the run alone, for every run without evictions at the activity. */
  lemma RunTwoStores(now: int, steps: seq<Step>, a: nat)
    requires NoEviction(Start(now), steps, a)
    ensures var w := Exec(Start(now), steps);
            a in w.redis.stock ==>
              && a in w.db.activities
              && w.redis.stock[a] == w.db.activities[a].stock + |Returning(w, a)| - |InFlight(w, a)|
                                   - StrandedIn(Start(now), steps, a) + ReclaimedIn(Start(now), steps, a)
                                   + Shifts(Start(now), steps, a)
  {
    hide Exec, NoEviction, Sound, Whole, Leaked, Credit, Returning, InFlight;
    StartIsSound(now);
    assert Balanced(Start(now), a);
    RunSound(Start(now), steps);
    CreditLaw(Start(now), steps, a);
    MarksLaw(Start(now), steps, a);
    var w := Exec(Start(now), steps);
    if a in w.redis.stock { TwoStoreLaw(w, a); }
  }

  /**
    In every run from the start that is clean for its activity, a request past its
    Reserve never meets the sold-out fallback.
   */
  lemma CleanRunNeverFallsBack(now: int, steps: seq<Step>, r: nat, no: OrderNo)
    ensures var w := Exec(Start(now), steps);
            InPhase(w, r, Marked) && w.held == None && CleanRun(Start(now), steps, w.requests[r].activityId) ==>
              CreateOf(w, r, no) != Rollback(SoldOut)
  {
    hide Exec, CleanRun, Balanced, CreateOf, Leaked;
    StartIsSound(now);
    var w := Exec(Start(now), steps);
    if InPhase(w, r, Marked) && w.held == None && CleanRun(Start(now), steps, w.requests[r].activityId) {
      assert Balanced(Start(now), w.requests[r].activityId);
      CleanRunBalanced(Start(now), steps, w.requests[r].activityId);
      BalancedMeans(w, w.requests[r].activityId);
      FallbackUnreachable(w, r, no);
    }
  }

  lemma BalancedMeans(w: World, a: nat)
    requires Balanced(w, a)
    ensures Sound(w) && Whole(w, a) && Credit(w, a) == 0
  {
  }

  /**
    At rest after any run clean for an activity, its two stocks differ by the
    marks stranded and not reclaimed, no more and no less.
   */
  lemma DriftIsStranded(now: int, steps: seq<Step>, a: nat)
    requires CleanRun(Start(now), steps, a)
    ensures var w := Exec(Start(now), steps);
            Idle(w) && a in w.redis.stock ==>
              && a in w.db.activities
              && w.db.activities[a].stock - w.redis.stock[a]
                 == StrandedIn(Start(now), steps, a) - ReclaimedIn(Start(now), steps, a)
  {
    hide Exec, CleanRun, Balanced, Leaked, StrandedIn, ReclaimedIn, Idle;
    StartIsSound(now);
    assert Balanced(Start(now), a);
    CleanRunBalanced(Start(now), steps, a);
    var w := Exec(Start(now), steps);
    if Idle(w) && a in w.redis.stock { IdleDrift(w, a); }
  }
}
