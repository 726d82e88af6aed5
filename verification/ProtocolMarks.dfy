/**
  The Redis marks of one activity, step by step: who is marked, who holds a
  settled order and who is in flight, in every run; and, as long as no mark is
  taken from an order that stays, their exact split.
 */
module ProtocolMarks {
  import opened Keys
  import opened Model
  import opened Ledger
  import opened RedisStock
  import opened ActivityStock
  import opened Protocol
  import opened ProtocolSafety

  // ---------- what a step does to each set ----------

  ghost function MarkOf(requests: map<nat, Request>, r: nat, a: nat): set<UserId> {
    if r in requests && requests[r].activityId == a && Carries(requests[r].phase) then {requests[r].user} else {}
  }

  /** The mark a successful Reserve sets, whether or not its reply arrives. */
  ghost function Taken(w: World, st: Step, a: nat): set<UserId> {
    match st
    case Reserve(r) => TakenBy(w, r, a)
    case ReserveReplyLost(r) => TakenBy(w, r, a)
    case _ => {}
  }

  ghost function TakenBy(w: World, r: nat, a: nat): set<UserId> {
    if InPhase(w, r, Loaded) && w.requests[r].activityId == a && ReserveOf(w, r).1.code == TAKEN
    then {w.requests[r].user} else {}
  }

  /** The holder of an order a step commits. */
  ghost function Placed(w: World, st: Step, a: nat): set<UserId> {
    match st
    case CommitOrder(r, no) => PlacedBy(w, r, no, a)
    case CommitReplyLost(r, no) => PlacedBy(w, r, no, a)
    case _ => {}
  }

  ghost function PlacedBy(w: World, r: nat, no: OrderNo, a: nat): set<UserId> {
    if InPhase(w, r, Marked) && w.held == None && w.requests[r].activityId == a && CreateOf(w, r, no).Commit?
    then {w.requests[r].user} else {}
  }

  /** The mark a failed request removes. */
  ghost function Dropped(w: World, st: Step, a: nat): set<UserId> {
    if st.Release? && Releasing(w, st.r) && w.requests[st.r].activityId == a then {w.requests[st.r].user} else {}
  }

  /** The mark a request gone astray removes, which is not its own. */
  ghost function Stray(w: World, st: Step, a: nat): set<UserId> {
    if st.Release? && InPhase(w, st.r, Astray) && w.requests[st.r].activityId == a then {w.requests[st.r].user} else {}
  }

  /** The holder whose order a restore starts to give back; the mark goes at once. */
  ghost function Begun(w: World, st: Step, a: nat): set<UserId> {
    if st.RestoreBegin? && w.held == None && Restores(w.db, st.who, st.no) && st.no in w.db.orders
       && w.db.orders[st.no].activityId == a > 0
    then {w.db.orders[st.no].user} else {}
  }

  /** The holder whose restore is rolled back. */
  ghost function Undone(w: World, st: Step, a: nat): set<UserId> {
    if st.RestoreRollback? && a > 0 then Returning(w, a) else {}
  }

  /** The request that is in flight no longer. */
  ghost function Ended(w: World, st: Step, a: nat): set<UserId> {
    match st
    case CommitOrder(_, _) => Placed(w, st, a)
    case CommitReplyLost(_, _) => Placed(w, st, a)
    case Release(r) => if Releasing(w, r) then MarkOf(w.requests, r, a) else {}
    case Abandon(r) => MarkOf(w.requests, r, a)
    case _ => {}
  }

  // ---------- marks ----------

  lemma BuyersAfter(w: World, st: Step, a: nat)
    ensures Buyers(Next(w, st).redis, a) == Buyers(w.redis, a) + Taken(w, st, a) - Dropped(w, st, a) - Begun(w, st, a)
    ensures Taken(w, st, a) !! Buyers(w.redis, a)
  {
    hide Next, Buyers, Taken, Dropped, Begun;
    OnlyOne(w, st, a);
    match st
    case Reserve(r) => BuyersTaken(w, st, r, a);
    case ReserveReplyLost(r) => BuyersTaken(w, st, r, a);
    case Release(_) => BuyersDropped(w, st, a);
    case RestoreBegin(_, _) => BuyersBegun(w, st, a);
    case _ => BuyersStay(w, st, a);
  }

  lemma BuyersTaken(w: World, st: Step, r: nat, a: nat)
    requires st == Reserve(r) || st == ReserveReplyLost(r)
    ensures Buyers(Next(w, st).redis, a) == Buyers(w.redis, a) + Taken(w, st, a)
    ensures Taken(w, st, a) !! Buyers(w.redis, a)
  {
    hide ReserveOf, Buyers;
    if r in w.requests { ReserveBuyers(w, r, a); }
  }

  lemma BuyersDropped(w: World, st: Step, a: nat)
    requires st.Release?
    ensures Buyers(Next(w, st).redis, a) == Buyers(w.redis, a) - Dropped(w, st, a)
  {
    hide ReleaseScript, Buyers;
    if Releasing(w, st.r) { ReleasedBuyers(w.redis, w.requests[st.r].activityId, w.requests[st.r].user, a); }
  }

  lemma BuyersBegun(w: World, st: Step, a: nat)
    requires st.RestoreBegin?
    ensures Buyers(Next(w, st).redis, a) == Buyers(w.redis, a) - Begun(w, st, a)
  {
    hide ReleaseScript, Buyers, Restores;
    if st.no in w.db.orders { ReleasedBuyers(w.redis, w.db.orders[st.no].activityId, w.db.orders[st.no].user, a); }
  }

  lemma BuyersStay(w: World, st: Step, a: nat)
    requires !st.Reserve? && !st.ReserveReplyLost? && !st.Release? && !st.RestoreBegin?
    ensures Buyers(Next(w, st).redis, a) == Buyers(w.redis, a)
  {
    hide DbNext, CreateActivity, CreateOf, RestoreTx;
  }

  lemma ReleasedBuyers(rd: Redis, b: nat, user: UserId, a: nat)
    ensures Buyers(ReleaseScript(rd, b, user), a) == Buyers(rd, a) - if a == b then {user} else {}
  {
  }

  // ---------- settled orders ----------

  /** The holder of the order being given back is a holder still. */
  lemma ReturningIsHolder(w: World, a: nat)
    requires Sound(w) && a in w.db.activities
    ensures Returning(w, a) <= Holders(w.db.orders, a)
  {
    hide Holders, StockOk, CounterOk, Total, Restores;
    if w.held.Some? {
      RestoreFacts(w.db, w.held.value.who, w.held.value.no, a);
      PositiveIds(w, a);
    }
  }

  lemma BegunIsSettled(w: World, st: Step, a: nat)
    requires Sound(w) && a in w.db.activities
    ensures Begun(w, st, a) <= Settled(w, a)
  {
    hide Holders, StockOk, CounterOk, Total, Restores;
    if st.RestoreBegin? && w.held == None && Restores(w.db, st.who, st.no) {
      RestoreFacts(w.db, st.who, st.no, a);
      PositiveIds(w, a);
    }
  }

  lemma SettledAfter(w: World, st: Step, a: nat)
    requires Sound(w) && a in w.db.activities
    ensures Settled(Next(w, st), a) == Settled(w, a) + Placed(w, st, a) - Begun(w, st, a) + Undone(w, st, a)
    ensures Undone(w, st, a) !! Settled(w, a)
  {
    hide Sound, Settled, Next, Placed, Begun, Undone;
    OnlyOne(w, st, a);
    match st
    case CommitOrder(_, _) => SettledPlaced(w, st, a);
    case CommitReplyLost(_, _) => SettledPlaced(w, st, a);
    case RestoreBegin(_, _) => SettledBegun(w, st, a);
    case RestoreRollback => SettledUndone(w, st, a);
    case _ => SettledStays(w, st, a);
  }

  lemma SettledPlaced(w: World, st: Step, a: nat)
    requires Sound(w) && a in w.db.activities && (st.CommitOrder? || st.CommitReplyLost?)
    ensures Settled(Next(w, st), a) == Settled(w, a) + Placed(w, st, a)
  {
    hide Sound, Holders, CreateOf, Restores;
    PositiveIds(w, a);
    SettledCreate(w, st.r, st.no, a);
  }

  lemma SettledBegun(w: World, st: Step, a: nat)
    requires Sound(w) && a in w.db.activities && st.RestoreBegin?
    ensures Settled(Next(w, st), a) == Settled(w, a) - Begun(w, st, a)
  {
    hide Sound, Holders, Restores, ReleaseScript;
    PositiveIds(w, a);
  }

  lemma SettledUndone(w: World, st: Step, a: nat)
    requires Sound(w) && a in w.db.activities && st.RestoreRollback?
    ensures Settled(Next(w, st), a) == Settled(w, a) + Undone(w, st, a)
    ensures Undone(w, st, a) !! Settled(w, a)
  {
    hide Sound, Holders, Restores;
    PositiveIds(w, a);
    ReturningIsHolder(w, a);
  }

  lemma SettledStays(w: World, st: Step, a: nat)
    requires Sound(w) && a in w.db.activities
    requires !st.CommitOrder? && !st.CommitReplyLost? && !st.RestoreBegin? && !st.RestoreRollback?
    ensures Settled(Next(w, st), a) == Settled(w, a)
  {
    hide Sound, Holders, DbNext, CreateActivity, RestoreTx, Restores, ReserveScript, ReleaseScript;
    match st
    case Plain(ds) => if IsPlain(ds) && w.held == None { SettledPlain(w, ds, a); }
    case NewActivity(_, _, _, _, _) => SettledNew(w, st, a);
    case RestoreCommit => if w.held.Some? { SettledCommit(w, a); }
    case _ =>
  }

  lemma SettledPlain(w: World, ds: DbStep, a: nat)
    requires Sound(w) && a in w.db.activities && IsPlain(ds) && w.held == None
    ensures Holders(DbNext(w.db, ds).orders, a) == Holders(w.db.orders, a)
  {
    hide Holders, DbNext, CounterOk, Restores;
    PlainKeeps(w.db, ds, a);
  }

  lemma SettledNew(w: World, st: Step, a: nat)
    requires Sound(w) && st.NewActivity?
    ensures Next(w, st).db.orders == w.db.orders && Next(w, st).held == w.held
  {
    hide Holders, Restores, CounterOk, StockOk, Total;
    if w.held == None && CreateActivity(w.db, st.a, st.p, st.price, st.stock, st.seconds).Commit? {
      NewActivityFacts(w, st);
    }
  }

  lemma SettledCreate(w: World, r: nat, no: OrderNo, a: nat)
    requires Sound(w) && a > 0
    ensures InPhase(w, r, Marked) && w.held == None && CreateOf(w, r, no).Commit? ==>
      Holders(CreateOf(w, r, no).db.orders, a) == Holders(w.db.orders, a) + PlacedBy(w, r, no, a)
  {
    hide Holders, CreateOf, StockOk, CounterOk, Total, Restores;
    if InPhase(w, r, Marked) && w.held == None && CreateOf(w, r, no).Commit? { CreateFacts(w, r, no, a); }
  }

  lemma SettledCommit(w: World, a: nat)
    requires Sound(w) && a in w.db.activities && w.held.Some?
    ensures Holders(After(w.db, RestoreTx(w.db, w.held.value.who, w.held.value.no)).orders, a) == Settled(w, a)
  {
    hide Holders, RestoreTx, Restores, StockOk, CounterOk, Total;
    PositiveIds(w, a);
    RestoreFacts(w.db, w.held.value.who, w.held.value.no, a);
  }

  // ---------- requests in flight ----------

  /** What a step does to the request table: one request moves or ends, if any. */
  ghost function Moved(w: World, st: Step): Option<(nat, Option<Request>)> {
    match st
    case Begin(r, user, a) =>
      if r !in w.requests && a in w.db.activities && Orderable(w.db.activities[a], w.db.now)
      then Some((r, Some(Request(user, a, w.db.activities[a], Loaded)))) else None
    case Reserve(r) =>
      if !InPhase(w, r, Loaded) then None
      else Some((r, if ReserveOf(w, r).1.code == TAKEN then Some(w.requests[r].(phase := Marked)) else Option.None))
    case ReserveFails(r) => if InPhase(w, r, Loaded) then Some((r, Option.None)) else None
    case ReserveReplyLost(r) => if InPhase(w, r, Loaded) then Some((r, Option.None)) else None
    case CommitOrder(r, no) =>
      if !InPhase(w, r, Marked) || w.held != None then None
      else Some((r, if CreateOf(w, r, no).Commit? then Option.None else Some(w.requests[r].(phase := Refused))))
    case CommitReplyLost(r, no) =>
      if !InPhase(w, r, Marked) || w.held != None then None
      else Some((r, Some(w.requests[r].(phase := if CreateOf(w, r, no).Commit? then Astray else Refused))))
    case TxFails(r) => if InPhase(w, r, Marked) then Some((r, Some(w.requests[r].(phase := Refused)))) else None
    case Release(r) => if Releasing(w, r) then Some((r, Option.None)) else None
    case Abandon(r) => Some((r, Option.None))
    case _ => None
  }

  lemma RequestsAfter(w: World, st: Step)
    ensures match Moved(w, st)
            case None => Next(w, st).requests == w.requests
            case Some((r, q)) => Next(w, st).requests == WithRequest(w.requests, r, q)
  {
    hide DbNext, CreateActivity, CreateOf, ReserveOf, RestoreTx, Restores, ReleaseScript;
  }

  /** One request changed: its mark goes, and the mark of what it became comes. */
  lemma InFlightWith(requests: map<nat, Request>, r: nat, q: Option<Request>, a: nat)
    requires OneMark(requests, a)
    ensures MarkOf(requests, r, a) <= InFlightOf(requests, a)
    ensures var requests' := WithRequest(requests, r, q);
            InFlightOf(requests', a) == InFlightOf(requests, a) - MarkOf(requests, r, a) + MarkOf(requests', r, a)
  {
    var requests' := WithRequest(requests, r, q);
    forall u
      ensures u in InFlightOf(requests', a) <==>
        u in InFlightOf(requests, a) - MarkOf(requests, r, a) + MarkOf(requests', r, a)
    {
      if u in InFlightOf(requests', a) {
        var s :| s in requests' && requests'[s].activityId == a && Carries(requests'[s].phase)
          && requests'[s].user == u;
        if s != r && u in MarkOf(requests, r, a) {
          assert SameMark(requests[s], requests[r]);
        }
      }
      if u in InFlightOf(requests, a) - MarkOf(requests, r, a) {
        var s :| s in requests && requests[s].activityId == a && Carries(requests[s].phase) && requests[s].user == u;
        assert s in requests' && requests'[s] == requests[s];
      }
    }
  }

  lemma InFlightAfter(w: World, st: Step, a: nat)
    requires OneMark(w.requests, a)
    ensures InFlight(Next(w, st), a) == InFlight(w, a) - Ended(w, st, a) + if st.Reserve? then Taken(w, st, a) else {}
    ensures Ended(w, st, a) <= InFlight(w, a) && Placed(w, st, a) <= InFlight(w, a)
  {
    hide Next, InFlightOf, CreateOf, ReserveOf, OneMark;
    RequestsAfter(w, st);
    match Moved(w, st)
    case None =>
    case Some((r, q)) => InFlightWith(w.requests, r, q, a);
  }

  /** Two requests of one user never both hold a mark, as long as every request in flight has its mark. */
  lemma OneMarkAfter(w: World, st: Step, a: nat)
    requires OneMark(w.requests, a) && InFlight(w, a) <= Buyers(w.redis, a)
    ensures OneMark(Next(w, st).requests, a)
  {
    hide Next, CreateOf, ReserveOf, Buyers;
    RequestsAfter(w, st);
    BuyersAfter(w, st, a);
    var requests' := Next(w, st).requests;
    forall r, s | r in requests' && s in requests' && requests'[r].activityId == a
      && SameMark(requests'[r], requests'[s])
      ensures r == s
    {
      if Moved(w, st).Some? {
        MarkedBefore(w, st, a, r);
        MarkedBefore(w, st, a, s);
      }
    }
  }

  /** A request with a mark had it before, or has just taken one nobody held. */
  lemma MarkedBefore(w: World, st: Step, a: nat, r: nat)
    requires r in Next(w, st).requests
    requires Next(w, st).requests[r].activityId == a && Carries(Next(w, st).requests[r].phase)
    ensures var q := Next(w, st).requests[r];
            if r in w.requests && Carries(w.requests[r].phase)
            then SameMark(w.requests[r], q) && q.user in InFlight(w, a)
            else st.Reserve? && st.r == r && q.user in Taken(w, st, a)
  {
    hide Next, CreateOf, ReserveOf;
    RequestsAfter(w, st);
  }

  // ---------- the split ----------

  /**
    The step leaves an order or a request without its mark: a restore is undone
    and its holder has no spare mark, or a request gone astray releases a mark
    that is in use.
   */
  ghost predicate Evicts(w: World, st: Step, a: nat) {
    || !(Undone(w, st, a) <= Leaked(w, a))
    || Stray(w, st, a) * (Settled(w, a) + InFlight(w, a)) != {}
  }

  /** The mark a fault strands. */
  ghost function Stranded(w: World, st: Step, a: nat): set<UserId> {
    match st
    case Abandon(r) => MarkOf(w.requests, r, a)
    case ReserveReplyLost(r) => Taken(w, st, a)
    case _ => {}
  }

  /** The stranded mark that is used up: by an undone restore, or by a stray release. */
  ghost function Reclaimed(w: World, st: Step, a: nat): set<UserId> {
    (Undone(w, st, a) + Stray(w, st, a)) * Leaked(w, a)
  }

  /** While no mark is evicted, the split holds and the leak grows by what is stranded, less what is reclaimed. */
  lemma SplitAfter(w: World, st: Step, a: nat)
    requires Sound(w) && Whole(w, a) && a in w.db.activities && !Evicts(w, st, a)
    ensures OneMark(Next(w, st).requests, a) && Parted(Next(w, st), a)
    ensures Leaked(Next(w, st), a) == Leaked(w, a) - Reclaimed(w, st, a) + Stranded(w, st, a)
    ensures Reclaimed(w, st, a) <= Leaked(w, a) && Stranded(w, st, a) !! Leaked(w, a)
  {
    hide Sound, Next, Settled, InFlight, Buyers, OneMark, Taken, Placed, Dropped, Begun, Undone, Stray, MarkOf;
    OneMarkAfter(w, st, a);
    BuyersAfter(w, st, a);
    SettledAfter(w, st, a);
    InFlightAfter(w, st, a);
    BegunIsSettled(w, st, a);
    OnlyOne(w, st, a);
  }

  /** Each step does one of these things at most. */
  lemma OnlyOne(w: World, st: Step, a: nat)
    ensures Taken(w, st, a) != {} ==> st.Reserve? || st.ReserveReplyLost?
    ensures Placed(w, st, a) != {} ==> st.CommitOrder? || st.CommitReplyLost?
    ensures Dropped(w, st, a) != {} ==> st.Release?
    ensures Begun(w, st, a) != {} ==> st.RestoreBegin?
    ensures Undone(w, st, a) != {} ==> st.RestoreRollback?
    ensures Stray(w, st, a) != {} ==> st.Release?
    ensures st.Release? ==> Dropped(w, st, a) == Ended(w, st, a) + Stray(w, st, a)
    ensures st.Release? ==> Stray(w, st, a) == {} || Ended(w, st, a) == {}
  {
  }

  /** An eviction is exactly where the split ends: after it, and only after it, the marks no longer part. */
  lemma EvictsExactly(w: World, st: Step, a: nat)
    requires Sound(w) && Whole(w, a) && a in w.db.activities
    ensures Parted(Next(w, st), a) <==> !Evicts(w, st, a)
  {
    if !Evicts(w, st, a) {
      SplitAfter(w, st, a);
    } else {
      hide Sound, Next, Settled, InFlight, Buyers, OneMark, Taken, Placed, Dropped, Begun, Undone, Stray, MarkOf;
      BuyersAfter(w, st, a);
      SettledAfter(w, st, a);
      InFlightAfter(w, st, a);
      OnlyOne(w, st, a);
    }
  }

  // ---------- activities come and stay ----------

  lemma ActivitiesAfter(w: World, st: Step)
    requires Sound(w)
    ensures Next(w, st).db.activities.Keys == w.db.activities.Keys
            || (st.NewActivity? && st.a > 0 && Next(w, st).db.activities.Keys == w.db.activities.Keys + {st.a})
  {
    hide Holders, Sound, DbNext, CreateActivity, CreateOf, RestoreTx, Restores, ReserveScript, ReleaseScript;
    match st
    case Plain(ds) => if IsPlain(ds) { PlainKeys(w.db, ds); }
    case NewActivity(_, _, _, _, _) => NewKeys(w, st);
    case CommitOrder(r, no) => CreateKeys(w, r, no);
    case CommitReplyLost(r, no) => CreateKeys(w, r, no);
    case RestoreCommit => if w.held.Some? { RestoreKeys(w); }
    case _ =>
  }

  lemma NewKeys(w: World, st: Step)
    requires Sound(w) && st.NewActivity?
    ensures CreateActivity(w.db, st.a, st.p, st.price, st.stock, st.seconds).Commit? ==>
      st.a > 0 && CreateActivity(w.db, st.a, st.p, st.price, st.stock, st.seconds).db.activities.Keys
        == w.db.activities.Keys + {st.a}
  {
  }

  lemma CreateKeys(w: World, r: nat, no: OrderNo)
    requires Sound(w)
    ensures InPhase(w, r, Marked) && CreateOf(w, r, no).Commit? ==>
      CreateOf(w, r, no).db.activities.Keys == w.db.activities.Keys
  {
    hide Holders, CreateOf, StockOk, CounterOk, Total, Restores;
    if InPhase(w, r, Marked) && CreateOf(w, r, no).Commit? { CreateFacts(w, r, no, 0); }
  }

  lemma RestoreKeys(w: World)
    requires Sound(w) && w.held.Some?
    ensures After(w.db, RestoreTx(w.db, w.held.value.who, w.held.value.no)).activities.Keys == w.db.activities.Keys
  {
    hide Holders, RestoreTx, Restores, StockOk, CounterOk, Total;
    RestoreFacts(w.db, w.held.value.who, w.held.value.no, 0);
  }

  /** Before an activity exists nothing of it is marked, held or in flight. */
  lemma NothingYet(w: World, a: nat)
    requires Sound(w) && a !in w.db.activities
    ensures Buyers(w.redis, a) == {} && InFlight(w, a) == {} && Whole(w, a) && Leaked(w, a) == {}
    ensures forall r :: r in w.requests ==> w.requests[r].activityId != a
    ensures a > 0 ==> Holders(w.db.orders, a) == {} && Returning(w, a) == {}
  {
    hide StockOk, Total, Restores, Holders;
    assert CounterOk(w, a);
    if a > 0 { NoOneThere(w, a); }
    if a > 0 && w.held.Some? { RefersTo(w, w.held.value.no, a); }
  }

  lemma RefersTo(w: World, no: OrderNo, a: nat)
    requires Sound(w) && no in w.db.orders && a > 0
    ensures w.db.orders[no].activityId == a ==> a in w.db.activities
  {
  }

  /** And its creation changes that for nobody. */
  lemma WholeIfNew(w: World, st: Step, a: nat)
    requires Sound(w) && a !in w.db.activities
    ensures Whole(Next(w, st), a) && Leaked(Next(w, st), a) == {}
    ensures Stranded(w, st, a) == {} && Reclaimed(w, st, a) == {} && !Evicts(w, st, a)
  {
    hide Sound, Next, ReserveOf, CreateOf, Holders, Restores;
    NothingYet(w, a);
    StepKeeps(w, st);
    ActivitiesAfter(w, st);
    if a !in Next(w, st).db.activities {
      NothingYet(Next(w, st), a);
    } else {
      RequestsAfter(w, st);
      BuyersAfter(w, st, a);
      SettledNew(w, st, a);
    }
  }
}
