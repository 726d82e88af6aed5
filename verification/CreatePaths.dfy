/**
  The two create paths run to completion at one instant: with the cache and
  without it they take the same decision and leave the same database.
 */
module CreatePaths {
  import opened Keys
  import opened Model
  import opened Ledger
  import opened RedisStock
  import opened ActivityStock
  import opened Protocol
  import opened ProtocolSafety
  import opened ProtocolRuns

  /** The path without a cache. */
  function RunDirect(db: Db, user: UserId, a: nat, no: OrderNo): (Db, Result<(Order, int)>) {
    match CreateDirect(db, user, a, no)
    case Commit(db', placed) => (db', Ok(placed))
    case Rollback(e) => (db, Err(e))
  }

  /** The path with the cache, nothing failing: check, reserve, transaction, release on failure. */
  function RunCached(db: Db, rd: Redis, user: UserId, a: nat, no: OrderNo): (Db, Redis, Result<(Order, int)>) {
    if a !in db.activities then (db, rd, Err(ActivityNotFound))
    else if !Orderable(db.activities[a], db.now) then (db, rd, Err(ActivityNotAvailable))
    else
      var (rd1, reply) := ReserveScript(rd, a, db.activities[a].stock, user);
      if reply.code == ALREADY then (db, rd1, Err(DuplicateOrder))
      else if reply.code == EMPTY then (db, rd1, Err(SoldOut))
      else
        match CreateReserved(db, user, a, db.activities[a], no)
        case Commit(db', o) => (db', rd1, Ok((o, reply.left)))
        case Rollback(e) => (db, ReleaseScript(rd1, a, user), Err(e))
  }

  /** Redis mirrors MySQL: equal stock, and exactly the users with live orders marked. */
  ghost predicate Mirrors(db: Db, rd: Redis, a: nat) {
    && a in db.activities
    && if a in rd.stock then rd.stock[a] == db.activities[a].stock && Buyers(rd, a) == Holders(db.orders, a)
       else Buyers(rd, a) == {} && Untouched(db.orders, a)
  }

  ghost predicate Coupled(db: Db, rd: Redis) {
    StockOk(db) && forall a :: a in db.activities ==> Mirrors(db, rd, a)
  }

  /** A balanced idle state without leaks is coupled. */
  lemma IdleIsCoupled(w: World)
    requires Idle(w) && Sound(w) && forall a :: a in w.db.activities ==> Balanced(w, a) && Leaked(w, a) == {}
    ensures Coupled(w.db, w.redis)
  {
    hide Leaked, Holders, StockOk, Credit;
    forall a | a in w.db.activities ensures Mirrors(w.db, w.redis, a) {
      assert CounterOk(w, a);
      if a in w.redis.stock { IdleDrift(w, a); }
    }
  }

  lemma MarkedIffHolds(db: Db, rd: Redis, user: UserId, a: nat)
    requires Coupled(db, rd) && a in db.activities
    ensures user in Buyers(rd, a) <==> user in Holders(db.orders, a)
    ensures user in Holders(db.orders, a) ==> HasOrder(db, user, a)
    ensures a !in rd.stock ==> Holders(db.orders, a) == {}
  {
    assert Mirrors(db, rd, a);
    if a !in rd.stock { assert Live(db.orders, a) == {}; assert Holders(db.orders, a) == {}; }
    if user in Holders(db.orders, a) {
      var no :| no in Live(db.orders, a) && db.orders[no].user == user;
    }
  }

  /**
    Same decision, same database, same order and stock left. The errors differ
    only for a user with a live order when nothing is left: duplicate with the
    cache, sold out without it.
   */
  lemma SameDecision(db: Db, rd: Redis, user: UserId, a: nat, no: OrderNo)
    requires Coupled(db, rd)
    ensures var (db1, direct) := RunDirect(db, user, a, no);
            var (db2, _, cached) := RunCached(db, rd, user, a, no);
            && db1 == db2
            && (direct.Ok? <==> cached.Ok?)
            && (direct.Ok? ==> direct == cached)
            && (direct != cached <==>
                  && a in db.activities && Orderable(db.activities[a], db.now)
                  && db.activities[a].stock == 0 && user in Holders(db.orders, a))
            && (direct != cached ==> direct == Err(SoldOut) && cached == Err(DuplicateOrder))
  {
    hide Holders, InsertOrder, HasOrder, KeysMatch, OnePerPair, Untouched;
    if a in db.activities {
      MarkedIffHolds(db, rd, user, a);
      assert Mirrors(db, rd, a);
    }
  }

  lemma PlacedHolders(db: Db, user: UserId, a: nat, row: Activity, no: OrderNo, b: nat)
    requires StockOk(db) && b > 0
    requires CreateReserved(db, user, a, row, no).Commit?
    ensures var db' := CreateReserved(db, user, a, row, no).db;
            && Holders(db'.orders, b) == Holders(db.orders, b) + (if b == a then {user} else {})
            && (b != a ==> Untouched(db.orders, b) ==> Untouched(db'.orders, b))
            && a in db.activities
            && db'.activities == db.activities[a := db.activities[a].(stock := db.activities[a].stock - 1)]
  {
    hide Holders, HasOrder, KeyTaken, KeysMatch;
    HoldersAfterWrite(db.orders, no, NewActivityOrder(db.now, user, a, row), b);
  }

  /** The cached path leaves the stores coupled, so requests can follow one another for ever. */
  lemma CachedStaysCoupled(db: Db, rd: Redis, user: UserId, a: nat, no: OrderNo)
    requires Coupled(db, rd)
    ensures var (db', rd', _) := RunCached(db, rd, user, a, no);
            Coupled(db', rd')
  {
    hide Holders, CreateReserved, StockOk, ReserveScript, ReleaseScript, Mirrors;
    var (db', rd', _) := RunCached(db, rd, user, a, no);
    if a in db.activities && Orderable(db.activities[a], db.now) {
      StepConserves(db, OrderReserved(user, a, db.activities[a], no));
      forall b | b in db'.activities ensures Mirrors(db', rd', b) {
        MirrorKept(db, rd, user, a, no, b);
      }
    }
  }

  lemma MirrorKept(db: Db, rd: Redis, user: UserId, a: nat, no: OrderNo, b: nat)
    requires Coupled(db, rd) && a in db.activities && Orderable(db.activities[a], db.now)
    ensures var (db', rd', _) := RunCached(db, rd, user, a, no);
            db'.activities.Keys == db.activities.Keys && (b in db.activities ==> Mirrors(db', rd', b))
  {
    hide Holders, CreateReserved, StockOk;
    var (rd1, reply) := ReserveScript(rd, a, db.activities[a].stock, user);
    MarkedIffHolds(db, rd, user, a);
    if b in db.activities { assert Mirrors(db, rd, b); }
    if reply.code == TAKEN && CreateReserved(db, user, a, db.activities[a], no).Commit? {
      MirrorPlaced(db, rd, user, a, no, b);
    } else if reply.code == TAKEN {
      hide ReserveScript, ReleaseScript;
      assert Mirrors(db, rd, a);
      ReleaseUndoesReserve(rd, a, db.activities[a].stock, user);
    } else {
      assert Mirrors(db, rd, a);
    }
  }

  lemma MirrorPlaced(db: Db, rd: Redis, user: UserId, a: nat, no: OrderNo, b: nat)
    requires Coupled(db, rd) && a in db.activities && ReserveScript(rd, a, db.activities[a].stock, user).1.code == TAKEN
    requires CreateReserved(db, user, a, db.activities[a], no).Commit?
    ensures var db' := CreateReserved(db, user, a, db.activities[a], no).db;
            var rd' := ReserveScript(rd, a, db.activities[a].stock, user).0;
            db'.activities.Keys == db.activities.Keys && (b in db.activities ==> Mirrors(db', rd', b))
  {
    hide Holders, CreateReserved, KeysMatch, OnePerPair, OrdersRefer;
    MarkedIffHolds(db, rd, user, a);
    assert Mirrors(db, rd, a);
    if b in db.activities { assert Mirrors(db, rd, b); }
    PlacedHolders(db, user, a, db.activities[a], no, if b == 0 then a else b);
  }

  function OneRequest(r: nat, user: UserId, a: nat, no: OrderNo): seq<Step> {
    [Begin(r, user, a), Reserve(r), CommitOrder(r, no), Release(r)]
  }

  lemma ExecStep(w: World, st: Step, rest: seq<Step>)
    ensures Exec(w, [st] + rest) == Exec(Next(w, st), rest)
  {
    hide Next;
    assert ([st] + rest)[1..] == rest;
  }

  lemma FourSteps(w: World, s1: Step, s2: Step, s3: Step, s4: Step)
    ensures Exec(w, [s1, s2, s3, s4]) == Next(Next(Next(Next(w, s1), s2), s3), s4)
  {
    hide Next;
    assert [s1, s2, s3, s4] == [s1] + [s2, s3, s4] && [s2, s3, s4] == [s2] + [s3, s4] && [s3, s4] == [s3] + [s4];
    ExecStep(w, s1, [s2, s3, s4]);
    ExecStep(Next(w, s1), s2, [s3, s4]);
    ExecStep(Next(Next(w, s1), s2), s3, [s4]);
    ExecStep(Next(Next(Next(w, s1), s2), s3), s4, []);
    assert [s4] == [s4] + [];
  }

  /** The cached path is the protocol's own sequence of steps for one request with nothing in between. */
  lemma CachedIsProtocol(w: World, r: nat, user: UserId, a: nat, no: OrderNo)
    requires w.held == None && r !in w.requests
    ensures var (db', rd', _) := RunCached(w.db, w.redis, user, a, no);
            Exec(w, OneRequest(r, user, a, no)) == w.(db := db', redis := rd')
  {
    hide Orderable, CreateReserved, ReserveScript, ReleaseScript, Exec;
    FourSteps(w, Begin(r, user, a), Reserve(r), CommitOrder(r, no), Release(r));
    var w1 := Next(w, Begin(r, user, a));
    if a in w.db.activities && Orderable(w.db.activities[a], w.db.now) {
      var loaded := Request(user, a, w.db.activities[a], Loaded);
      assert w1 == w.(requests := w.requests[r := loaded]);
      AfterBegin(w, w1, r, loaded, no);
    } else {
      assert w1 == w;
    }
  }

  lemma AfterBegin(w: World, w1: World, r: nat, q: Request, no: OrderNo)
    requires w.held == None && r !in w.requests && q.activityId in w.db.activities
    requires q.phase == Loaded && q.snapshot == w.db.activities[q.activityId]
    requires Orderable(w.db.activities[q.activityId], w.db.now)
    requires w1 == w.(requests := w.requests[r := q])
    ensures var (db', rd', _) := RunCached(w.db, w.redis, q.user, q.activityId, no);
            Next(Next(Next(w1, Reserve(r)), CommitOrder(r, no)), Release(r)) == w.(db := db', redis := rd')
  {
    hide Orderable, CreateReserved, ReserveScript, ReleaseScript, Exec;
    assert w.requests[r := q] - {r} == w.requests;
    var w2 := Next(w1, Reserve(r));
    if ReserveOf(w1, r).1.code == TAKEN {
      assert w2 == w.(redis := ReserveOf(w1, r).0, requests := w.requests[r := q.(phase := Marked)]);
      hide Next;
      AfterReserve(w, w2, r, q, no);
    } else {
      ReplyCodes(w.redis, q.activityId, q.snapshot.stock, q.user);
      assert w2 == w.(redis := ReserveOf(w1, r).0);
    }
  }

  lemma AfterReserve(w: World, w2: World, r: nat, q: Request, no: OrderNo)
    requires w.held == None && r !in w.requests
    requires w2 == w.(redis := w2.redis, requests := w.requests[r := q.(phase := Marked)])
    ensures Next(Next(w2, CommitOrder(r, no)), Release(r)) ==
      match CreateReserved(w.db, q.user, q.activityId, q.snapshot, no)
      case Commit(db, _) => w.(db := db, redis := w2.redis)
      case Rollback(_) => w.(redis := ReleaseScript(w2.redis, q.activityId, q.user))
  {
    hide CreateReserved, ReleaseScript;
    assert w.requests[r := q.(phase := Marked)] - {r} == w.requests;
    assert w.requests[r := q.(phase := Refused)] - {r} == w.requests;
  }

  lemma ReplyCodes(rd: Redis, a: nat, initial: int, user: UserId)
    ensures ReserveScript(rd, a, initial, user).1.code in {TAKEN, ALREADY, EMPTY}
  {
  }
}
