/**
  The stock cache is only an accelerator: with `Reserve` and `Release` answered
  arbitrarily, by a cache that may be stale, wrong or down, the database keeps
  every promise.
 */
module AnyCache {
  import opened Model
  import opened Ledger
  import opened ActivityStock
  import opened Protocol
  import opened ProtocolDb
  import opened Prices

  /** The create path up to the transaction: loaded, then granted or refused by the cache. */
  datatype Asked = Asked(user: UserId, activityId: nat, snapshot: Activity, granted: bool)

  datatype Shop = Shop(db: Db, asked: map<nat, Asked>)

  datatype Move =
    | Load(r: nat, user: UserId, a: nat)
    | ReserveAnswers(r: nat, ok: bool)
    | Create(r: nat, no: OrderNo)
    | Drop(r: nat)
    | Restore(who: By, no: OrderNo, releaseOk: bool)
    | Other(st: DbStep)

  function Turn(s: Shop, m: Move): Shop {
    match m
    case Load(r, user, a) =>
      if a in s.db.activities && Orderable(s.db.activities[a], s.db.now) then
        s.(asked := s.asked[r := Asked(user, a, s.db.activities[a], false)])
      else s
    case ReserveAnswers(r, ok) =>
      if r !in s.asked then s
      else if ok then s.(asked := s.asked[r := s.asked[r].(granted := true)]) else s.(asked := s.asked - {r})
    case Create(r, no) =>
      if r in s.asked && s.asked[r].granted then
        var q := s.asked[r];
        Shop(After(s.db, CreateReserved(s.db, q.user, q.activityId, q.snapshot, no)), s.asked - {r})
      else s
    case Drop(r) => s.(asked := s.asked - {r})
    // An error from Release makes the transaction fail and roll back.
    case Restore(who, no, releaseOk) => if releaseOk then s.(db := After(s.db, RestoreTx(s.db, who, no))) else s
    case Other(st) => s.(db := DbNext(s.db, st))
  }

  function Play(s: Shop, moves: seq<Move>): Shop
    decreases |moves|
  {
    if moves == [] then s else Play(Turn(s, moves[0]), moves[1..])
  }

  function DbMoves(s: Shop, m: Move): seq<DbStep> {
    match m
    case Create(r, no) =>
      if r in s.asked && s.asked[r].granted then
        [OrderReserved(s.asked[r].user, s.asked[r].activityId, s.asked[r].snapshot, no)]
      else []
    case Restore(who, no, releaseOk) => if releaseOk then [RestoreStep(who, no)] else []
    case Other(st) => [st]
    case _ => []
  }

  function PlayTrace(s: Shop, moves: seq<Move>): seq<DbStep>
    decreases |moves|
  {
    if moves == [] then [] else DbMoves(s, moves[0]) + PlayTrace(Turn(s, moves[0]), moves[1..])
  }

  lemma TurnProjects(s: Shop, m: Move)
    ensures Turn(s, m).db == DbRun(s.db, DbMoves(s, m))
  {
    hide CreateReserved, Cancel, Expire, CloseUnpaid;
    if DbMoves(s, m) != [] {
      DbRunOne(s.db, DbMoves(s, m)[0]);
    }
  }

  lemma {:induction false} PlayProjects(s: Shop, moves: seq<Move>)
    ensures Play(s, moves).db == DbRun(s.db, PlayTrace(s, moves))
    decreases |moves|
  {
    hide Turn, DbMoves;
    if moves == [] {
    } else {
      TurnProjects(s, moves[0]);
      PlayProjects(Turn(s, moves[0]), moves[1..]);
      DbRunAppend(s.db, DbMoves(s, moves[0]), PlayTrace(Turn(s, moves[0]), moves[1..]));
    }
  }

  /**
    Whatever the cache answers, every run keeps stock non-negative, stock plus
    live orders constant, one order per user and activity, and all the other
    database invariants; and each order was committed inside its activity's window.
   */
  lemma AnyCacheIsSafe(s: Shop, moves: seq<Move>, no: OrderNo)
    requires DbOk(s.db)
    ensures DbLater(s.db, Play(s, moves).db)
    ensures no !in s.db.orders && no in Play(s, moves).db.orders ==>
      exists i :: CommittedAt(s.db, PlayTrace(s, moves), i, no)
  {
    hide Play, DbRun, CommittedAt, DbOk, DbLater;
    PlayProjects(s, moves);
    var trace := PlayTrace(s, moves);
    DbRunOk(s.db, trace);
    if no !in s.db.orders && no in Play(s, moves).db.orders {
      var i := OrderedInWindow(s.db, trace, no);
    }
  }

  // ---------- prices ----------

  /** What requests have read still has the terms of their activities. */
  ghost predicate AskedTrue(s: Shop) {
    forall r :: r in s.asked ==>
      && s.asked[r].activityId in s.db.activities
      && SameTerms(s.asked[r].snapshot, s.db.activities[s.asked[r].activityId])
  }

  /** Nobody else passes off a row as read. */
  predicate HonestMove(m: Move) {
    !(m.Other? && m.st.OrderReserved?)
  }

  lemma TurnReads(s: Shop, m: Move)
    requires AskedTrue(s) && TermsKept(s.db, Turn(s, m).db)
    ensures AskedTrue(Turn(s, m))
  {
    hide DbNext, CreateReserved, RestoreTx;
  }

  lemma TurnSnapshots(s: Shop, m: Move)
    requires AskedTrue(s) && HonestMove(m)
    ensures SnapshotsFit(s.db, DbMoves(s, m))
  {
    hide DbNext;
  }

  /** Whatever the cache answers, every activity order is at its activity's price. */
  lemma {:induction false} AnyCachePrices(s: Shop, moves: seq<Move>)
    requires ShopOk(s.db) && AskedTrue(s) && forall m :: m in moves ==> HonestMove(m)
    ensures ShopOk(Play(s, moves).db)
    decreases |moves|
  {
    hide Turn, ShopOk, AskedTrue, DbMoves, SnapshotsFit, DbRun, TermsKept, HonestMove;
    if moves != [] {
      TurnSnapshots(s, moves[0]);
      TurnProjects(s, moves[0]);
      RunPrices(s.db, DbMoves(s, moves[0]));
      TurnReads(s, moves[0]);
      AnyCachePrices(Turn(s, moves[0]), moves[1..]);
    }
  }
}
