/**
  Where the two-store equality stops: the exact effect of overwriting a counter,
  the exact condition of an eviction, and a run for each of the four ways that
  lead to the sold-out fallback.
 */
module ProtocolLimits {
  import opened Keys
  import opened Model
  import opened Ledger
  import opened RedisStock
  import opened ActivityStock
  import opened Protocol
  import opened ProtocolSafety
  import opened ProtocolMarks
  import opened ProtocolRuns

  // ---------- overwriting a counter ----------

  /** Redis would sell more units than MySQL has left for new requests. */
  ghost predicate OverPromises(w: World, a: nat) {
    a in w.redis.stock && a in w.db.activities
    && w.redis.stock[a] > w.db.activities[a].stock + |Returning(w, a)| - |InFlight(w, a)|
  }

  /** While the marks part, it does so exactly when overwrites have added more than has leaked. */
  lemma OverPromisesExactly(w: World, a: nat)
    requires Sound(w) && Whole(w, a) && a in w.redis.stock
    ensures OverPromises(w, a) <==> Credit(w, a) > |Leaked(w, a)|
  {
    hide Sound, Returning, InFlight, Leaked, Credit;
    TwoStoreLaw(w, a);
  }

  /**
    A prewarm credits one unit for every mark there is. It makes Redis promise
    too much exactly when there is a settled order or a request in flight; marks
    that have only leaked do no harm.
   */
  lemma PrewarmOverPromises(w: World, a: nat)
    requires Sound(w) && Whole(w, a) && a in w.prewarms
    ensures Credit(Next(w, Prewarm(a)), a) == |Buyers(w.redis, a)|
    ensures OverPromises(Next(w, Prewarm(a)), a) <==> Settled(w, a) + InFlight(w, a) != {}
  {
    hide Buyers, Settled, InFlight, Holders, Restores;
    var w' := Next(w, Prewarm(a));
    StepKeeps(w, Prewarm(a));
    OnlyRedisMoves(w, w', a);
    OverPromisesExactly(w', a);
    PartsCount(Buyers(w.redis, a), Settled(w, a), InFlight(w, a));
  }

  lemma OnlyRedisMoves(w: World, w': World, a: nat)
    requires Whole(w, a) && w'.db == w.db && w'.requests == w.requests && w'.held == w.held
    requires w'.redis.buyers == w.redis.buyers
    ensures Whole(w', a) && Leaked(w', a) == Leaked(w, a) && Settled(w', a) == Settled(w, a)
    ensures InFlight(w', a) == InFlight(w, a) && Returning(w', a) == Returning(w, a)
      && Buyers(w'.redis, a) == Buyers(w.redis, a)
  {
  }

  /**
    A repair with the current MySQL stock credits the in-flight and leaked marks,
    less the order being given back. It makes Redis promise too much exactly when
    more requests are in flight than orders are being given back.
   */
  lemma RepairOverPromises(w: World, a: nat, value: nat)
    requires Sound(w) && Whole(w, a) && a in w.db.activities && value == w.db.activities[a].stock
    ensures Next(w, Repair(a, value)).redis.stock[a] == w.db.activities[a].stock
    ensures Credit(Next(w, Repair(a, value)), a) == |InFlight(w, a)| + |Leaked(w, a)| - |Returning(w, a)|
    ensures OverPromises(Next(w, Repair(a, value)), a) <==> |InFlight(w, a)| > |Returning(w, a)|
  {
    hide Settled, InFlight, Holders, StockOk, Returning, Buyers, Restores;
    var w' := Next(w, Repair(a, value));
    StepKeeps(w, Repair(a, value));
    OnlyRedisMoves(w, w', a);
    TwoStoreLaw(w', a);
    OverPromisesExactly(w', a);
  }

  // ---------- evictions ----------

  /**
    Undoing a restore after its release keeps the split exactly when the holder
    has a stranded mark to fall back on.
   */
  lemma RollbackEvictsExactly(w: World, a: nat)
    requires Sound(w) && Whole(w, a) && a in w.db.activities && w.held.Some?
    ensures w.held.value.no in w.db.orders
    ensures var o := w.db.orders[w.held.value.no];
            Parted(Next(w, RestoreRollback), a) <==> (o.activityId == a ==> o.user in Leaked(w, a))
  {
    hide Settled, InFlight, Parted, Buyers, StockOk, Restores, Next;
    PositiveIds(w, a);
    EvictsExactly(w, RestoreRollback, a);
  }

  /**
    Losing the reply of a create evicts nothing yet; and if the release is never
    sent, nothing has gone wrong at all.
   */
  lemma LostTwiceIsCommit(w: World, r: nat, no: OrderNo, a: nat)
    requires InPhase(w, r, Marked) && w.held == None && CreateOf(w, r, no).Commit?
    ensures !Evicts(w, CommitReplyLost(r, no), a)
    ensures Next(Next(w, CommitReplyLost(r, no)), Abandon(r)) == Next(w, CommitOrder(r, no))
  {
    hide CreateOf, Leaked;
    assert w.requests[r := w.requests[r].(phase := Astray)] - {r} == w.requests - {r};
  }

  /**
    The release of such a request keeps the split exactly when its user has no
    settled order and no other request in flight.
   */
  lemma StrayReleaseEvictsExactly(w: World, r: nat, a: nat)
    requires Sound(w) && Whole(w, a) && a in w.db.activities && InPhase(w, r, Astray) && w.requests[r].activityId == a
    ensures Parted(Next(w, Release(r)), a) <==> w.requests[r].user !in Settled(w, a) + InFlight(w, a)
  {
    hide Settled, InFlight, Parted, Buyers, Sound, Next;
    EvictsExactly(w, Release(r), a);
    var u := w.requests[r].user;
    assert Stray(w, Release(r), a) == {u} && Undone(w, Release(r), a) == {};
    var used := Settled(w, a) + InFlight(w, a);
    assert u in used ==> u in {u} * used;
    assert u !in used ==> {u} * used == {};
  }

  // ---------- four runs that reach the fallback ----------

  lemma {:induction false} ExecAppend(w: World, steps: seq<Step>, more: seq<Step>)
    ensures Exec(w, steps + more) == Exec(Exec(w, steps), more)
    decreases |steps|
  {
    hide Next;
    if steps == [] {
      assert steps + more == more;
    } else {
      assert (steps + more)[1..] == steps[1..] + more;
      ExecAppend(Next(w, steps[0]), steps[1..], more);
    }
  }

  lemma ExecOne(w: World, steps: seq<Step>, st: Step)
    ensures Exec(w, steps + [st]) == Next(Exec(w, steps), st)
  {
    hide Next;
    ExecAppend(w, steps, [st]);
    assert Exec(Next(Exec(w, steps), st), [st][1..]) == Next(Exec(w, steps), st);
  }

  function OnSale(stock: int): Activity {
    Activity(1, 10, stock, Published, 0, 100)
  }

  /** One unit on sale, the prewarm still to come. */
  lemma Opening() returns (steps: seq<Step>, w: World)
    ensures w == Exec(Start(0), steps)
    ensures w.db.activities == map[1 := OnSale(1)] && w.db.orders == map[] && w.db.now == 0
    ensures w.redis == Redis(map[], map[]) && w.requests == map[] && w.held == None && w.prewarms == map[1 := 1]
  {
    var first, second := Plain(AddProduct(1, 10, 1)), NewActivity(1, 1, 10, 1, 100);
    steps := [] + [first];
    ExecOne(Start(0), [], first);
    var w1 := Next(Start(0), first);
    assert w1.db == EmptyDb(0).(products := map[1 := Product(10, 1)]);
    ExecOne(Start(0), steps, second);
    steps := steps + [second];
    w := Next(w1, second);
  }

  function Asking(user: UserId, p: Phase): Request {
    Request(user, 1, OnSale(1), p)
  }

  lemma Extend(w0: World, steps: seq<Step>, w: World, st: Step) returns (more: seq<Step>, w': World)
    requires w == Exec(w0, steps)
    ensures more == steps + [st] && w' == Next(w, st) == Exec(w0, more)
  {
    hide Next;
    ExecOne(w0, steps, st);
    more, w' := steps + [st], Next(w, st);
  }

  ghost predicate Counts(w: World, stock: int, buyers: set<UserId>) {
    1 in w.redis.stock && w.redis.stock[1] == stock && Buyers(w.redis, 1) == buyers
  }

  lemma ReserveOne(w0: World, steps: seq<Step>, w: World, r: nat, user: UserId) returns (more: seq<Step>, w': World)
    requires w == Exec(w0, steps) && r in w.requests && w.requests[r] == Asking(user, Loaded)
    requires user !in Buyers(w.redis, 1) && (1 in w.redis.stock ==> w.redis.stock[1] > 0)
    ensures w' == Exec(w0, more)
    ensures Counts(w', (if 1 in w.redis.stock then w.redis.stock[1] else 1) - 1, Buyers(w.redis, 1) + {user})
    ensures w' == w.(redis := w'.redis, requests := w.requests[r := Asking(user, Marked)])
  {
    more, w' := Extend(w0, steps, w, Reserve(r));
  }

  lemma CommitFirst(w0: World, steps: seq<Step>, w: World, r: nat, user: UserId) returns (more: seq<Step>, w': World)
    requires w == Exec(w0, steps) && r in w.requests && w.requests[r] == Asking(user, Marked) && w.held == None
    requires w.db.activities == map[1 := OnSale(1)] && w.db.orders == map[] && w.db.now == 0
    ensures w' == Exec(w0, more)
    ensures w' == w.(db := w'.db, requests := w.requests - {r})
    ensures w'.db.activities == map[1 := OnSale(0)] && w'.db.now == 0
    ensures w'.db.orders == map["A" := NewActivityOrder(0, user, 1, OnSale(1))]
  {
    more, w' := Extend(w0, steps, w, CommitOrder(r, "A"));
  }

  lemma NothingLeft(w: World, r: nat, user: UserId)
    requires r in w.requests && w.requests[r] == Asking(user, Marked)
    requires w.db.activities == map[1 := OnSale(0)] && w.db.orders == map["A" := NewActivityOrder(0, 7, 1, OnSale(1))]
    requires user != 7
    ensures CreateOf(w, r, "B") == Rollback(SoldOut)
  {
    assert !HasOrder(w.db, user, 1);
  }

  /**
    A prewarm that lands after a first reservation: the second user's Reserve
    succeeds and the database then answers sold out.
   */
  lemma LatePrewarmRun() returns (steps: seq<Step>, w: World)
    ensures w == Exec(Start(0), steps)
    ensures w.held == None && InPhase(w, 2, Marked) && CreateOf(w, 2, "B") == Rollback(SoldOut)
  {
    hide CreateOf, ReserveOf, NewActivityOrder, Exec;
    steps, w := Opening();
    steps, w := Extend(Start(0), steps, w, Begin(1, 7, 1));
    steps, w := ReserveOne(Start(0), steps, w, 1, 7);
    steps, w := Extend(Start(0), steps, w, Prewarm(1));
    steps, w := Extend(Start(0), steps, w, Begin(2, 8, 1));
    steps, w := ReserveOne(Start(0), steps, w, 2, 8);
    steps, w := CommitFirst(Start(0), steps, w, 1, 7);
    NothingLeft(w, 2, 8);
  }

  lemma UndoneCancel(w0: World, steps: seq<Step>, w: World) returns (more: seq<Step>, w': World)
    requires w == Exec(w0, steps) && w.held == None && Counts(w, 0, {7})
    requires w.db.activities == map[1 := OnSale(0)] && w.db.orders == map["A" := NewActivityOrder(0, 7, 1, OnSale(1))]
    ensures w' == Exec(w0, more) && w' == w.(redis := w'.redis) && Counts(w', 1, {})
  {
    hide Exec, Next, Restores, NewActivityOrder;
    FirstCancel(w);
    BeginIsRelease(w, ByUser(7), "A");
    ReleasedAlone(w.redis, 7);
    var released: World;
    more, released := Extend(w0, steps, w, RestoreBegin(ByUser(7), "A"));
    EndIsCommit(released, ByUser(7), "A");
    more, w' := Extend(w0, more, released, RestoreRollback);
  }

  /** The first order is of user 7 and can be cancelled. */
  lemma FirstCancel(w: World)
    requires w.db.activities == map[1 := OnSale(0)] && w.db.orders == map["A" := NewActivityOrder(0, 7, 1, OnSale(1))]
    ensures w.db.orders["A"].activityId == 1 && w.db.orders["A"].user == 7 && Restores(w.db, ByUser(7), "A")
    ensures After(w.db, RestoreTx(w.db, ByUser(7), "A")).orders.Keys == {"A"}
    ensures After(w.db, RestoreTx(w.db, ByUser(7), "A")).orders["A"].status == Cancelled
  {
  }

  lemma ReleasedAlone(rd: Redis, user: UserId)
    requires 1 in rd.stock && Buyers(rd, 1) == {user}
    ensures var rd' := ReleaseScript(rd, 1, user);
            1 in rd'.stock && rd'.stock[1] == rd.stock[1] + 1 && Buyers(rd', 1) == {}
  {
  }

  /**
    A cancel rolled back after its release: the order stays live without its
    mark, the freed unit is reserved again, and the database answers sold out.
   */
  lemma RolledBackCancelRun() returns (steps: seq<Step>, w: World)
    ensures w == Exec(Start(0), steps)
    ensures w.held == None && InPhase(w, 2, Marked) && CreateOf(w, 2, "B") == Rollback(SoldOut)
  {
    hide CreateOf, ReserveOf, NewActivityOrder, Exec;
    steps, w := Opening();
    steps, w := Extend(Start(0), steps, w, Prewarm(1));
    steps, w := Extend(Start(0), steps, w, Begin(1, 7, 1));
    steps, w := Extend(Start(0), steps, w, Begin(2, 8, 1));
    steps, w := ReserveOne(Start(0), steps, w, 1, 7);
    steps, w := CommitFirst(Start(0), steps, w, 1, 7);
    steps, w := UndoneCancel(Start(0), steps, w);
    steps, w := ReserveOne(Start(0), steps, w, 2, 8);
    NothingLeft(w, 2, 8);
  }

  /** After two requests have read the one unit on sale, and the first has taken it. */
  lemma TwoAsk() returns (steps: seq<Step>, w: World)
    ensures w == Exec(Start(0), steps) && Counts(w, 0, {7}) && w.held == None
    ensures w.db.activities == map[1 := OnSale(1)] && w.db.orders == map[] && w.db.now == 0
    ensures w.requests == map[1 := Asking(7, Marked), 2 := Asking(8, Loaded)]
  {
    hide CreateOf, ReserveOf, Exec;
    steps, w := Opening();
    steps, w := Extend(Start(0), steps, w, Prewarm(1));
    steps, w := Extend(Start(0), steps, w, Begin(1, 7, 1));
    steps, w := Extend(Start(0), steps, w, Begin(2, 8, 1));
    steps, w := ReserveOne(Start(0), steps, w, 1, 7);
  }

  /**
    A repair while a request is in flight: it sets the counter to the MySQL stock
    that request is about to take, and a second Reserve succeeds.
   */
  lemma RepairRun() returns (steps: seq<Step>, w: World)
    ensures w == Exec(Start(0), steps)
    ensures w.held == None && InPhase(w, 2, Marked) && CreateOf(w, 2, "B") == Rollback(SoldOut)
  {
    hide CreateOf, ReserveOf, NewActivityOrder, Exec;
    steps, w := TwoAsk();
    steps, w := Extend(Start(0), steps, w, Repair(1, 1));
    steps, w := ReserveOne(Start(0), steps, w, 2, 8);
    steps, w := CommitFirst(Start(0), steps, w, 1, 7);
    NothingLeft(w, 2, 8);
  }

  lemma CommitUnheard(w0: World, steps: seq<Step>, w: World) returns (more: seq<Step>, w': World)
    requires w == Exec(w0, steps) && w.held == None && Counts(w, 0, {7})
    requires 1 in w.requests && w.requests[1] == Asking(7, Marked)
    requires w.db.activities == map[1 := OnSale(1)] && w.db.orders == map[] && w.db.now == 0
    ensures w' == Exec(w0, more) && Counts(w', 1, {})
    ensures w' == w.(db := w'.db, redis := w'.redis, requests := w.requests - {1})
    ensures w'.db.activities == map[1 := OnSale(0)] && w'.db.orders == map["A" := NewActivityOrder(0, 7, 1, OnSale(1))]
  {
    hide Exec, ReleaseScript;
    var placed: World;
    more, placed := Extend(w0, steps, w, CommitReplyLost(1, "A"));
    StrayRelease(w, placed);
    more, w' := Extend(w0, more, placed, Release(1));
  }

  lemma StrayRelease(w: World, placed: World)
    requires 1 in w.requests && w.requests[1] == Asking(7, Marked) && Counts(w, 0, {7})
    requires placed == w.(db := placed.db, requests := w.requests[1 := Asking(7, Astray)])
    ensures var w' := Next(placed, Release(1));
            w' == w.(db := placed.db, redis := w'.redis, requests := w.requests - {1}) && Counts(w', 1, {})
  {
    hide ReleaseScript;
    ReleasedAlone(w.redis, 7);
    assert w.requests[1 := Asking(7, Astray)] - {1} == w.requests - {1};
  }

  /**
    A create that commits and whose reply is lost: its release takes the mark
    from the order it has placed, and the freed unit is reserved again.
   */
  lemma LostReplyRun() returns (steps: seq<Step>, w: World)
    ensures w == Exec(Start(0), steps)
    ensures w.held == None && InPhase(w, 2, Marked) && CreateOf(w, 2, "B") == Rollback(SoldOut)
  {
    hide CreateOf, ReserveOf, NewActivityOrder, Exec;
    steps, w := TwoAsk();
    steps, w := CommitUnheard(Start(0), steps, w);
    steps, w := ReserveOne(Start(0), steps, w, 2, 8);
    NothingLeft(w, 2, 8);
  }
}
