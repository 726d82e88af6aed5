/**
  What one client's method call looks like as protocol steps: the steps of
  others in between, the calls that may fail, and the traces of whole calls.
 */
module Clients {
  import opened Keys
  import opened Model
  import opened Ledger
  import opened RedisStock
  import opened Protocol
  import opened ActivityStock
  import opened RepairLoops
  import opened Terms
  import L = ProtocolLimits

  // ---------- other clients ----------

  /** The step belongs to someone other than request `r`. */
  predicate OthersStep(st: Step, r: nat) {
    match st
    case Begin(s, _, _) => s != r
    case Reserve(s) => s != r
    case ReserveFails(s) => s != r
    case ReserveReplyLost(s) => s != r
    case CommitOrder(s, _) => s != r
    case CommitReplyLost(s, _) => s != r
    case TxFails(s) => s != r
    case Release(s) => s != r
    case Abandon(s) => s != r
    case _ => true
  }

  ghost predicate Others(steps: seq<Step>, r: nat) {
    forall st :: st in steps ==> OthersStep(st, r)
  }

  /** Nobody ends a restoring transaction that is not theirs. */
  ghost predicate LeaveHeld(steps: seq<Step>) {
    forall st :: st in steps ==> !st.RestoreCommit? && !st.RestoreRollback?
  }

  /** Nobody else creates or prewarms the activity; its id comes from the database. */
  ghost predicate LeaveActivity(steps: seq<Step>, a: nat) {
    forall st :: st in steps ==>
      !(st.NewActivity? && st.a == a) && !(st.Prewarm? && st.a == a) && !(st.PrewarmFails? && st.a == a)
  }

  lemma PrewarmWaitsStep(w: World, st: Step, a: nat)
    requires !(st.NewActivity? && st.a == a) && !(st.Prewarm? && st.a == a) && !(st.PrewarmFails? && st.a == a)
    ensures a in w.prewarms ==> a in Next(w, st).prewarms && Next(w, st).prewarms[a] == w.prewarms[a]
  {
    hide ReserveOf, CreateOf, Restores, RestoreTx, DbNext, CreateActivity;
  }

  /** The prewarm that a creation owes stays owed, with its value. */
  lemma {:induction false} PrewarmWaits(w: World, steps: seq<Step>, a: nat)
    requires LeaveActivity(steps, a)
    ensures a in w.prewarms ==> a in Exec(w, steps).prewarms && Exec(w, steps).prewarms[a] == w.prewarms[a]
    decreases |steps|
  {
    hide Next;
    if steps != [] {
      PrewarmWaitsStep(w, steps[0], a);
      PrewarmWaits(Next(w, steps[0]), steps[1..], a);
    }
  }

  predicate SameRequest(w: World, w': World, r: nat) {
    (r in w.requests <==> r in w'.requests) && (r in w.requests ==> w'.requests[r] == w.requests[r])
  }

  lemma OthersStepKeeps(w: World, st: Step, r: nat)
    requires OthersStep(st, r)
    ensures SameRequest(w, Next(w, st), r)
  {
    hide ReserveOf, CreateOf, Restores, RestoreTx, DbNext, CreateActivity;
  }

  lemma {:induction false} OthersKeep(w: World, steps: seq<Step>, r: nat)
    requires Others(steps, r)
    ensures SameRequest(w, Exec(w, steps), r)
    decreases |steps|
  {
    hide Next;
    if steps == [] {
    } else {
      OthersStepKeeps(w, steps[0], r);
      OthersKeep(Next(w, steps[0]), steps[1..], r);
    }
  }

  lemma HeldStep(w: World, st: Step)
    requires w.held.Some? && !st.RestoreCommit? && !st.RestoreRollback?
    ensures Next(w, st).db == w.db && Next(w, st).held == w.held
  {
    hide ReserveOf, CreateOf, Restores, RestoreTx, DbNext, CreateActivity;
  }

  /** While a restoring transaction holds the database, nobody else changes it. */
  lemma {:induction false} HeldFreezes(w: World, steps: seq<Step>)
    requires w.held.Some? && LeaveHeld(steps)
    ensures Exec(w, steps).db == w.db && Exec(w, steps).held == w.held
    decreases |steps|
  {
    hide Next;
    if steps == [] {
    } else {
      HeldStep(w, steps[0]);
      HeldFreezes(Next(w, steps[0]), steps[1..]);
    }
  }

  // ---------- calls that fail ----------

  /** How a call to a store ends. After `ReplyLost` the store has done its part and the caller sees an error. */
  datatype Call = Answered | NotSent | ReplyLost

  datatype Calls = Calls(reserve: Call, commit: Call, release: Call)

  function ReserveCall(r: nat, call: Call): Step {
    match call
    case Answered => Reserve(r)
    case NotSent => ReserveFails(r)
    case ReplyLost => ReserveReplyLost(r)
  }

  function CommitCall(r: nat, no: OrderNo, call: Call): Step {
    match call
    case Answered => CommitOrder(r, no)
    case NotSent => TxFails(r)
    case ReplyLost => CommitReplyLost(r, no)
  }

  /** The error of a release is ignored. */
  function ReleaseCall(r: nat, call: Call): Step {
    if call == NotSent then Abandon(r) else Release(r)
  }

  function PrewarmCall(a: nat, call: Call): Step {
    if call == NotSent then PrewarmFails(a) else Prewarm(a)
  }

  /** How a restoring transaction that has released Redis ends. */
  function RestoreEnd(f: Fate): Step {
    if f == Undone then RestoreRollback else RestoreCommit
  }

  // ---------- traces of whole calls ----------

  lemma CancelTrace(w: World, who: By, no: OrderNo, env: seq<Step>, last: Step)
    ensures Exec(w, [RestoreCommit]) == Next(w, RestoreCommit)
    ensures Exec(w, [RestoreCommit, RestoreBegin(who, no)] + env + [last])
         == Next(Exec(Next(Next(w, RestoreCommit), RestoreBegin(who, no)), env), last)
  {
    hide Next, Exec;
    ExecNothing(w);
    L.ExecOne(w, [], RestoreCommit);
    assert [] + [RestoreCommit] == [RestoreCommit];
    L.ExecOne(w, [RestoreCommit], RestoreBegin(who, no));
    assert [RestoreCommit] + [RestoreBegin(who, no)] == [RestoreCommit, RestoreBegin(who, no)];
    L.ExecAppend(w, [RestoreCommit, RestoreBegin(who, no)], env);
    L.ExecOne(w, [RestoreCommit, RestoreBegin(who, no)] + env, last);
  }

  lemma NewActivityIs(w: World, a: nat, p: nat, price: int, stock: int, seconds: int)
    requires w.held == None
    ensures Next(w, NewActivity(a, p, price, stock, seconds)) ==
      match Ledger.CreateActivity(w.db, a, p, price, stock, seconds)
      case Commit(db, _) => w.(db := db, prewarms := w.prewarms[a := stock])
      case Rollback(_) => w
  {
    hide CreateActivity;
  }

  lemma PrewarmIs(w: World, a: nat, call: Call)
    requires a in w.prewarms
    ensures Next(w, PrewarmCall(a, call)) ==
      w.(redis := if call == NotSent then w.redis else Overwritten(w.redis, a, w.prewarms[a]),
         prewarms := w.prewarms - {a})
  {
  }

  lemma WaitKeepsRequests(w: World)
    ensures Next(w, RestoreCommit).requests == w.requests
  {
  }

  /** The protocol steps of one cached create with the others in between. */
  function CreateTrace(r: nat, user: UserId, a: nat, no: OrderNo, calls: Calls,
    env1: seq<Step>, env2: seq<Step>, env3: seq<Step>): seq<Step>
  {
    [Begin(r, user, a)] + env1 + [ReserveCall(r, calls.reserve)] + env2
    + [RestoreCommit] + [CommitCall(r, no, calls.commit)] + env3 + [ReleaseCall(r, calls.release)]
  }

  // ---------- the answer of a cached create ----------

  /** The check in front of the cache. */
  function Turned(db: Db, a: nat): Option<Error> {
    if a !in db.activities then Some(ActivityNotFound)
    else if !Orderable(db.activities[a], db.now) then Some(ActivityNotAvailable)
    else None
  }

  function ReserveAnswer(w: World, r: nat, call: Call): Result<int> {
    if call != Answered || r !in w.requests then Err(StoreFault)
    else
      var reply := ReserveOf(w, r).1;
      if reply.code == TAKEN then Ok(reply.left) else Err(if reply.code == ALREADY then DuplicateOrder else SoldOut)
  }

  function CommitAnswer(w: World, r: nat, no: OrderNo, call: Call): Result<Order> {
    if call == NotSent || r !in w.requests then Err(StoreFault)
    else
      match CreateOf(w, r, no)
      case Rollback(e) => Err(e)
      case Commit(_, o) => if call == Answered then Ok(o) else Err(StoreFault)
  }

  /** The worlds the request's own calls meet. */
  function AtReserve(w: World, r: nat, user: UserId, a: nat, env1: seq<Step>): World {
    Exec(Next(w, Begin(r, user, a)), env1)
  }

  function AtCommit(w: World, r: nat, user: UserId, a: nat, calls: Calls, env1: seq<Step>, env2: seq<Step>): World {
    Next(Exec(Next(AtReserve(w, r, user, a, env1), ReserveCall(r, calls.reserve)), env2), RestoreCommit)
  }

  /** What the request answers and how many of the steps of its trace it runs. */
  function CreateOutcome(w: World, r: nat, user: UserId, a: nat, no: OrderNo, calls: Calls, env1: seq<Step>,
      env2: seq<Step>, env3: seq<Step>)
    : (Result<(Order, int)>, nat)
  {
    if Turned(w.db, a).Some? then (Err(Turned(w.db, a).value), 0)
    else
      match ReserveAnswer(AtReserve(w, r, user, a, env1), r, calls.reserve)
      case Err(e) => (Err(e), 2 + |env1|)
      case Ok(left) =>
        match CommitAnswer(AtCommit(w, r, user, a, calls, env1, env2), r, no, calls.commit)
        case Ok(o) => (Ok((o, left)), 4 + |env1| + |env2|)
        case Err(e) => (Err(e), 5 + |env1| + |env2| + |env3|)
  }

  /** The counter a Reserve finds or creates from the row read before it. */
  function CounterFor(w: World, a: nat, row: Activity): int {
    if a in w.redis.stock then w.redis.stock[a] else row.stock
  }

  /** The answer of the commit, from the rows it finds. */
  ghost predicate CommitDecides(db: Db, user: UserId, a: nat, no: OrderNo, call: Call, r: Result<Order>) {
    var used := a in db.activities && db.activities[a].stock <= 0;
    if call == NotSent then r == Err(StoreFault)
    else if Ordered(db, user, a) then r == Err(DuplicateOrder)
    else if used then r == Err(SoldOut)
    else if !OpenFor(db, a) then r == Err(ActivityNotAvailable)
    else if no in db.orders || call == ReplyLost then r == Err(StoreFault)
    else r.Ok?
  }

  /**
    What a cached create answers, from the rows and counters it meets: the row at
    its check, the counter and the marks at its Reserve, the rows at its commit.
   */
  lemma CreateDecides(w: World, r: nat, user: UserId, a: nat, no: OrderNo, calls: Calls,
      env1: seq<Step>, env2: seq<Step>, env3: seq<Step>)
    requires r !in w.requests && Others(env1, r) && Others(env2, r)
    requires StockOk(AtCommit(w, r, user, a, calls, env1, env2).db)
    ensures var (answer, length) := CreateOutcome(w, r, user, a, no, calls, env1, env2, env3);
            if a !in w.db.activities then answer == Err(ActivityNotFound) && length == 0
            else if !OpenFor(w.db, a) then answer == Err(ActivityNotAvailable) && length == 0
            else
              var at, row := AtReserve(w, r, user, a, env1), w.db.activities[a];
              if calls.reserve != Answered then answer == Err(StoreFault)
              else if user in Buyers(at.redis, a) then answer == Err(DuplicateOrder)
              else if CounterFor(at, a, row) <= 0 then answer == Err(SoldOut)
              else
                var placed := if answer.Ok? then Ok(answer.value.0) else Err(answer.error);
                && CommitDecides(AtCommit(w, r, user, a, calls, env1, env2).db, user, a, no, calls.commit, placed)
                && (answer.Ok? ==> answer.value.1 == CounterFor(at, a, row) - 1)
  {
    hide Next, Exec, CreateReserved, CommitDecides;
    if a in w.db.activities && OpenFor(w.db, a) {
      var row := w.db.activities[a];
      var q := Request(user, a, row, Loaded);
      BeginIs(w, r, user, a);
      OthersKeep(Next(w, Begin(r, user, a)), env1, r);
      var at := AtReserve(w, r, user, a, env1);
      assert at.requests[r] == q;
      ReserveDecides(at, r, calls.reserve);
      if calls.reserve == Answered && user !in Buyers(at.redis, a) && CounterFor(at, a, row) > 0 {
        OthersKeep(Next(at, Reserve(r)), env2, r);
        WaitKeepsRequests(Exec(Next(at, Reserve(r)), env2));
        CommitAnswers(AtCommit(w, r, user, a, calls, env1, env2), r, no, calls.commit);
      }
    }
  }

  lemma BeginIs(w: World, r: nat, user: UserId, a: nat)
    requires r !in w.requests && OpenFor(w.db, a)
    ensures var w' := Next(w, Begin(r, user, a));
            r in w'.requests && w'.requests[r] == Request(user, a, w.db.activities[a], Loaded)
  {
  }

  lemma ReserveDecides(w: World, r: nat, call: Call)
    requires InPhase(w, r, Loaded)
    ensures var q := w.requests[r];
            var counter := CounterFor(w, q.activityId, q.snapshot);
            var marked := q.user in Buyers(w.redis, q.activityId);
            && ReserveAnswer(w, r, call) ==
                 (if call != Answered then Err(StoreFault) else if marked then Err(DuplicateOrder)
                  else if counter <= 0 then Err(SoldOut) else Ok(counter - 1))
            && (!marked && counter > 0 ==>
                  r in Next(w, Reserve(r)).requests && Next(w, Reserve(r)).requests[r] == q.(phase := Marked))
  {
  }

  lemma CommitAnswers(w: World, r: nat, no: OrderNo, call: Call)
    requires r in w.requests && StockOk(w.db)
    ensures CommitDecides(w.db, w.requests[r].user, w.requests[r].activityId, no, call, CommitAnswer(w, r, no, call))
  {
    hide StockOk, Ordered, CreateReserved;
    var q := w.requests[r];
    ReservedAnswers(w.db, q.user, q.activityId, q.snapshot, no);
  }

  /** What each way for the commit to end does to the request and the database. */
  lemma CommitIs(w: World, r: nat, no: OrderNo, call: Call)
    requires InPhase(w, r, Marked) && w.held == None
    ensures var q := w.requests[r];
            Next(w, CommitCall(r, no, call)) ==
              if call == NotSent || CreateOf(w, r, no).Rollback? then
                w.(requests := w.requests[r := q.(phase := Refused)])
              else if call == ReplyLost then
                w.(db := CreateOf(w, r, no).db, requests := w.requests[r := q.(phase := Astray)])
              else w.(db := CreateOf(w, r, no).db, requests := w.requests - {r})
  {
    hide CreateOf;
  }

  lemma TraceParts(w: World, r: nat, user: UserId, a: nat, no: OrderNo, calls: Calls,
      env1: seq<Step>, env2: seq<Step>, env3: seq<Step>)
    ensures var whole := CreateTrace(r, user, a, no, calls, env1, env2, env3);
            var w1 := Exec(Next(w, Begin(r, user, a)), env1);
            var w2 := Exec(Next(w1, ReserveCall(r, calls.reserve)), env2);
            var w3 := Next(Next(w2, RestoreCommit), CommitCall(r, no, calls.commit));
            var w4 := Next(Exec(w3, env3), ReleaseCall(r, calls.release));
            && |whole| == 5 + |env1| + |env2| + |env3|
            && Exec(w, whole[..2 + |env1|]) == Next(w1, ReserveCall(r, calls.reserve))
            && Exec(w, whole[..4 + |env1| + |env2|]) == w3
            && Exec(w, whole) == w4
  {
    hide Next, Exec, ReserveCall, CommitCall, ReleaseCall;
    var whole := CreateTrace(r, user, a, no, calls, env1, env2, env3);
    var reserve, commit, release :=
      ReserveCall(r, calls.reserve), CommitCall(r, no, calls.commit), ReleaseCall(r, calls.release);
    var p1 := [Begin(r, user, a)];
    var p2 := p1 + env1 + [reserve];
    var p3 := p2 + env2 + [RestoreCommit] + [commit];
    assert whole[..2 + |env1|] == p2;
    assert whole[..4 + |env1| + |env2|] == p3;
    assert whole == p3 + env3 + [release];
    L.ExecOne(w, [], Begin(r, user, a));
    assert [] + p1 == p1;
    ExecNothing(w);
    L.ExecAppend(w, p1, env1);
    L.ExecOne(w, p1 + env1, reserve);
    L.ExecAppend(w, p2, env2);
    L.ExecOne(w, p2 + env2, RestoreCommit);
    L.ExecOne(w, p2 + env2 + [RestoreCommit], commit);
    L.ExecAppend(w, p3, env3);
    L.ExecOne(w, p3 + env3, release);
  }
}
