/**
  Reconciliation: the loop that compares the Redis counter of every activity
  with its MySQL stock and may overwrite it, on the live store, with other
  clients' scripts running before each comparison and with calls that fail.
 */
module Reconcile {
  import opened Keys
  import opened Model
  import opened RedisStock
  import opened Protocol
  import opened ProtocolRuns
  import opened Clients

  /** One activity as the query returned it. */
  datatype Row = Row(id: nat, stock: int)

  datatype Item = Item(activityId: nat, mysqlStock: int, redisStock: int, redisExists: bool, repaired: bool)

  datatype Report = Report(checked: nat, missing: nat, mismatched: nat, repaired: nat, items: seq<Item>)

  /** Where the loop stopped. */
  datatype Stop = Finished | GetFailed | SetFailed

  /** What other clients do to the store. */
  datatype CacheOp = Take(a: nat, initial: int, user: UserId) | Give(a: nat, user: UserId) | Put(a: nat, stock: int)

  function CacheNext(rd: Redis, op: CacheOp): Redis {
    match op
    case Take(a, initial, user) => ReserveScript(rd, a, initial, user).0
    case Give(a, user) => ReleaseScript(rd, a, user)
    case Put(a, stock) => Overwritten(rd, a, stock)
  }

  function CacheRun(rd: Redis, ops: seq<CacheOp>): Redis
    decreases |ops|
  {
    if ops == [] then rd else CacheRun(CacheNext(rd, ops[0]), ops[1..])
  }

  function Lookup(rd: Redis, a: nat): Option<int> {
    if a in rd.stock then Some(rd.stock[a]) else None
  }

  predicate Differs(row: Row, seen: Option<int>) {
    seen != Some(row.stock)
  }

  // ---------- what a pass reports, from what it saw ----------

  function ItemFor(row: Row, seen: Option<int>, repair: bool): Item {
    Item(row.id, row.stock, if seen.Some? then seen.value else 0, seen.Some?, repair)
  }

  function Tally(rows: seq<Row>, seen: seq<Option<int>>, repair: bool): Report
    requires |seen| <= |rows|
  {
    if seen == [] then Report(0, 0, 0, 0, [])
    else
      var k := |seen| - 1;
      var r := Tally(rows, seen[..k], repair);
      if !Differs(rows[k], seen[k]) then r.(checked := r.checked + 1)
      else Report(r.checked + 1, r.missing + Bit(seen[k] == None), r.mismatched + Bit(seen[k] != None),
                  r.repaired + Bit(repair), r.items + [ItemFor(rows[k], seen[k], repair)])
  }

  /**
    Whatever the store answered and whoever changed it meanwhile: one item per
    difference, and no item exactly when every answer was the MySQL stock.
   */
  lemma {:induction false} CountsAgree(rows: seq<Row>, seen: seq<Option<int>>, repair: bool)
    requires |seen| <= |rows|
    ensures var r := Tally(rows, seen, repair);
            && r.checked == |seen|
            && |r.items| == r.missing + r.mismatched
            && r.repaired == (if repair then |r.items| else 0)
            && (r.items == [] <==> forall i :: 0 <= i < |seen| ==> seen[i] == Some(rows[i].stock))
            && (r.missing == 0 <==> forall i :: 0 <= i < |seen| ==> seen[i] != None)
  {
    if seen != [] {
      var k := |seen| - 1;
      CountsAgree(rows, seen[..k], repair);
      assert forall i :: 0 <= i < k ==> seen[..k][i] == seen[i];
    }
  }

  /** How many of the counters seen were missing. */
  function MissingIn(seen: seq<Option<int>>): nat {
    if seen == [] then 0 else MissingIn(seen[..|seen| - 1]) + if seen[|seen| - 1].None? then 1 else 0
  }

  /** Of the first `n` rows, those whose counter was missing or not their stock, by index, in order. */
  function DiffersAt(rows: seq<Row>, seen: seq<Option<int>>, n: nat): seq<nat>
    requires n <= |seen| <= |rows|
  {
    if n == 0 then []
    else DiffersAt(rows, seen, n - 1) + if seen[n - 1] != Some(rows[n - 1].stock) then [n - 1] else []
  }

  lemma {:induction false} DiffersAtAll(rows: seq<Row>, seen: seq<Option<int>>, n: nat, i: nat)
    requires n <= |seen| <= |rows|
    ensures i in DiffersAt(rows, seen, n) <==> i < n && seen[i] != Some(rows[i].stock)
  {
    if n > 0 { DiffersAtAll(rows, seen, n - 1, i); }
  }

  /** The item says what MySQL holds, what Redis held, and whether it was repaired. */
  predicate ItemSays(item: Item, row: Row, seen: Option<int>, repair: bool) {
    && item.activityId == row.id && item.mysqlStock == row.stock && item.repaired == repair
    && item.redisExists == seen.Some? && item.redisStock == if seen.Some? then seen.value else 0
  }

  ghost predicate ItemsSay(rows: seq<Row>, seen: seq<Option<int>>, repair: bool, at: seq<nat>, items: seq<Item>)
    requires |seen| <= |rows|
  {
    && |items| == |at|
    && forall j :: 0 <= j < |at| ==> at[j] < |seen| && ItemSays(items[j], rows[at[j]], seen[at[j]], repair)
  }

  lemma ItemsMore(rows: seq<Row>, seen: seq<Option<int>>, n: nat, repair: bool, at: seq<nat>, items: seq<Item>)
    requires n < |seen| <= |rows| && ItemsSay(rows, seen, repair, at, items)
    ensures ItemsSay(rows, seen, repair, at + [n], items + [ItemFor(rows[n], seen[n], repair)])
  {
  }

  lemma NothingSeen(rows: seq<Row>, seen: seq<Option<int>>, repair: bool)
    requires |seen| <= |rows|
    ensures Tally(rows, seen[..0], repair) == Report(0, 0, 0, 0, []) && MissingIn(seen[..0]) == 0
    ensures DiffersAt(rows, seen, 0) == [] && ItemsSay(rows, seen, repair, [], [])
  {
  }

  lemma OneSeen(rows: seq<Row>, seen: seq<Option<int>>, n: nat, repair: bool)
    requires n < |seen| <= |rows|
    ensures var r := Tally(rows, seen[..n], repair);
            Tally(rows, seen[..n + 1], repair) ==
              if seen[n] == Some(rows[n].stock) then r.(checked := r.checked + 1)
              else Report(r.checked + 1, r.missing + Bit(seen[n] == None), r.mismatched + Bit(seen[n] != None),
                          r.repaired + Bit(repair), r.items + [ItemFor(rows[n], seen[n], repair)])
    ensures MissingIn(seen[..n + 1]) == MissingIn(seen[..n]) + Bit(seen[n] == None)
  {
    assert seen[..n + 1][..n] == seen[..n];
  }

  /**
    One item for each differing row, in order, saying what was seen; the missing
    ones are counted apart from the others.
   */
  lemma {:induction false} ItemsAreDifferences(rows: seq<Row>, seen: seq<Option<int>>, repair: bool, n: nat)
    requires n <= |seen| <= |rows|
    ensures var r, at := Tally(rows, seen[..n], repair), DiffersAt(rows, seen, n);
            && ItemsSay(rows, seen, repair, at, r.items)
            && r.missing == MissingIn(seen[..n]) && r.missing + r.mismatched == |at|
    decreases n
  {
    hide Tally, MissingIn, ItemsSay, ItemFor, Differs;
    if n == 0 {
      NothingSeen(rows, seen, repair);
    } else {
      var before, items := DiffersAt(rows, seen, n - 1), Tally(rows, seen[..n - 1], repair).items;
      ItemsAreDifferences(rows, seen, repair, n - 1);
      OneSeen(rows, seen, n - 1, repair);
      ItemsMore(rows, seen, n - 1, repair, before, items);
      assert before + [] == before;
    }
  }

  // ---------- what a pass does to the store ----------

  function BeforeCheck(rd: Redis, rows: seq<Row>, repair: bool, others: nat -> seq<CacheOp>, i: nat): Redis
    requires i <= |rows|
    decreases i, 1
  {
    CacheRun(AfterChecks(rd, rows, repair, others, i), others(i))
  }

  function AfterChecks(rd: Redis, rows: seq<Row>, repair: bool, others: nat -> seq<CacheOp>, i: nat): Redis
    requires i <= |rows|
    decreases i, 0
  {
    if i == 0 then rd
    else
      var b := BeforeCheck(rd, rows, repair, others, i - 1);
      var row := rows[i - 1];
      if repair && Differs(row, Lookup(b, row.id)) then Overwritten(b, row.id, row.stock) else b
  }

  function Seen(rd: Redis, rows: seq<Row>, repair: bool, others: nat -> seq<CacheOp>, i: nat): (s: seq<Option<int>>)
    requires i <= |rows|
    ensures |s| == i
  {
    if i == 0 then []
    else Seen(rd, rows, repair, others, i - 1) + [Lookup(BeforeCheck(rd, rows, repair, others, i - 1), rows[i - 1].id)]
  }

  // ---------- the code ----------

  ghost predicate Queried(db: Db, filter: nat, rows: seq<Row>) {
    && (forall i :: 0 <= i < |rows| ==> rows[i].id in db.activities && rows[i].stock == db.activities[rows[i].id].stock)
    && (forall a :: a in db.activities && (filter == 0 || a == filter) ==>
          exists i :: 0 <= i < |rows| && rows[i].id == a)
    && (forall i :: 0 <= i < |rows| ==> filter == 0 || rows[i].id == filter)
    && (forall i, j :: 0 <= i < j < |rows| ==> rows[i].id > rows[j].id)
  }

  lemma {:induction false} LargestExists(ids: set<nat>)
    requires ids != {}
    ensures exists a :: a in ids && forall b :: b in ids ==> b <= a
    decreases |ids|
  {
    var a :| a in ids;
    if ids == {a} {
      assert forall b :: b in ids ==> b <= a;
    } else {
      var rest := ids - {a};
      LargestExists(rest);
      var m :| m in rest && forall b :: b in rest ==> b <= m;
      var top := if m < a then a else m;
      forall b | b in ids ensures b <= top { assert b == a || b in rest; }
      assert top in ids;
    }
  }

  /** The rows found so far are the wanted ones above all that are left. */
  ghost predicate Found(db: Db, filter: nat, rows: seq<Row>, left: set<nat>) {
    && left <= db.activities.Keys
    && (forall a :: a in left ==> filter == 0 || a == filter)
    && (forall i, b :: 0 <= i < |rows| && b in left ==> rows[i].id > b)
    && (forall i :: 0 <= i < |rows| ==> rows[i].id in db.activities && rows[i].stock == db.activities[rows[i].id].stock)
    && (forall i :: 0 <= i < |rows| ==> filter == 0 || rows[i].id == filter)
    && (forall i, j :: 0 <= i < j < |rows| ==> rows[i].id > rows[j].id)
    && (forall a :: a in db.activities && (filter == 0 || a == filter) && a !in left ==>
          exists i :: 0 <= i < |rows| && rows[i].id == a)
  }

  lemma NoRowsFound(db: Db, filter: nat)
    ensures Found(db, filter, [], set a | a in db.activities && (filter == 0 || a == filter))
  {
  }

  lemma FoundInside(db: Db, filter: nat, rows: seq<Row>, left: set<nat>)
    requires Found(db, filter, rows, left)
    ensures left <= db.activities.Keys && (left == {} ==> Queried(db, filter, rows))
  {
  }

  lemma NextRow(db: Db, filter: nat, rows: seq<Row>, left: set<nat>, row: Row)
    requires Found(db, filter, rows, left) && row.id in left && forall b :: b in left ==> b <= row.id
    requires row.id in db.activities && row.stock == db.activities[row.id].stock
    ensures Found(db, filter, rows + [row], left - {row.id})
  {
    var more := rows + [row];
    assert more[|rows|].id == row.id && forall i :: 0 <= i < |rows| ==> more[i] == rows[i];
  }

  /** The rows to check, newest first. */
  method FindRows(db: Db, filter: nat) returns (rows: seq<Row>)
    ensures Queried(db, filter, rows)
  {
    hide Found;
    rows := [];
    NoRowsFound(db, filter);
    var left := set a | a in db.activities && (filter == 0 || a == filter);
    while left != {}
      invariant Found(db, filter, rows, left)
      decreases |left|
    {
      LargestExists(left);
      FoundInside(db, filter, rows, left);
      var a :| a in left && forall b :: b in left ==> b <= a;
      NextRow(db, filter, rows, left, Row(a, db.activities[a].stock));
      rows := rows + [Row(a, db.activities[a].stock)];
      left := left - {a};
    }
    FoundInside(db, filter, rows, left);
  }

  method Others(store: RedisStockStore, ops: seq<CacheOp>)
    requires store.Valid()
    modifies store
    ensures store.Valid() && store.view == CacheRun(old(store.view), ops)
  {
    for i := 0 to |ops|
      invariant store.Valid() && CacheRun(store.view, ops[i..]) == CacheRun(old(store.view), ops)
    {
      assert ops[i..][1..] == ops[i + 1..];
      match ops[i]
      case Take(a, initial, user) =>
        var reply := store.Reserve(a, initial, user);
      case Give(a, user) => store.Release(a, user);
      case Put(a, stock) => store.SetStock(a, stock);
    }
  }

  predicate RowFails(rd: Redis, rows: seq<Row>, repair: bool, others: nat -> seq<CacheOp>,
      getFails: nat -> bool, setCall: nat -> Call, i: nat)
    requires i < |rows|
  {
    getFails(i)
    || (repair && Differs(rows[i], Lookup(BeforeCheck(rd, rows, repair, others, i), rows[i].id))
         && setCall(i) != Answered)
  }

  /**
    One pass. `getFails(i)` and `setCall(i)` are the fates of the calls for row
    `i`; the first failing call ends the pass with what was counted so far. `at`
    is the row it stopped at, or the number of rows.
   */
  method ReconcileStock(store: RedisStockStore, db: Db, filter: nat, repair: bool,
      others: nat -> seq<CacheOp>, getFails: nat -> bool, setCall: nat -> Call)
      returns (report: Report, stop: Stop, rows: seq<Row>, at: nat)
    requires store.Valid()
    modifies store
    ensures store.Valid() && Queried(db, filter, rows)
    ensures at <= |rows| && forall k :: 0 <= k < at ==>
      !RowFails(old(store.view), rows, repair, others, getFails, setCall, k)
    ensures at < |rows| ==> RowFails(old(store.view), rows, repair, others, getFails, setCall, at)
    ensures stop == if at == |rows| then Finished else if getFails(at) then GetFailed else SetFailed
    ensures at == |rows| ==>
      && report == Tally(rows, Seen(old(store.view), rows, repair, others, |rows|), repair)
      && store.view == AfterChecks(old(store.view), rows, repair, others, |rows|)
    ensures at < |rows| ==>
      var b := BeforeCheck(old(store.view), rows, repair, others, at);
      var seen := Lookup(b, rows[at].id);
      var r := Tally(rows, Seen(old(store.view), rows, repair, others, at), repair);
      && report == r.(checked := at + 1, missing := report.missing, mismatched := report.mismatched)
      && report.missing == r.missing + (if stop == SetFailed && seen == None then 1 else 0)
      && report.mismatched == r.mismatched + (if stop == SetFailed && seen != None then 1 else 0)
      && (stop == GetFailed ==> store.view == b)
      && (stop == SetFailed ==>
            && repair && seen != Some(rows[at].stock) && setCall(at) != Answered
            && store.view == if setCall(at) == ReplyLost then Overwritten(b, rows[at].id, rows[at].stock) else b)
    ensures report.missing + report.mismatched == |report.items| + Bit(stop == SetFailed)
    ensures report.repaired == if repair then |report.items| else 0
  {
    hide Represents, AfterChecks, BeforeCheck, Seen, Tally, Queried, CacheRun, RowFails;
    rows := FindRows(db, filter);
    report := Report(0, 0, 0, 0, []);
    ghost var rd := store.view;
    NoRowYet(rd, rows, repair, others);
    for i := 0 to |rows|
      invariant store.Valid() && store.view == AfterChecks(rd, rows, repair, others, i)
      invariant report == Tally(rows, Seen(rd, rows, repair, others, i), repair)
      invariant forall k :: 0 <= k < i ==> !RowFails(rd, rows, repair, others, getFails, setCall, k)
    {
      Counts(rows, Seen(rd, rows, repair, others, i), repair);
      OneRow(rd, rows, repair, others, i);
      RowFate(rd, rows, repair, others, getFails, setCall, i);
      Others(store, others(i));
      report := report.(checked := report.checked + 1);
      if getFails(i) { return report, GetFailed, rows, i; }
      var stock, found := store.GetStock(rows[i].id);
      var item := Item(rows[i].id, rows[i].stock, stock, found, false);
      if !found {
        report := report.(missing := report.missing + 1);
      } else if stock != rows[i].stock {
        report := report.(mismatched := report.mismatched + 1);
      }
      if !found || stock != rows[i].stock {
        if repair {
          if setCall(i) != NotSent { store.SetStock(rows[i].id, rows[i].stock); }
          if setCall(i) != Answered { return report, SetFailed, rows, i; }
          item := item.(repaired := true);
          report := report.(repaired := report.repaired + 1);
        }
        report := report.(items := report.items + [item]);
      }
    }
    Counts(rows, Seen(rd, rows, repair, others, |rows|), repair);
    return report, Finished, rows, |rows|;
  }

  lemma RowFate(rd: Redis, rows: seq<Row>, repair: bool, others: nat -> seq<CacheOp>,
      getFails: nat -> bool, setCall: nat -> Call, i: nat)
    requires i < |rows|
    ensures var seen := Lookup(BeforeCheck(rd, rows, repair, others, i), rows[i].id);
            RowFails(rd, rows, repair, others, getFails, setCall, i)
            == (getFails(i) || (repair && Differs(rows[i], seen) && setCall(i) != Answered))
  {
  }

  lemma Counts(rows: seq<Row>, seen: seq<Option<int>>, repair: bool)
    requires |seen| <= |rows|
    ensures var r := Tally(rows, seen, repair);
            && r.checked == |seen| && |r.items| == r.missing + r.mismatched
            && r.repaired == if repair then |r.items| else 0
  {
    CountsAgree(rows, seen, repair);
  }

  lemma NoRowYet(rd: Redis, rows: seq<Row>, repair: bool, others: nat -> seq<CacheOp>)
    ensures AfterChecks(rd, rows, repair, others, 0) == rd
    ensures Tally(rows, Seen(rd, rows, repair, others, 0), repair) == Report(0, 0, 0, 0, [])
  {
  }

  /** What row `i` adds to the report and does to the store. */
  lemma OneRow(rd: Redis, rows: seq<Row>, repair: bool, others: nat -> seq<CacheOp>, i: nat)
    requires i < |rows|
    ensures var b := BeforeCheck(rd, rows, repair, others, i);
            var row, seen := rows[i], Lookup(b, rows[i].id);
            var r := Tally(rows, Seen(rd, rows, repair, others, i), repair);
            && b == CacheRun(AfterChecks(rd, rows, repair, others, i), others(i))
            && AfterChecks(rd, rows, repair, others, i + 1)
               == (if repair && Differs(row, seen) then Overwritten(b, row.id, row.stock) else b)
            && Tally(rows, Seen(rd, rows, repair, others, i + 1), repair)
               == if !Differs(row, seen) then r.(checked := r.checked + 1)
                  else Report(r.checked + 1, r.missing + Bit(seen == None), r.mismatched + Bit(seen != None),
                              r.repaired + Bit(repair), r.items + [ItemFor(row, seen, repair)])
  {
    hide CacheRun;
    var old_, new_ := Seen(rd, rows, repair, others, i), Seen(rd, rows, repair, others, i + 1);
    assert new_[..i] == old_;
    assert new_ != [] && |new_| - 1 == i;
  }

  // ---------- a quiet pass ----------

  function Quiet(i: nat): seq<CacheOp> {
    []
  }

  predicate Apart(rows: seq<Row>) {
    forall i, j :: 0 <= i < j < |rows| ==> rows[i].id != rows[j].id
  }

  /** Without interference a repair pass sets each checked counter to the MySQL stock and touches nothing else. */
  lemma {:induction false} RepairEqualizes(rd: Redis, rows: seq<Row>, n: nat)
    requires Apart(rows) && n <= |rows|
    ensures var rd' := AfterChecks(rd, rows, true, Quiet, n);
            && (forall i :: 0 <= i < n ==> Lookup(rd', rows[i].id) == Some(rows[i].stock))
            && (forall a :: (forall i :: 0 <= i < n ==> rows[i].id != a) ==> Lookup(rd', a) == Lookup(rd, a))
            && rd'.buyers == rd.buyers
    decreases n
  {
    if n > 0 {
      RepairEqualizes(rd, rows, n - 1);
    }
  }

  /** A quiet read-only pass changes nothing and sees each counter as it is. */
  lemma {:induction false} ReadOnly(rd: Redis, rows: seq<Row>, n: nat)
    requires n <= |rows|
    ensures AfterChecks(rd, rows, false, Quiet, n) == rd
    ensures forall i :: 0 <= i < n ==> Seen(rd, rows, false, Quiet, n)[i] == Lookup(rd, rows[i].id)
    decreases n
  {
    if n > 0 {
      ReadOnly(rd, rows, n - 1);
    }
  }

  /** When every counter is right, a pass of either kind sees that and changes nothing. */
  lemma {:induction false} NothingToRepair(rd: Redis, rows: seq<Row>, repair: bool, n: nat)
    requires n <= |rows|
    requires forall i :: 0 <= i < |rows| ==> Lookup(rd, rows[i].id) == Some(rows[i].stock)
    ensures AfterChecks(rd, rows, repair, Quiet, n) == rd
    ensures forall i :: 0 <= i < n ==> Seen(rd, rows, repair, Quiet, n)[i] == Some(rows[i].stock)
    decreases n
  {
    if n > 0 {
      NothingToRepair(rd, rows, repair, n - 1);
    }
  }

  /** After a quiet repair pass Redis equals MySQL for all checked rows, and any second pass reports nothing. */
  lemma SecondPassIsClean(rd: Redis, rows: seq<Row>, repair: bool)
    requires Apart(rows)
    ensures var rd' := AfterChecks(rd, rows, true, Quiet, |rows|);
            var second := Tally(rows, Seen(rd', rows, repair, Quiet, |rows|), repair);
            && (forall i :: 0 <= i < |rows| ==> Lookup(rd', rows[i].id) == Some(rows[i].stock))
            && second == Report(|rows|, 0, 0, 0, [])
            && AfterChecks(rd', rows, repair, Quiet, |rows|) == rd'
  {
    var rd' := AfterChecks(rd, rows, true, Quiet, |rows|);
    RepairEqualizes(rd, rows, |rows|);
    NothingToRepair(rd', rows, repair, |rows|);
    CountsAgree(rows, Seen(rd', rows, repair, Quiet, |rows|), repair);
  }

  /** The decision the load generator takes from a read-only report. */
  predicate RedisMatches(r: Report) {
    r.checked == 1 && r.missing == 0 && r.mismatched == 0 && r.items == []
  }

  function IdAt(rows: seq<Row>, i: nat): nat {
    if i < |rows| then rows[i].id else 0
  }

  /** It says yes exactly when the one activity exists and its counter equals its stock. */
  lemma MatchMeansEqual(rd: Redis, db: Db, id: nat, rows: seq<Row>)
    requires Queried(db, id, rows) && id > 0
    ensures RedisMatches(Tally(rows, Seen(rd, rows, false, Quiet, |rows|), false))
       <==> id in db.activities && Lookup(rd, id) == Some(db.activities[id].stock)
  {
    ReadOnly(rd, rows, |rows|);
    CountsAgree(rows, Seen(rd, rows, false, Quiet, |rows|), false);
    assert IdAt(rows, 0) >= IdAt(rows, 1);
    assert |rows| <= 1;
    if id in db.activities {
      var i :| 0 <= i < |rows| && rows[i].id == id;
    }
  }

  /**
    From an idle state the protocol can reach without overwrites, a read-only
    pass sees a mismatch exactly for the activities with leaked marks.
   */
  lemma IdlePass(w: World, filter: nat, rows: seq<Row>, i: nat)
    requires Idle(w) && Queried(w.db, filter, rows) && i < |rows| && Balanced(w, rows[i].id)
    ensures var seen := Seen(w.redis, rows, false, Quiet, |rows|)[i];
            seen.Some? && Differs(rows[i], seen) <==> rows[i].id in w.redis.stock && Leaked(w, rows[i].id) != {}
  {
    hide Balanced, Leaked, Idle;
    ReadOnly(w.redis, rows, |rows|);
    if rows[i].id in w.redis.stock { IdleDrift(w, rows[i].id); }
  }

  /** So with no leak it counts no mismatch: every item is a counter nobody has created yet. */
  lemma IdleNoMismatch(w: World, filter: nat, rows: seq<Row>)
    requires Idle(w) && Queried(w.db, filter, rows) && forall row :: row in rows ==> Balanced(w, row.id)
    requires forall row :: row in rows ==> Leaked(w, row.id) == {}
    ensures Tally(rows, Seen(w.redis, rows, false, Quiet, |rows|), false).mismatched == 0
  {
    hide Balanced, Leaked, Idle, Seen, Queried, Tally;
    var seen := Seen(w.redis, rows, false, Quiet, |rows|);
    forall i | 0 <= i < |rows| ensures seen[i] == None || !Differs(rows[i], seen[i]) {
      IdlePass(w, filter, rows, i);
    }
    NoMismatch(rows, seen);
  }

  lemma {:induction false} NoMismatch(rows: seq<Row>, seen: seq<Option<int>>)
    requires |seen| <= |rows|
    requires forall i :: 0 <= i < |seen| ==> seen[i] == None || !Differs(rows[i], seen[i])
    ensures Tally(rows, seen, false).mismatched == 0
  {
    if seen != [] { NoMismatch(rows, seen[..|seen| - 1]); }
  }
}
