/**
  The create transaction taken apart: COUNT, conditional UPDATE, unique-key
  INSERT and commit are separate steps, any number of transactions interleave,
  the COUNT may see anything, and a rollback adds the unit back.
 */
module Statements {
  import opened Keys
  import opened Model
  import opened Ledger
  import opened ActivityStock

  datatype Stage = Counted | Updated | Inserted(no: OrderNo)

  datatype OpenTx = OpenTx(user: UserId, activityId: nat, stage: Stage)

  /**
    An order row, cart orders with activity 0; `writer` names the transaction that
    has inserted but not committed it.
   */
  datatype Row = Row(user: UserId, activityId: nat, key: Option<string>, live: bool, writer: Option<nat>)

  datatype Tables = Tables(stock: map<nat, int>, rows: map<OrderNo, Row>, open: map<nat, OpenTx>)

  datatype Statement =
    | Count(t: nat, user: UserId, a: nat, found: bool)
    | Update(t: nat, inWindow: bool)
    | Insert(t: nat, no: OrderNo)
    | CommitTx(t: nat)
    | RollbackTx(t: nat)
    | GiveBack(no: OrderNo)

  predicate Collides(rows: map<OrderNo, Row>, no: OrderNo, key: Option<string>) {
    no in rows || (key.Some? && exists n :: n in rows && rows[n].key == key)
  }

  function AddBack(s: Tables, a: nat): Tables {
    if a in s.stock then s.(stock := s.stock[a := s.stock[a] + 1]) else s
  }

  function Close(s: Tables, t: nat): Tables {
    s.(open := s.open - {t})
  }

  /** Undo what the transaction has done so far. */
  function Undo(s: Tables, t: nat): Tables
    requires t in s.open
  {
    match s.open[t].stage
    case Counted => Close(s, t)
    case Updated => AddBack(Close(s, t), s.open[t].activityId)
    case Inserted(no) => AddBack(Close(s, t).(rows := s.rows - {no}), s.open[t].activityId)
  }

  function Execute(s: Tables, st: Statement): Tables {
    match st
    case Count(t, user, a, found) =>
      // A positive count ends the transaction at once.
      if t !in s.open && a in s.stock && a > 0 && !found then s.(open := s.open[t := OpenTx(user, a, Counted)]) else s
    case Update(t, inWindow) =>
      if t in s.open && s.open[t].stage == Counted then
        var a := s.open[t].activityId;
        if a in s.stock && s.stock[a] > 0 && inWindow then
          s.(stock := s.stock[a := s.stock[a] - 1], open := s.open[t := s.open[t].(stage := Updated)])
        else Close(s, t)
      else s
    case Insert(t, no) =>
      if t in s.open && s.open[t].stage == Updated then
        var q := s.open[t];
        var key := NewActivityOrderKey(q.user, q.activityId);
        if Collides(s.rows, no, key) then Undo(s, t)
        else
          s.(rows := s.rows[no := Row(q.user, q.activityId, key, true, Some(t))],
             open := s.open[t := q.(stage := Inserted(no))])
      else s
    case CommitTx(t) =>
      if t in s.open && s.open[t].stage.Inserted? && s.open[t].stage.no in s.rows then
        var no := s.open[t].stage.no;
        Close(s, t).(rows := s.rows[no := s.rows[no].(writer := None)])
      else s
    case RollbackTx(t) => if t in s.open then Undo(s, t) else s
    case GiveBack(no) =>
      if no in s.rows && s.rows[no].live && s.rows[no].writer == None then
        AddBack(s.(rows := s.rows[no := s.rows[no].(live := false)]), s.rows[no].activityId)
      else s
  }

  function ExecuteAll(s: Tables, script: seq<Statement>): Tables
    decreases |script|
  {
    if script == [] then s else ExecuteAll(Execute(s, script[0]), script[1..])
  }

  // ---------- invariant ----------

  /** Committed live orders of the activity. */
  ghost function Sold(rows: map<OrderNo, Row>, a: nat): set<OrderNo> {
    set no | no in rows && rows[no].activityId == a && rows[no].live && rows[no].writer == None
  }

  /** Transactions that have taken a unit and not yet ended. */
  ghost function Taking(open: map<nat, OpenTx>, a: nat): set<nat> {
    set t | t in open && open[t].activityId == a && open[t].stage != Counted
  }

  ghost function Issued(s: Tables, a: nat): int
    requires a in s.stock
  {
    s.stock[a] + |Sold(s.rows, a)| + |Taking(s.open, a)|
  }

  predicate SameKey(x: Row, y: Row) {
    x.key.Some? && x.key == y.key
  }

  /** Rows and transactions refer to activities, and keys are unique. */
  ghost predicate RowsFit(s: Tables) {
    && (forall a :: a in s.stock ==> a > 0 && s.stock[a] >= 0)
    && (forall t :: t in s.open ==> s.open[t].activityId in s.stock)
    && (forall n :: n in s.rows ==>
          && (s.rows[n].activityId > 0 ==> s.rows[n].activityId in s.stock)
          && s.rows[n].key == NewActivityOrderKey(s.rows[n].user, s.rows[n].activityId))
    && (forall n, m :: n in s.rows && m in s.rows && SameKey(s.rows[n], s.rows[m]) ==> n == m)
  }

  /** Pending rows and the transactions that wrote them point at each other. */
  ghost predicate WritersFit(s: Tables) {
    && (forall n :: n in s.rows && s.rows[n].writer.Some? ==>
          s.rows[n].live && s.rows[n].writer.value in s.open && s.open[s.rows[n].writer.value].stage == Inserted(n))
    && (forall t :: t in s.open && s.open[t].stage.Inserted? ==>
          s.open[t].stage.no in s.rows && s.rows[s.open[t].stage.no].writer == Some(t)
          && s.rows[s.open[t].stage.no].activityId == s.open[t].activityId)
  }

  ghost predicate TablesOk(s: Tables) {
    RowsFit(s) && WritersFit(s)
  }

  ghost predicate TablesKept(s: Tables, s': Tables) {
    TablesOk(s') && s'.stock.Keys == s.stock.Keys && forall a :: a in s.stock ==> Issued(s', a) == Issued(s, a)
  }

  predicate IsSold(rows: map<OrderNo, Row>, no: OrderNo, a: nat) {
    no in rows && rows[no].activityId == a && rows[no].live && rows[no].writer == None
  }

  predicate IsTaking(open: map<nat, OpenTx>, t: nat, a: nat) {
    t in open && open[t].activityId == a && open[t].stage != Counted
  }

  /** The two tables agree everywhere but at `k`. */
  ghost predicate AgreeBut<K(!new), V>(m: map<K, V>, m': map<K, V>, k: K) {
    forall x :: x != k ==> (x in m <==> x in m') && (x in m ==> m[x] == m'[x])
  }

  lemma CountBut<T>(was: set<T>, now: set<T>, x: T)
    requires was - {x} == now - {x}
    ensures |now| == |was| - Bit(x in was) + Bit(x in now)
  {
    assert x in was ==> was == (was - {x}) + {x};
    assert x in now ==> now == (now - {x}) + {x};
    assert x !in was ==> was == was - {x};
    assert x !in now ==> now == now - {x};
  }

  lemma SoldAfter(rows: map<OrderNo, Row>, rows': map<OrderNo, Row>, no: OrderNo, a: nat)
    requires AgreeBut(rows, rows', no)
    ensures |Sold(rows', a)| == |Sold(rows, a)| - Bit(IsSold(rows, no, a)) + Bit(IsSold(rows', no, a))
  {
    CountBut(Sold(rows, a), Sold(rows', a), no);
  }

  lemma TakingAfter(open: map<nat, OpenTx>, open': map<nat, OpenTx>, t: nat, a: nat)
    requires AgreeBut(open, open', t)
    ensures |Taking(open', a)| == |Taking(open, a)| - Bit(IsTaking(open, t, a)) + Bit(IsTaking(open', t, a))
  {
    CountBut(Taking(open, a), Taking(open', a), t);
  }

  /** One row and one transaction changed, and the stock moved the other way. */
  lemma Balance(s: Tables, s': Tables, no: OrderNo, t: nat, a: nat)
    requires a in s.stock && a in s'.stock
    requires AgreeBut(s.rows, s'.rows, no) && AgreeBut(s.open, s'.open, t)
    requires s'.stock[a] - s.stock[a] ==
      (Bit(IsSold(s.rows, no, a)) as int) - Bit(IsSold(s'.rows, no, a)) + Bit(IsTaking(s.open, t, a))
        - Bit(IsTaking(s'.open, t, a))
    ensures Issued(s', a) == Issued(s, a)
  {
    SoldAfter(s.rows, s'.rows, no, a);
    TakingAfter(s.open, s'.open, t, a);
  }

  lemma CountKept(s: Tables, t: nat, user: UserId, a: nat, found: bool)
    requires TablesOk(s)
    ensures TablesKept(s, Execute(s, Count(t, user, a, found)))
  {
    hide NewActivityOrderKey, Issued;
    var s' := Execute(s, Count(t, user, a, found));
    forall b | b in s.stock ensures Issued(s', b) == Issued(s, b) {
      Balance(s, s', "", t, b);
    }
  }

  lemma UpdateOk(s: Tables, t: nat, inWindow: bool)
    requires TablesOk(s)
    ensures TablesOk(Execute(s, Update(t, inWindow)))
  {
    hide NewActivityOrderKey;
  }

  lemma UpdateKept(s: Tables, t: nat, inWindow: bool)
    requires TablesOk(s)
    ensures TablesKept(s, Execute(s, Update(t, inWindow)))
  {
    hide NewActivityOrderKey, Issued, TablesOk;
    UpdateOk(s, t, inWindow);
    var s' := Execute(s, Update(t, inWindow));
    forall a | a in s.stock ensures Issued(s', a) == Issued(s, a) {
      Balance(s, s', "", t, a);
    }
  }

  lemma UndoRows(s: Tables, t: nat)
    requires TablesOk(s) && t in s.open
    ensures RowsFit(Undo(s, t))
  {
    hide NewActivityOrderKey, WritersFit;
  }

  lemma UndoWriters(s: Tables, t: nat)
    requires TablesOk(s) && t in s.open
    ensures WritersFit(Undo(s, t))
  {
    hide NewActivityOrderKey, RowsFit;
  }

  lemma UndoOk(s: Tables, t: nat)
    requires TablesOk(s) && t in s.open
    ensures TablesOk(Undo(s, t))
  {
    UndoRows(s, t);
    UndoWriters(s, t);
  }

  lemma UndoKept(s: Tables, t: nat)
    requires TablesOk(s) && t in s.open
    ensures TablesKept(s, Undo(s, t))
  {
    hide NewActivityOrderKey, Issued;
    UndoOk(s, t);
    var s' := Undo(s, t);
    var no := if s.open[t].stage.Inserted? then s.open[t].stage.no else "";
    forall a | a in s.stock ensures Issued(s', a) == Issued(s, a) {
      Balance(s, s', no, t, a);
    }
  }

  lemma InsertKept(s: Tables, t: nat, no: OrderNo)
    requires TablesOk(s)
    ensures TablesKept(s, Execute(s, Insert(t, no)))
  {
    hide NewActivityOrderKey, Issued, Undo;
    var s' := Execute(s, Insert(t, no));
    if t in s.open && s.open[t].stage == Updated {
      var key := NewActivityOrderKey(s.open[t].user, s.open[t].activityId);
      if Collides(s.rows, no, key) {
        UndoKept(s, t);
      } else {
        KeyGiven(s.open[t].user, s.open[t].activityId);
        forall a | a in s.stock ensures Issued(s', a) == Issued(s, a) {
          Balance(s, s', no, t, a);
        }
      }
    }
  }

  lemma KeyGiven(user: UserId, a: nat)
    requires a > 0
    ensures NewActivityOrderKey(user, a).Some?
  {
  }

  lemma CommitOk(s: Tables, t: nat)
    requires TablesOk(s)
    ensures TablesOk(Execute(s, CommitTx(t)))
  {
    hide NewActivityOrderKey;
  }

  lemma CommitKept(s: Tables, t: nat)
    requires TablesOk(s)
    ensures TablesKept(s, Execute(s, CommitTx(t)))
  {
    hide NewActivityOrderKey, Issued;
    CommitOk(s, t);
    var s' := Execute(s, CommitTx(t));
    var no := if t in s.open && s.open[t].stage.Inserted? then s.open[t].stage.no else "";
    forall a | a in s.stock ensures Issued(s', a) == Issued(s, a) {
      Balance(s, s', no, t, a);
    }
  }

  lemma GiveBackOk(s: Tables, no: OrderNo)
    requires TablesOk(s)
    ensures TablesOk(Execute(s, GiveBack(no)))
  {
    hide NewActivityOrderKey, RowsFit, WritersFit;
    GiveBackRows(s, no);
    GiveBackWriters(s, no);
  }

  lemma GiveBackRows(s: Tables, no: OrderNo)
    requires RowsFit(s)
    ensures RowsFit(Execute(s, GiveBack(no)))
  {
    hide NewActivityOrderKey;
  }

  lemma GiveBackWriters(s: Tables, no: OrderNo)
    requires WritersFit(s)
    ensures WritersFit(Execute(s, GiveBack(no)))
  {
  }

  lemma GiveBackKept(s: Tables, no: OrderNo)
    requires TablesOk(s)
    ensures TablesKept(s, Execute(s, GiveBack(no)))
  {
    hide NewActivityOrderKey, Issued, TablesOk;
    GiveBackOk(s, no);
    var s' := Execute(s, GiveBack(no));
    forall a | a in s.stock ensures Issued(s', a) == Issued(s, a) {
      Balance(s, s', no, 0, a);
    }
  }

  lemma StatementKept(s: Tables, st: Statement)
    requires TablesOk(s)
    ensures TablesKept(s, Execute(s, st))
  {
    hide TablesOk, TablesKept, Undo, Collides;
    match st
    case Count(t, user, a, found) => CountKept(s, t, user, a, found);
    case Update(t, inWindow) => UpdateKept(s, t, inWindow);
    case Insert(t, no) => InsertKept(s, t, no);
    case CommitTx(t) => CommitKept(s, t);
    case GiveBack(no) => GiveBackKept(s, no);
    case RollbackTx(t) => if t in s.open { UndoKept(s, t); } else { StillKept(s); }
  }

  lemma StillKept(s: Tables)
    requires TablesOk(s)
    ensures TablesKept(s, s)
  {
  }

  /**
    In every interleaving of statements, whatever each COUNT saw: stock stays
    non-negative, stock plus committed plus pending stays what was issued, and
    no two orders share a user and an activity.
   */
  lemma {:induction false} ScriptSafe(s: Tables, script: seq<Statement>)
    requires TablesOk(s)
    ensures TablesKept(s, ExecuteAll(s, script))
    decreases |script|
  {
    hide TablesOk, Execute, Issued;
    if script == [] {
    } else {
      StatementKept(s, script[0]);
      ScriptSafe(Execute(s, script[0]), script[1..]);
    }
  }

  /** The unique key is one order per pair: two rows of one pair are one row, and only that very pair is refused. */
  lemma OneOrderPerPair(s: Tables, n: OrderNo, m: OrderNo)
    requires TablesOk(s) && n in s.rows && m in s.rows && s.rows[n].activityId > 0
    ensures n == m <==> s.rows[n].user == s.rows[m].user && s.rows[n].activityId == s.rows[m].activityId
  {
    hide NewActivityOrderKey;
    KeyGiven(s.rows[n].user, s.rows[n].activityId);
    if s.rows[n].user == s.rows[m].user && s.rows[n].activityId == s.rows[m].activityId {
      assert SameKey(s.rows[n], s.rows[m]);
    }
  }

  lemma RefusedExactly(s: Tables, no: OrderNo, user: UserId, a: nat)
    requires TablesOk(s) && a > 0 && no !in s.rows
    ensures Collides(s.rows, no, NewActivityOrderKey(user, a)) <==>
      exists n :: n in s.rows && s.rows[n].user == user && s.rows[n].activityId == a
  {
    KeyGiven(user, a);
    forall n | n in s.rows && s.rows[n].key == NewActivityOrderKey(user, a)
      ensures s.rows[n].user == user && s.rows[n].activityId == a
    {
      ActivityOrderKeyInjective(user, a, s.rows[n].user, s.rows[n].activityId);
    }
  }

  // ---------- run one after the other, the statements are the transaction ----------

  ghost function View(db: Db): Tables {
    Tables(map a | a in db.activities :: db.activities[a].stock,
           map no | no in db.orders ::
             Row(db.orders[no].user, db.orders[no].activityId, db.orders[no].key, Active(db.orders[no].status), None),
           map[])
  }

  lemma ViewOk(db: Db)
    requires StockOk(db)
    ensures TablesOk(View(db))
  {
    hide NewActivityOrderKey;
    var s := View(db);
    forall n, m | n in s.rows && m in s.rows && SameKey(s.rows[n], s.rows[m]) ensures n == m {
      ActivityOrderKeyInjective(s.rows[n].user, s.rows[n].activityId, s.rows[m].user, s.rows[m].activityId);
      KeyNeedsActivity(s.rows[n].user, s.rows[n].activityId);
      assert SamePair(db.orders[n], db.orders[m]);
    }
  }

  lemma KeyNeedsActivity(user: UserId, a: nat)
    ensures NewActivityOrderKey(user, a).Some? ==> a > 0
  {
  }

  /** The transaction's statements with nothing in between. */
  function Serial(s: Tables, t: nat, user: UserId, a: nat, found: bool, inWindow: bool, no: OrderNo): Tables {
    Execute(Execute(Execute(Execute(s, Count(t, user, a, found)), Update(t, inWindow)), Insert(t, no)), CommitTx(t))
  }

  function SerialOutcome(s: Tables, user: UserId, a: nat, found: bool, inWindow: bool, no: OrderNo): Tables
    requires a in s.stock
  {
    var key := NewActivityOrderKey(user, a);
    if found || s.stock[a] <= 0 || !inWindow || Collides(s.rows, no, key) then s
    else s.(stock := s.stock[a := s.stock[a] - 1], rows := s.rows[no := Row(user, a, key, true, None)])
  }

  lemma SerialTables(s: Tables, t: nat, user: UserId, a: nat, found: bool, inWindow: bool, no: OrderNo)
    requires s.open == map[] && a in s.stock && a > 0
    ensures Serial(s, t, user, a, found, inWindow, no) == SerialOutcome(s, user, a, found, inWindow, no)
  {
    hide NewActivityOrderKey, Collides;
    var s1 := Execute(s, Count(t, user, a, found));
    var s2 := Execute(s1, Update(t, inWindow));
    if !found && s.stock[a] > 0 && inWindow {
      assert s2 == s.(stock := s.stock[a := s.stock[a] - 1], open := map[t := OpenTx(user, a, Updated)]);
      var s3 := Execute(s2, Insert(t, no));
      if Collides(s.rows, no, NewActivityOrderKey(user, a)) {
        assert s3.stock == s.stock;
      }
    }
  }

  /** The four statements with true answers and nothing in between are exactly the atomic create transaction. */
  lemma SerialIsAtomic(db: Db, user: UserId, a: nat, row: Activity, no: OrderNo, t: nat)
    requires StockOk(db) && a in db.activities
    ensures Serial(View(db), t, user, a, HasOrder(db, user, a), Orderable(db.activities[a], db.now), no)
         == View(After(db, CreateReserved(db, user, a, row, no)))
  {
    hide HasOrder, NewActivityOrderKey, Orderable, StockOk, Serial, Collides, KeyTaken, View;
    ViewShape(db, a);
    ActivityIdsPositive(db, a);
    SerialTables(View(db), t, user, a, HasOrder(db, user, a), Orderable(db.activities[a], db.now), no);
    SameCollisions(db, no, NewActivityOrderKey(user, a));
    if CreateReserved(db, user, a, row, no).Commit? {
      ViewOfCreated(db, user, a, row, no);
    }
  }

  lemma ViewOfCreated(db: Db, user: UserId, a: nat, row: Activity, no: OrderNo)
    requires CreateReserved(db, user, a, row, no).Commit?
    ensures a in db.activities
    ensures View(CreateReserved(db, user, a, row, no).db)
         == View(db).(stock := View(db).stock[a := db.activities[a].stock - 1],
                      rows := View(db).rows[no := Row(user, a, NewActivityOrderKey(user, a), true, None)])
  {
    hide HasOrder, NewActivityOrderKey, KeyTaken;
    var after := CreateReserved(db, user, a, row, no).db;
    var o := NewActivityOrder(db.now, user, a, row);
    assert after.orders == db.orders[no := o];
    assert View(after).rows == View(db).rows[no := Row(user, a, o.key, true, None)];
    assert View(after).stock == View(db).stock[a := db.activities[a].stock - 1];
  }

  lemma ViewShape(db: Db, a: nat)
    requires a in db.activities
    ensures View(db).open == map[] && a in View(db).stock && View(db).stock[a] == db.activities[a].stock
  {
  }

  lemma ActivityIdsPositive(db: Db, a: nat)
    requires StockOk(db) && a in db.activities
    ensures a > 0
  {
  }

  lemma SameCollisions(db: Db, no: OrderNo, key: Option<string>)
    ensures Collides(View(db).rows, no, key) <==> no in db.orders || KeyTaken(db.orders, key)
  {
    if KeyTaken(db.orders, key) {
      var n :| n in db.orders && db.orders[n].key == key;
      assert n in View(db).rows && View(db).rows[n].key == key;
    }
  }
}
