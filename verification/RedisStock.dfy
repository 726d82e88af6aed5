/** The Redis stock store: the two Lua scripts on values, and the store itself on a keyspace of strings. */
module RedisStock {
  import opened Keys
  import opened Model

  /** Stock counters and buyer sets by activity. */
  datatype Redis = Redis(stock: map<nat, int>, buyers: map<nat, set<UserId>>)

  function Buyers(rd: Redis, a: nat): set<UserId> {
    if a in rd.buyers then rd.buyers[a] else {}
  }

  function WithBuyers(rd: Redis, a: nat, users: set<UserId>): Redis {
    rd.(buyers := rd.buyers[a := users])
  }

  /** The reply pair of the reserve script. */
  datatype Reply = Reply(code: int, left: int)

  const TAKEN := 0
  const ALREADY := -1
  const EMPTY := -2

  /** A missing counter starts from the stock the caller read earlier. */
  function Initialised(rd: Redis, a: nat, initial: int): Redis {
    if a in rd.stock then rd else rd.(stock := rd.stock[a := initial])
  }

  function ReserveScript(rd: Redis, a: nat, initial: int, user: UserId): (Redis, Reply) {
    var rd1 := Initialised(rd, a, initial);
    if user in Buyers(rd1, a) then (rd1, Reply(ALREADY, rd1.stock[a]))
    else if rd1.stock[a] <= 0 then (rd1, Reply(EMPTY, rd1.stock[a]))
    else
      var left := rd1.stock[a] - 1;
      (WithBuyers(rd1.(stock := rd1.stock[a := left]), a, Buyers(rd1, a) + {user}), Reply(TAKEN, left))
  }

  /** INCR creates a missing counter from zero. */
  function Incremented(rd: Redis, a: nat): int {
    (if a in rd.stock then rd.stock[a] else 0) + 1
  }

  function ReleaseScript(rd: Redis, a: nat, user: UserId): Redis {
    if user in Buyers(rd, a) then
      WithBuyers(rd, a, Buyers(rd, a) - {user}).(stock := rd.stock[a := Incremented(rd, a)])
    else rd
  }

  function Overwritten(rd: Redis, a: nat, stock: int): Redis {
    rd.(stock := rd.stock[a := stock])
  }

  /**
    The reserve script's reply: -1 for a marked user, -2 when nothing is left,
    otherwise 0 with the counter after it took one unit; and then, and only then,
    the user is marked. A refused reserve changes nothing but a missing counter.
   */
  lemma ReserveReplies(rd: Redis, a: nat, initial: int, user: UserId)
    ensures var (rd', reply) := ReserveScript(rd, a, initial, user);
            var counter := if a in rd.stock then rd.stock[a] else initial;
            && (reply.code == -1 <==> user in Buyers(rd, a))
            && (reply.code == -2 <==> user !in Buyers(rd, a) && counter <= 0)
            && (reply.code == 0 <==> user !in Buyers(rd, a) && counter > 0)
            && rd'.stock == rd.stock[a := counter - Bit(reply.code == 0)]
            && Buyers(rd', a) == Buyers(rd, a) + (if reply.code == 0 then {user} else {})
            && (forall b :: b != a ==> Buyers(rd', b) == Buyers(rd, b))
            && reply.left == rd'.stock[a]
  {
  }

  /** The release script gives one unit back for a marked user, and does nothing for any other. */
  lemma ReleaseGives(rd: Redis, a: nat, user: UserId)
    ensures var rd' := ReleaseScript(rd, a, user);
            if user !in Buyers(rd, a) then rd' == rd
            else
              && rd'.stock == rd.stock[a := (if a in rd.stock then rd.stock[a] else 0) + 1]
              && Buyers(rd', a) == Buyers(rd, a) - {user} && forall b :: b != a ==> Buyers(rd', b) == Buyers(rd, b)
  {
  }

  /** The scripts trade one unit of stock for one buyer mark, so the sum never moves. */
  function Sum(rd: Redis, a: nat): int
    requires a in rd.stock
  {
    rd.stock[a] + |Buyers(rd, a)|
  }

  lemma ScriptsKeepSum(rd: Redis, a: nat, initial: int, user: UserId, b: nat)
    ensures b in rd.stock ==>
      var rd' := ReserveScript(rd, a, initial, user).0;
      b in rd'.stock && Sum(rd', b) == Sum(rd, b)
    ensures b in rd.stock ==>
      var rd' := ReleaseScript(rd, a, user);
      b in rd'.stock && Sum(rd', b) == Sum(rd, b)
  {
    if user in Buyers(rd, a) {
      assert Buyers(rd, a) == (Buyers(rd, a) - {user}) + {user};
    }
  }

  /** Release undoes a successful Reserve, except that the counter it may have created stays. */
  lemma ReleaseUndoesReserve(rd: Redis, a: nat, initial: int, user: UserId)
    requires ReserveScript(rd, a, initial, user).1.code == TAKEN
    ensures var rd' := ReleaseScript(ReserveScript(rd, a, initial, user).0, a, user);
            && rd'.stock == Initialised(rd, a, initial).stock
            && forall b :: Buyers(rd', b) == Buyers(rd, b)
  {
    var rd' := ReleaseScript(ReserveScript(rd, a, initial, user).0, a, user);
    assert Buyers(rd, a) + {user} - {user} == Buyers(rd, a);
  }

  // ---------- the store ----------

  datatype Entry = Counter(n: int) | Members(members: set<string>)

  /** How the client writes a user id. */
  function UserText(user: UserId): string {
    Decimal(user)
  }

  function Number(keys: map<string, Entry>, key: string): int {
    if key in keys && keys[key].Counter? then keys[key].n else 0
  }

  function MembersOf(keys: map<string, Entry>, key: string): set<string> {
    if key in keys && keys[key].Members? then keys[key].members else {}
  }

  predicate HasMember(keys: map<string, Entry>, a: nat, user: string) {
    user in MembersOf(keys, UsersKey(a))
  }

  /** The keyspace holds exactly the counters and buyer sets of `rd`. */
  ghost predicate Represents(keys: map<string, Entry>, rd: Redis) {
    && (forall a :: a in rd.stock <==> StockKey(a) in keys)
    && (forall a :: a in rd.stock ==> keys[StockKey(a)] == Counter(rd.stock[a]))
    && (forall a :: UsersKey(a) in keys ==> keys[UsersKey(a)].Members?)
    && (forall a, u: UserId :: HasMember(keys, a, UserText(u)) <==> u in Buyers(rd, a))
  }

  lemma CounterWritten(keys: map<string, Entry>, rd: Redis, a: nat, n: int)
    requires Represents(keys, rd)
    ensures Represents(keys[StockKey(a) := Counter(n)], Overwritten(rd, a, n))
  {
    hide FamilyKey, UserText;
    var keys' := keys[StockKey(a) := Counter(n)];
    var rd' := Overwritten(rd, a, n);
    forall b
      ensures b in rd'.stock <==> StockKey(b) in keys'
      ensures b in rd'.stock ==> keys'[StockKey(b)] == Counter(rd'.stock[b])
    {
      RedisKeysApart(a, b);
    }
    forall b
      ensures UsersKey(b) in keys' ==> keys'[UsersKey(b)].Members?
      ensures MembersOf(keys', UsersKey(b)) == MembersOf(keys, UsersKey(b))
    {
      RedisKeysApart(a, b);
    }
    forall b, u: UserId ensures HasMember(keys', b, UserText(u)) <==> u in Buyers(rd', b) {
      assert MembersOf(keys', UsersKey(b)) == MembersOf(keys, UsersKey(b));
      assert HasMember(keys, b, UserText(u)) <==> u in Buyers(rd, b);
    }
  }

  lemma MembersWritten(keys: map<string, Entry>, rd: Redis, a: nat, texts: set<string>, users: set<UserId>)
    requires Represents(keys, rd)
    requires forall u: UserId :: UserText(u) in texts <==> u in users
    ensures Represents(keys[UsersKey(a) := Members(texts)], WithBuyers(rd, a, users))
  {
    hide FamilyKey, UserText;
    var keys' := keys[UsersKey(a) := Members(texts)];
    var rd' := WithBuyers(rd, a, users);
    forall b
      ensures b in rd'.stock <==> StockKey(b) in keys'
      ensures b in rd'.stock ==> keys'[StockKey(b)] == Counter(rd'.stock[b])
    {
      RedisKeysApart(b, a);
    }
    forall b
      ensures UsersKey(b) in keys' ==> keys'[UsersKey(b)].Members?
      ensures MembersOf(keys', UsersKey(b)) == if b == a then texts else MembersOf(keys, UsersKey(b))
    {
      RedisKeysApart(a, b);
    }
    forall b, u: UserId ensures HasMember(keys', b, UserText(u)) <==> u in Buyers(rd', b) {
      assert MembersOf(keys', UsersKey(b)) == if b == a then texts else MembersOf(keys, UsersKey(b));
      assert HasMember(keys, b, UserText(u)) <==> u in Buyers(rd, b);
    }
  }

  /** Adding or removing one user's text changes that user's membership only. */
  lemma OneMember(keys: map<string, Entry>, rd: Redis, a: nat, user: UserId)
    requires Represents(keys, rd)
    ensures UserText(user) in MembersOf(keys, UsersKey(a)) <==> user in Buyers(rd, a)
    ensures forall u: UserId :: UserText(u) in MembersOf(keys, UsersKey(a)) + {UserText(user)} <==>
      u in Buyers(rd, a) + {user}
    ensures forall u: UserId :: UserText(u) in MembersOf(keys, UsersKey(a)) - {UserText(user)} <==>
      u in Buyers(rd, a) - {user}
  {
    hide FamilyKey;
    assert HasMember(keys, a, UserText(user)) <==> user in Buyers(rd, a);
    forall u: UserId
      ensures UserText(u) in MembersOf(keys, UsersKey(a)) <==> u in Buyers(rd, a)
      ensures UserText(u) == UserText(user) <==> u == user
    {
      assert HasMember(keys, a, UserText(u)) <==> u in Buyers(rd, a);
      if UserText(u) == UserText(user) { DecimalInjective(u, user); }
    }
  }

  /**
    The store behind the Go client: one keyspace of string keys, user ids held
    as decimal text. `view` is the abstract state the rest of the model uses.
   */
  class RedisStockStore {
    var keys: map<string, Entry>
    ghost var view: Redis

    ghost predicate Valid()
      reads this
    {
      Represents(keys, view)
    }

    constructor ()
      ensures Valid() && view == Redis(map[], map[])
    {
      keys := map[];
      view := Redis(map[], map[]);
    }

    method Reserve(a: nat, initial: int, user: UserId) returns (r: Result<int>)
      requires Valid()
      modifies this
      ensures Valid()
      ensures view == ReserveScript(old(view), a, initial, user).0
      ensures var reply := ReserveScript(old(view), a, initial, user).1;
              && (reply.code == TAKEN <==> r == Ok(reply.left))
              && (reply.code == ALREADY <==> r == Err(DuplicateOrder))
              && (reply.code == EMPTY <==> r == Err(SoldOut))
    {
      hide Represents, UserText, FamilyKey, StockKey, UsersKey, MembersOf;
      var stockKey, usersKey, text := StockKey(a), UsersKey(a), UserText(user);
      StockEntry(keys, view, a);
      if stockKey !in keys {
        CounterWritten(keys, view, a, initial);
        keys := keys[stockKey := Counter(initial)];
        view := Overwritten(view, a, initial);
      }
      StockEntry(keys, view, a);
      OneMember(keys, view, a, user);
      if text in MembersOf(keys, usersKey) {
        return Err(DuplicateOrder);
      }
      var stock := Number(keys, stockKey);
      if stock <= 0 {
        return Err(SoldOut);
      }
      CounterWritten(keys, view, a, stock - 1);
      keys := keys[stockKey := Counter(stock - 1)];
      view := Overwritten(view, a, stock - 1);
      OneMember(keys, view, a, user);
      var texts := MembersOf(keys, usersKey) + {text};
      MembersWritten(keys, view, a, texts, Buyers(view, a) + {user});
      keys := keys[usersKey := Members(texts)];
      view := WithBuyers(view, a, Buyers(view, a) + {user});
      return Ok(stock - 1);
    }

    method Release(a: nat, user: UserId)
      requires Valid()
      modifies this
      ensures Valid() && view == ReleaseScript(old(view), a, user)
    {
      hide Represents, UserText, FamilyKey, StockKey, UsersKey, MembersOf;
      var stockKey, usersKey, text := StockKey(a), UsersKey(a), UserText(user);
      StockEntry(keys, view, a);
      OneMember(keys, view, a, user);
      if text in MembersOf(keys, usersKey) {
        var stock := Number(keys, stockKey) + 1;
        var texts := MembersOf(keys, usersKey) - {text};
        MembersWritten(keys, view, a, texts, Buyers(view, a) - {user});
        keys := keys[usersKey := Members(texts)];
        view := WithBuyers(view, a, Buyers(view, a) - {user});
        CounterWritten(keys, view, a, stock);
        keys := keys[stockKey := Counter(stock)];
        view := Overwritten(view, a, stock);
      }
    }

    method SetStock(a: nat, stock: int)
      requires Valid()
      modifies this
      ensures Valid() && view == Overwritten(old(view), a, stock)
    {
      CounterWritten(keys, view, a, stock);
      keys := keys[StockKey(a) := Counter(stock)];
      view := Overwritten(view, a, stock);
    }

    method GetStock(a: nat) returns (stock: int, found: bool)
      requires Valid()
      ensures found <==> a in view.stock
      ensures stock == if found then view.stock[a] else 0
    {
      StockEntry(keys, view, a);
      return Number(keys, StockKey(a)), StockKey(a) in keys;
    }
  }

  lemma StockEntry(keys: map<string, Entry>, rd: Redis, a: nat)
    requires Represents(keys, rd)
    ensures StockKey(a) in keys <==> a in rd.stock
    ensures Number(keys, StockKey(a)) == if a in rd.stock then rd.stock[a] else 0
  {
  }
}
