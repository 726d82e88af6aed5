/**
  Cart checkout over whole runs: product stock against the items of live orders,
  the amounts of every cart order, and restores that always succeed.
 */
module Cart {
  import opened Keys
  import opened Model
  import opened Ledger
  import opened Events
  import opened ActivityStock

  // ---------- sums over item rows ----------

  /** Units of product `p` in the rows. */
  function Units(rows: seq<OrderItem>, p: nat): int {
    if rows == [] then 0 else (if rows[0].productId == p then rows[0].quantity else 0) + Units(rows[1..], p)
  }

  function Worth(rows: seq<OrderItem>): int {
    if rows == [] then 0 else rows[0].price * rows[0].quantity + Worth(rows[1..])
  }

  predicate Holding(orders: map<OrderNo, Order>, no: OrderNo) {
    no in orders && Active(orders[no].status)
  }

  /** Units of product `p` in the items of live orders. */
  function Held(items: seq<OrderItem>, orders: map<OrderNo, Order>, p: nat): int {
    if items == [] then 0
    else (if items[0].productId == p && Holding(orders, items[0].orderNo) then items[0].quantity else 0)
         + Held(items[1..], orders, p)
  }

  /** Stock on the shelf plus units held by live orders. */
  function ProductTotal(db: Db, p: nat): int
    requires p in db.products
  {
    db.products[p].stock + Held(db.items, db.orders, p)
  }

  lemma {:induction false} HeldAppend(a: seq<OrderItem>, b: seq<OrderItem>, orders: map<OrderNo, Order>, p: nat)
    ensures Held(a + b, orders, p) == Held(a, orders, p) + Held(b, orders, p)
  {
    if a == [] {
      assert a + b == b;
    } else {
      assert (a + b)[1..] == a[1..] + b;
      HeldAppend(a[1..], b, orders, p);
    }
  }

  /** A row write that flips no holding changes no sum. */
  lemma {:induction false} HeldSame(items: seq<OrderItem>, orders: map<OrderNo, Order>,
      orders': map<OrderNo, Order>, p: nat)
    requires forall i :: 0 <= i < |items| ==> Holding(orders', items[i].orderNo) == Holding(orders, items[i].orderNo)
    ensures Held(items, orders', p) == Held(items, orders, p)
  {
    if items == [] {
    } else {
      HeldSame(items[1..], orders, orders', p);
    }
  }

  /** Closing an order takes exactly its own rows out of the sum. */
  lemma {:induction false} HeldAfterClose(items: seq<OrderItem>, orders: map<OrderNo, Order>, no: OrderNo,
      o: Order, p: nat)
    requires Holding(orders, no) && !Active(o.status)
    ensures Held(items, orders[no := o], p) == Held(items, orders, p) - Units(RowsOf(items, no), p)
  {
    if items == [] {
    } else {
      HeldAfterClose(items[1..], orders, no, o, p);
      if items[0].orderNo == no {
        assert RowsOf(items, no)[0] == items[0] && RowsOf(items, no)[1..] == RowsOf(items[1..], no);
      }
    }
  }

  lemma {:induction false} RowsAppend(a: seq<OrderItem>, b: seq<OrderItem>, no: OrderNo)
    ensures RowsOf(a + b, no) == RowsOf(a, no) + RowsOf(b, no)
  {
    if a == [] {
      assert a + b == b;
    } else {
      assert (a + b)[1..] == a[1..] + b;
      RowsAppend(a[1..], b, no);
    }
  }

  lemma {:induction false} RowsNone(items: seq<OrderItem>, no: OrderNo)
    requires forall i :: 0 <= i < |items| ==> items[i].orderNo != no
    ensures RowsOf(items, no) == []
  {
    if items == [] {
    } else {
      RowsNone(items[1..], no);
    }
  }

  // ---------- the checkout loop ----------

  function CartUnits(cart: seq<CartItem>, p: nat): int {
    if cart == [] then 0 else (if cart[0].productId == p then cart[0].quantity else 0) + CartUnits(cart[1..], p)
  }

  ghost predicate SameCatalog(before: map<nat, Product>, after: map<nat, Product>) {
    before.Keys == after.Keys && forall p :: p in before ==> before[p].price == after[p].price
  }

  lemma FirstRowWorth(products: map<nat, Product>, no: OrderNo, cart: seq<CartItem>)
    requires cart != []
    ensures Worth(ItemRows(products, no, cart))
         == PriceOf(products, cart[0].productId) * cart[0].quantity + Worth(ItemRows(products, no, cart[1..]))
  {
    var rows := ItemRows(products, no, cart);
    assert rows[1..] == ItemRows(products, no, cart[1..]);
  }

  /**
    A successful stock loop takes each product down by exactly the cart's units,
    never below zero, and returns the worth of the rows it will write.
   */
  lemma {:induction false} TakeItemsExact(products: map<nat, Product>, priced: map<nat, Product>,
      cart: seq<CartItem>, no: OrderNo)
    requires TakeItems(products, cart).Ok? && SameCatalog(products, priced)
    requires forall p :: p in products ==> products[p].stock >= 0
    ensures var (left, sum) := TakeItems(products, cart).value;
            && SameCatalog(products, left)
            && (forall p :: p in products ==> left[p].stock == products[p].stock - CartUnits(cart, p) >= 0)
            && sum == Worth(ItemRows(priced, no, cart))
    ensures forall i :: 0 <= i < |cart| ==> cart[i].productId in products && cart[i].quantity > 0
  {
    if cart == [] {
    } else {
      var c := cart[0];
      var rest := products[c.productId := products[c.productId].(stock := products[c.productId].stock - c.quantity)];
      TakeItemsExact(rest, priced, cart[1..], no);
      FirstRowWorth(priced, no, cart);
      hide ItemRows, Worth;
      assert forall i :: 1 <= i < |cart| ==> cart[i] == cart[1..][i - 1];
    }
  }

  /** What the cart costs at the products' prices. */
  function Cost(products: map<nat, Product>, cart: seq<CartItem>): int {
    if cart == [] then 0
    else (if cart[0].productId in products then products[cart[0].productId].price else 0) * cart[0].quantity
         + Cost(products, cart[1..])
  }

  /** What is wrong with item `i`, after the items before it have been taken from the shelves. */
  function Fault(products: map<nat, Product>, cart: seq<CartItem>, i: nat): Option<Error>
    requires i < |cart|
  {
    var c := cart[i];
    if c.quantity <= 0 then Some(InvalidQuantity)
    else if c.productId !in products then Some(ProductNotFound)
    else if products[c.productId].stock - CartUnits(cart[..i], c.productId) < c.quantity then Some(StockNotEnough)
    else None
  }

  ghost predicate InStock(products: map<nat, Product>, cart: seq<CartItem>) {
    forall i :: 0 <= i < |cart| ==> Fault(products, cart, i) == None
  }

  /** The first faulty item has this fault. */
  ghost predicate ItemsFail(products: map<nat, Product>, cart: seq<CartItem>, e: Error) {
    exists i :: 0 <= i < |cart| && Fault(products, cart, i) == Some(e)
                && forall j :: 0 <= j < i ==> Fault(products, cart, j) == None
  }

  /** The shelves with the cart taken off. */
  ghost predicate Taken(products: map<nat, Product>, left: map<nat, Product>, cart: seq<CartItem>) {
    && left.Keys == products.Keys
    && forall p :: p in products ==> left[p] == products[p].(stock := products[p].stock - CartUnits(cart, p))
  }

  lemma FaultAfterFirst(products: map<nat, Product>, rest: map<nat, Product>, cart: seq<CartItem>, i: nat)
    requires i + 1 < |cart| && Fault(products, cart, 0) == None
    requires var p := products[cart[0].productId];
             rest == products[cart[0].productId := p.(stock := p.stock - cart[0].quantity)]
    ensures Fault(products, cart, i + 1) == Fault(rest, cart[1..], i)
  {
    assert cart[..i + 1][1..] == cart[1..][..i];
  }

  /**
    The stock loop decides exactly: it goes through if and only if every item can
    be served after those before it, it fails with the fault of the first that
    cannot, and otherwise takes just the cart off the shelves.
   */
  lemma {:induction false} TakeItemsDecides(products: map<nat, Product>, cart: seq<CartItem>)
    ensures TakeItems(products, cart).Ok? <==> InStock(products, cart)
    ensures TakeItems(products, cart).Err? ==> ItemsFail(products, cart, TakeItems(products, cart).error)
    ensures TakeItems(products, cart).Ok? ==>
      var (left, sum) := TakeItems(products, cart).value;
      Taken(products, left, cart) && sum == Cost(products, cart)
  {
    if cart == [] {
    } else if Fault(products, cart, 0) == None {
      var p := products[cart[0].productId];
      var rest := products[cart[0].productId := p.(stock := p.stock - cart[0].quantity)];
      TakeItemsDecides(rest, cart[1..]);
      SamePrices(products, rest, cart[1..]);
      forall i | 0 <= i < |cart| - 1 ensures Fault(products, cart, i + 1) == Fault(rest, cart[1..], i) {
        FaultAfterFirst(products, rest, cart, i);
      }
      RestDecides(products, rest, cart);
    } else {
      assert cart[..0] == [];
    }
  }

  lemma RestDecides(products: map<nat, Product>, rest: map<nat, Product>, cart: seq<CartItem>)
    requires cart != [] && Fault(products, cart, 0) == None
    requires forall i :: 0 <= i < |cart| - 1 ==> Fault(products, cart, i + 1) == Fault(rest, cart[1..], i)
    ensures InStock(products, cart) <==> InStock(rest, cart[1..])
    ensures forall e :: ItemsFail(rest, cart[1..], e) ==> ItemsFail(products, cart, e)
  {
    hide Fault;
    forall i | 0 <= i < |cart| ensures i == 0 || Fault(products, cart, i) == Fault(rest, cart[1..], i - 1) {
      assert i > 0 ==> Fault(products, cart, (i - 1) + 1) == Fault(rest, cart[1..], i - 1);
    }
    forall e | ItemsFail(rest, cart[1..], e) ensures ItemsFail(products, cart, e) {
      var i :| 0 <= i < |cart[1..]| && Fault(rest, cart[1..], i) == Some(e)
               && forall j :: 0 <= j < i ==> Fault(rest, cart[1..], j) == None;
      assert Fault(products, cart, i + 1) == Some(e);
    }
  }

  lemma {:induction false} SamePrices(products: map<nat, Product>, rest: map<nat, Product>, cart: seq<CartItem>)
    requires SameCatalog(products, rest)
    ensures Cost(products, cart) == Cost(rest, cart)
  {
    if cart != [] { SamePrices(products, rest, cart[1..]); }
  }

  /** The rows a checkout writes, one per cart item at its price. */
  ghost predicate RowsFor(products: map<nat, Product>, no: OrderNo, cart: seq<CartItem>, rows: seq<OrderItem>) {
    && |rows| == |cart|
    && forall i :: 0 <= i < |cart| ==>
         && rows[i].orderNo == no && rows[i].productId == cart[i].productId && rows[i].quantity == cart[i].quantity
         && cart[i].productId in products && rows[i].price == products[cart[i].productId].price
  }

  lemma {:induction false} ItemRowsAre(products: map<nat, Product>, no: OrderNo, cart: seq<CartItem>)
    requires forall i :: 0 <= i < |cart| ==> cart[i].productId in products
    ensures RowsFor(products, no, cart, ItemRows(products, no, cart))
  {
    if cart != [] { ItemRowsAre(products, no, cart[1..]); }
  }

  lemma {:induction false} ItemRowsFacts(products: map<nat, Product>, no: OrderNo, cart: seq<CartItem>,
      orders: map<OrderNo, Order>, p: nat)
    requires Holding(orders, no)
    ensures var rows := ItemRows(products, no, cart);
            && |rows| == |cart|
            && (forall i :: 0 <= i < |rows| ==>
                  && rows[i].orderNo == no && rows[i].productId == cart[i].productId
                  && rows[i].quantity == cart[i].quantity)
            && RowsOf(rows, no) == rows
            && Held(rows, orders, p) == CartUnits(cart, p)
  {
    var rows := ItemRows(products, no, cart);
    if cart == [] {
    } else {
      ItemRowsFacts(products, no, cart[1..], orders, p);
      assert rows[1..] == ItemRows(products, no, cart[1..]);
    }
  }

  // ---------- the restore loop ----------

  ghost predicate RowsKnown(products: map<nat, Product>, rows: seq<OrderItem>) {
    forall i :: 0 <= i < |rows| ==> rows[i].productId in products
  }

  /** The restore loop succeeds exactly when every product exists, and adds exactly the rows' units. */
  lemma {:induction false} RestoreItemsExact(products: map<nat, Product>, rows: seq<OrderItem>)
    ensures RestoreItems(products, rows).Some? <==> RowsKnown(products, rows)
    ensures RestoreItems(products, rows).Some? ==>
      var after := RestoreItems(products, rows).value;
      SameCatalog(products, after) && forall p :: p in products ==> after[p].stock == products[p].stock + Units(rows, p)
  {
    if rows == [] {
    } else if rows[0].productId in products {
      var p := products[rows[0].productId];
      RestoreItemsExact(products[rows[0].productId := p.(stock := p.stock + rows[0].quantity)], rows[1..]);
      assert forall i :: 1 <= i < |rows| ==> rows[i] == rows[1..][i - 1];
    }
  }

  /** Units of product `p` that the order's rows hold. */
  function UnitsOf(items: seq<OrderItem>, no: OrderNo, p: nat): int {
    if items == [] then 0
    else (if items[0].orderNo == no && items[0].productId == p then items[0].quantity else 0)
         + UnitsOf(items[1..], no, p)
  }

  lemma {:induction false} UnitsAreOf(items: seq<OrderItem>, no: OrderNo, p: nat)
    ensures Units(RowsOf(items, no), p) == UnitsOf(items, no, p)
  {
    if items != [] {
      UnitsAreOf(items[1..], no, p);
      if items[0].orderNo == no {
        assert RowsOf(items, no)[0] == items[0] && RowsOf(items, no)[1..] == RowsOf(items[1..], no);
      }
    }
  }

  // ---------- invariant ----------

  ghost predicate ItemsOk(items: seq<OrderItem>, orders: map<OrderNo, Order>, products: map<nat, Product>) {
    forall i :: 0 <= i < |items| ==>
      && items[i].orderNo in orders && orders[items[i].orderNo].activityId == 0
      && items[i].productId in products && items[i].quantity > 0
  }

  predicate AmountsFit(o: Order, rows: seq<OrderItem>) {
    Worth(rows) == o.originalAmount && o.amount == Payable(o.originalAmount, o.discountAmount)
  }

  ghost predicate CartOk(db: Db) {
    && (forall p :: p in db.products ==> p > 0 && db.products[p].stock >= 0)
    && ItemsOk(db.items, db.orders, db.products)
    && (forall no :: no in db.orders && db.orders[no].activityId == 0 ==>
         AmountsFit(db.orders[no], RowsOf(db.items, no)))
  }

  ghost predicate CartKept(db: Db, db': Db) {
    && CartOk(db')
    && forall p :: p in db.products ==> p in db'.products && ProductTotal(db', p) == ProductTotal(db, p)
  }

  lemma BoughtKept(db: Db, no: OrderNo, o: Order, cart: seq<CartItem>)
    requires CartOk(db) && Holds(db, Bought(no, o, cart))
    ensures CartKept(db, Apply(db, Bought(no, o, cart)))
  {
    hide ApplyCoupon, TakeItems, ItemRows, RowsOf, AmountsFit;
    var db' := Apply(db, Bought(no, o, cart));
    var rows := ItemRows(db.products, no, cart);
    TakeItemsExact(db.products, db.products, cart, no);
    ItemRowsFacts(db.products, no, cart, db'.orders, 0);
    forall p | p in db.products ensures p in db'.products && ProductTotal(db', p) == ProductTotal(db, p) {
      ItemRowsFacts(db.products, no, cart, db'.orders, p);
      HeldAppend(db.items, rows, db'.orders, p);
      HeldSame(db.items, db.orders, db'.orders, p);
    }
    BoughtAmounts(db, no, o, cart);
  }

  lemma BoughtAmounts(db: Db, no: OrderNo, o: Order, cart: seq<CartItem>)
    requires CartOk(db) && Holds(db, Bought(no, o, cart))
    ensures var db' := Apply(db, Bought(no, o, cart));
            forall m :: m in db'.orders && db'.orders[m].activityId == 0 ==>
              AmountsFit(db'.orders[m], RowsOf(db'.items, m))
  {
    hide ApplyCoupon, TakeItems, ItemRows, RowsOf;
    var db' := Apply(db, Bought(no, o, cart));
    var rows := ItemRows(db.products, no, cart);
    TakeItemsExact(db.products, db.products, cart, no);
    ItemRowsFacts(db.products, no, cart, db'.orders, 0);
    forall m | m in db'.orders && db'.orders[m].activityId == 0
      ensures AmountsFit(db'.orders[m], RowsOf(db'.items, m))
    {
      RowsAppend(db.items, rows, m);
      if m == no {
        RowsNone(db.items, no);
        assert RowsOf(db'.items, no) == rows;
      } else {
        RowsNone(rows, m);
        assert RowsOf(db'.items, m) == RowsOf(db.items, m);
      }
    }
  }

  lemma {:induction false} RowsOfKnown(items: seq<OrderItem>, orders: map<OrderNo, Order>,
      products: map<nat, Product>, no: OrderNo)
    requires ItemsOk(items, orders, products)
    ensures RowsKnown(products, RowsOf(items, no))
    ensures no in orders && orders[no].activityId > 0 ==> RowsOf(items, no) == []
  {
    if items == [] {
    } else {
      assert forall i :: 0 <= i < |items[1..]| ==> items[1..][i] == items[i + 1];
      RowsOfKnown(items[1..], orders, products, no);
    }
  }

  lemma ReturnedShelf(db: Db, no: OrderNo, s: OrderStatus)
    requires CartOk(db) && Holds(db, Returned(no, s))
    ensures var db' := Apply(db, Returned(no, s));
            && db'.items == db.items
            && db'.orders == db.orders[no := db.orders[no].(status := s, updatedAt := db.now)]
            && SameCatalog(db.products, db'.products)
            && forall p :: p in db.products ==>
               db'.products[p].stock == db.products[p].stock + Units(RowsOf(db.items, no), p)
  {
    hide RowsOf, RestoreItems;
    RowsOfKnown(db.items, db.orders, db.products, no);
    RestoreItemsExact(db.products, RowsOf(db.items, no));
  }

  lemma ReturnedKept(db: Db, no: OrderNo, s: OrderStatus)
    requires CartOk(db) && Holds(db, Returned(no, s))
    ensures CartKept(db, Apply(db, Returned(no, s)))
  {
    hide RowsOf, Apply, Held, RestoreStock, Units;
    var db' := Apply(db, Returned(no, s));
    ReturnedShelf(db, no, s);
    forall p | p in db.products ensures p in db'.products && ProductTotal(db', p) == ProductTotal(db, p) {
      HeldAfterClose(db.items, db.orders, no, db'.orders[no], p);
    }
    RestoredShelf(db, no);
  }

  /** Restoring never takes stock away. */
  lemma RestoredShelf(db: Db, no: OrderNo)
    requires CartOk(db)
    ensures forall p :: p in db.products ==> Units(RowsOf(db.items, no), p) >= 0
  {
    forall p | p in db.products ensures Units(RowsOf(db.items, no), p) >= 0 {
      UnitsPositive(db.items, no, p);
    }
  }

  lemma {:induction false} UnitsPositive(items: seq<OrderItem>, no: OrderNo, p: nat)
    requires forall i :: 0 <= i < |items| ==> items[i].quantity > 0
    ensures Units(RowsOf(items, no), p) >= 0
  {
    if items == [] {
    } else {
      UnitsPositive(items[1..], no, p);
      if items[0].orderNo == no {
        assert RowsOf(items, no)[0] == items[0] && RowsOf(items, no)[1..] == RowsOf(items[1..], no);
      }
    }
  }

  /** The tables a cart cares about, for every other event. */
  lemma ShelvesAside(db: Db, ev: Event)
    requires Holds(db, ev) && !ev.Bought? && !ev.Returned?
    ensures Apply(db, ev).items == db.items
    ensures Apply(db, ev).products == if ev.ProductAdded? then db.products[ev.p := ev.product] else db.products
    ensures match Written(db, ev)
            case None => true
            case Some((no, o)) =>
              if no in db.orders then
                o.activityId == db.orders[no].activityId && Active(o.status) == Active(db.orders[no].status)
                && o.originalAmount == db.orders[no].originalAmount && o.discountAmount == db.orders[no].discountAmount
                && o.amount == db.orders[no].amount
              else o.activityId > 0 || o.activityId in db.activities
  {
    hide HasOrder, HasClaim;
  }

  lemma OtherKept(db: Db, ev: Event)
    requires CartOk(db) && StockOk(db) && Holds(db, ev) && !ev.Bought? && !ev.Returned?
    ensures CartKept(db, Apply(db, ev))
  {
    hide Apply, Holds, Written, RowsOf, KeysMatch, OnePerPair;
    var db' := Apply(db, ev);
    OneOrderRow(db, ev);
    ShelvesAside(db, ev);
    NewProductIsNew(db, ev);
    forall p | p in db.products ensures p in db'.products && ProductTotal(db', p) == ProductTotal(db, p) {
      HeldSame(db.items, db.orders, db'.orders, p);
    }
  }

  lemma NewProductIsNew(db: Db, ev: Event)
    requires Holds(db, ev)
    ensures ev.ProductAdded? ==> ev.p > 0 && ev.p !in db.products && ev.product.stock >= 0
  {
  }

  /**
    Cart conservation in every run: shelf stock plus the units of live orders
    never moves, never goes below zero on the shelf, and every cart order's
    items add up to its original amount.
   */
  lemma {:induction false} RunCart(db: Db, steps: seq<DbStep>)
    requires CartOk(db) && StockOk(db)
    ensures CartKept(db, DbRun(db, steps))
    decreases |steps|
  {
    hide DbNext, CartOk, StockOk, Holds, Apply, ProductTotal;
    if steps == [] {
    } else {
      StepKept(db, steps[0]);
      RunCart(DbNext(db, steps[0]), steps[1..]);
    }
  }

  lemma StepKept(db: Db, st: DbStep)
    requires CartOk(db) && StockOk(db)
    ensures CartKept(db, DbNext(db, st)) && StockOk(DbNext(db, st))
  {
    hide DbNext, CartOk, StockOk, Holds, Apply, CartKept;
    var ev := StepEvent(db, st);
    StepConserves(db, st);
    match ev
    case Bought(no, o, cart) => BoughtKept(db, no, o, cart);
    case Returned(no, s) => ReturnedKept(db, no, s);
    case _ => OtherKept(db, ev);
  }

  /** In a sound database every restore of an order in progress commits. */
  lemma RestoreAlwaysCommits(db: Db, no: OrderNo)
    requires CartOk(db) && StockOk(db)
    requires no in db.orders
    ensures RestoreStock(db, no, db.orders[no]).Commit?
  {
    hide RestoreItems, RowsOf;
    RowsOfKnown(db.items, db.orders, db.products, no);
    RestoreItemsExact(db.products, RowsOf(db.items, no));
  }
}
