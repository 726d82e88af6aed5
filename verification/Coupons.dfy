/** Coupons over whole runs: stock against claims, one claim per user, and used exactly when one order refers to it. */
module Coupons {
  import opened Model
  import opened Ledger
  import opened Events
  import opened Terms

  ghost function Claims(userCoupons: map<nat, UserCoupon>, c: nat): set<nat> {
    set uc | uc in userCoupons && userCoupons[uc].couponId == c
  }

  ghost function CouponTotal(db: Db, c: nat): int
    requires c in db.coupons
  {
    db.coupons[c].stock + |Claims(db.userCoupons, c)|
  }

  /** Orders that were paid for in part with the coupon. */
  ghost function Refs(orders: map<OrderNo, Order>, uc: nat): set<OrderNo> {
    set no | no in orders && orders[no].userCouponId == uc
  }

  predicate SameClaim(x: UserCoupon, y: UserCoupon) {
    x.user == y.user && x.couponId == y.couponId
  }

  ghost predicate OneClaim(userCoupons: map<nat, UserCoupon>) {
    forall x, y :: x in userCoupons && y in userCoupons && SameClaim(userCoupons[x], userCoupons[y]) ==> x == y
  }

  /** The order used a coupon of its own user, for an amount and at a time the coupon allows, and got its discount. */
  ghost predicate DiscountFits(db: Db, o: Order) {
    && o.userCouponId in db.userCoupons
    && db.userCoupons[o.userCouponId].user == o.user
    && db.userCoupons[o.userCouponId].couponId in db.coupons
    && o.discountAmount == db.coupons[db.userCoupons[o.userCouponId].couponId].discount
    && o.originalAmount >= db.coupons[db.userCoupons[o.userCouponId].couponId].threshold
    && WithinWindow(db.coupons[db.userCoupons[o.userCouponId].couponId], o.createdAt)
  }

  predicate WithinWindow(c: Coupon, time: int) {
    c.startAt <= time <= c.endAt
  }

  predicate SameOffer(c: Coupon, c': Coupon) {
    c.threshold == c'.threshold && c.discount == c'.discount && c.startAt == c'.startAt && c.endAt == c'.endAt
  }

  ghost predicate ClaimsFit(db: Db) {
    && (forall c :: c in db.coupons ==> db.coupons[c].stock >= 0)
    && OneClaim(db.userCoupons)
    && (forall uc :: uc in db.userCoupons ==>
          uc > 0 && db.userCoupons[uc].couponId in db.coupons && db.userCoupons[uc].status != Expired)
  }

  ghost predicate UsesFit(db: Db) {
    forall uc :: uc in db.userCoupons ==> |Refs(db.orders, uc)| == Bit(db.userCoupons[uc].status == Used)
  }

  ghost predicate DiscountsFit(db: Db) {
    forall no :: no in db.orders && db.orders[no].userCouponId > 0 ==> DiscountFits(db, db.orders[no])
  }

  ghost predicate CouponsOk(db: Db) {
    ClaimsFit(db) && UsesFit(db) && DiscountsFit(db)
  }

  ghost predicate CouponsKept(db: Db, db': Db) {
    && CouponsOk(db')
    && forall c :: c in db.coupons ==>
         c in db'.coupons && CouponTotal(db', c) == CouponTotal(db, c) && SameOffer(db.coupons[c], db'.coupons[c])
  }

  lemma RefsAfter(orders: map<OrderNo, Order>, no: OrderNo, o: Order, uc: nat)
    requires no in orders ==> orders[no].userCouponId == o.userCouponId
    ensures Refs(orders[no := o], uc) == Refs(orders, uc) + if o.userCouponId == uc then {no} else {}
    ensures no in orders ==> Refs(orders[no := o], uc) == Refs(orders, uc)
  {
  }

  lemma ClaimsAfter(userCoupons: map<nat, UserCoupon>, uc: nat, row: UserCoupon, c: nat)
    ensures uc !in userCoupons ==>
      Claims(userCoupons[uc := row], c) == Claims(userCoupons, c) + if row.couponId == c then {uc} else {}
    ensures uc in userCoupons && userCoupons[uc].couponId == row.couponId ==>
      Claims(userCoupons[uc := row], c) == Claims(userCoupons, c)
  {
  }

  lemma ClaimedKept(db: Db, uc: nat, claim: UserCoupon)
    requires CouponsOk(db) && Holds(db, Claimed(uc, claim))
    ensures CouponsKept(db, Apply(db, Claimed(uc, claim)))
  {
    hide CouponTotal, CouponsOk;
    var db' := Apply(db, Claimed(uc, claim));
    ClaimedOk(db, uc, claim);
    forall c | c in db.coupons ensures CouponTotal(db', c) == CouponTotal(db, c) {
      ClaimedTotal(db, uc, claim, c);
    }
  }

  lemma ClaimedOk(db: Db, uc: nat, claim: UserCoupon)
    requires CouponsOk(db) && Holds(db, Claimed(uc, claim))
    ensures CouponsOk(Apply(db, Claimed(uc, claim)))
  {
    hide ClaimsFit, UsesFit, DiscountsFit;
    ClaimedFits(db, uc, claim);
    ClaimedUses(db, uc, claim);
    ClaimedDiscounts(db, uc, claim);
  }

  lemma ClaimedFits(db: Db, uc: nat, claim: UserCoupon)
    requires ClaimsFit(db) && Holds(db, Claimed(uc, claim))
    ensures ClaimsFit(Apply(db, Claimed(uc, claim)))
  {
    hide HasClaim;
    SameClaimIsHeld(db, claim);
  }

  lemma ClaimedUses(db: Db, uc: nat, claim: UserCoupon)
    requires CouponsOk(db) && Holds(db, Claimed(uc, claim))
    ensures UsesFit(Apply(db, Claimed(uc, claim)))
  {
    assert Refs(db.orders, uc) == {};
    hide Refs, HasClaim, OneClaim;
  }

  lemma ClaimedDiscounts(db: Db, uc: nat, claim: UserCoupon)
    requires DiscountsFit(db) && Holds(db, Claimed(uc, claim))
    ensures DiscountsFit(Apply(db, Claimed(uc, claim)))
  {
    hide HasClaim;
  }

  lemma SameClaimIsHeld(db: Db, claim: UserCoupon)
    requires !HasClaim(db, claim.user, claim.couponId)
    ensures forall x :: x in db.userCoupons ==> !SameClaim(db.userCoupons[x], claim)
  {
    forall x | x in db.userCoupons ensures !SameClaim(db.userCoupons[x], claim) {
      assert !HasClaim(db, claim.user, claim.couponId);
    }
  }

  lemma ClaimedTotal(db: Db, uc: nat, claim: UserCoupon, c: nat)
    requires Holds(db, Claimed(uc, claim)) && c in db.coupons
    ensures var db' := Apply(db, Claimed(uc, claim));
            c in db'.coupons && CouponTotal(db', c) == CouponTotal(db, c)
  {
    hide Claims, HasClaim;
    ClaimsAfter(db.userCoupons, uc, claim, c);
    ClaimIsNew(db, uc, c);
  }

  lemma ClaimIsNew(db: Db, uc: nat, c: nat)
    ensures uc !in db.userCoupons ==> uc !in Claims(db.userCoupons, c)
  {
  }

  /** What a checkout does to the coupon it names. */
  lemma CouponUse(db: Db, o: Order)
    requires ApplyCoupon(db, o.user, o.userCouponId, o.originalAmount).Ok?
    ensures var (rows, discount) := ApplyCoupon(db, o.user, o.userCouponId, o.originalAmount).value;
            if o.userCouponId == 0 then rows == db.userCoupons && discount == 0
            else
              && o.userCouponId in db.userCoupons
              && db.userCoupons[o.userCouponId].status == Unused && db.userCoupons[o.userCouponId].user == o.user
              && rows == db.userCoupons[o.userCouponId := db.userCoupons[o.userCouponId].(status := Used)]
              && db.userCoupons[o.userCouponId].couponId in db.coupons
              && discount == db.coupons[db.userCoupons[o.userCouponId].couponId].discount
              && o.originalAmount >= db.coupons[db.userCoupons[o.userCouponId].couponId].threshold
              && WithinWindow(db.coupons[db.userCoupons[o.userCouponId].couponId], db.now)
  {
    CouponAnswers(db, o.user, o.userCouponId, o.originalAmount);
  }

  lemma BoughtKept(db: Db, no: OrderNo, o: Order, cart: seq<CartItem>)
    requires CouponsOk(db) && Holds(db, Bought(no, o, cart))
    ensures CouponsKept(db, Apply(db, Bought(no, o, cart)))
  {
    hide CouponTotal, CouponsOk, ApplyCoupon, TakeItems, ItemRows;
    BoughtOk(db, no, o, cart);
    forall c | c in db.coupons ensures CouponTotal(Apply(db, Bought(no, o, cart)), c) == CouponTotal(db, c) {
      BoughtTotal(db, no, o, cart, c);
    }
  }

  lemma BoughtOk(db: Db, no: OrderNo, o: Order, cart: seq<CartItem>)
    requires CouponsOk(db) && Holds(db, Bought(no, o, cart))
    ensures CouponsOk(Apply(db, Bought(no, o, cart)))
  {
    hide Refs, ClaimsFit, DiscountsFit, Holds, Apply;
    BoughtFits(db, no, o, cart);
    BoughtDiscounts(db, no, o, cart);
    var db' := Apply(db, Bought(no, o, cart));
    forall uc | uc in db'.userCoupons ensures |Refs(db'.orders, uc)| == Bit(db'.userCoupons[uc].status == Used) {
      BoughtRefs(db, no, o, cart, uc);
    }
  }

  lemma BoughtFits(db: Db, no: OrderNo, o: Order, cart: seq<CartItem>)
    requires ClaimsFit(db) && Holds(db, Bought(no, o, cart))
    ensures ClaimsFit(Apply(db, Bought(no, o, cart)))
  {
    hide ApplyCoupon, TakeItems, ItemRows;
    CouponUse(db, o);
  }

  lemma BoughtDiscounts(db: Db, no: OrderNo, o: Order, cart: seq<CartItem>)
    requires DiscountsFit(db) && Holds(db, Bought(no, o, cart))
    ensures DiscountsFit(Apply(db, Bought(no, o, cart)))
  {
    hide ApplyCoupon, TakeItems, ItemRows;
    CouponUse(db, o);
    var db' := Apply(db, Bought(no, o, cart));
    assert forall m :: m in db'.orders ==> m == no || db'.orders[m] == db.orders[m];
  }

  lemma BoughtRefs(db: Db, no: OrderNo, o: Order, cart: seq<CartItem>, uc: nat)
    requires CouponsOk(db) && Holds(db, Bought(no, o, cart)) && uc in Apply(db, Bought(no, o, cart)).userCoupons
    ensures var db' := Apply(db, Bought(no, o, cart));
            |Refs(db'.orders, uc)| == Bit(db'.userCoupons[uc].status == Used)
  {
    hide Refs, ApplyCoupon, TakeItems, ItemRows, OneClaim, DiscountsFit;
    CouponUse(db, o);
    RefsAfter(db.orders, no, o, uc);
    if uc == o.userCouponId {
      assert |Refs(db.orders, uc)| == 0;
      assert Refs(db.orders, uc) == {};
    }
  }

  lemma BoughtTotal(db: Db, no: OrderNo, o: Order, cart: seq<CartItem>, c: nat)
    requires CouponsOk(db) && Holds(db, Bought(no, o, cart)) && c in db.coupons
    ensures CouponTotal(Apply(db, Bought(no, o, cart)), c) == CouponTotal(db, c)
  {
    hide Claims, Refs, ApplyCoupon, TakeItems, ItemRows;
    CouponUse(db, o);
    if o.userCouponId > 0 {
      ClaimsAfter(db.userCoupons, o.userCouponId, db.userCoupons[o.userCouponId].(status := Used), c);
    }
  }

  /** The coupon tables under every other event. */
  lemma CouponsAside(db: Db, ev: Event)
    requires Holds(db, ev) && !ev.Bought? && !ev.Claimed?
    ensures Apply(db, ev).userCoupons == db.userCoupons
    ensures Apply(db, ev).coupons == if ev.CouponAdded? then db.coupons[ev.c := ev.coupon] else db.coupons
    ensures ev.CouponAdded? ==> ev.c !in db.coupons && ev.coupon.stock > 0
    ensures match Written(db, ev)
            case None => true
            case Some((no, o)) =>
              if no in db.orders then
                o.userCouponId == db.orders[no].userCouponId && o.user == db.orders[no].user
                && o.discountAmount == db.orders[no].discountAmount
                && o.originalAmount == db.orders[no].originalAmount && o.createdAt == db.orders[no].createdAt
              else o.userCouponId == 0
  {
    if ev.Returned? { RestoreTouches(db, ev.no, db.orders[ev.no]); }
    hide HasOrder, RestoreStock, CheckoutFits, TakeItems, ItemRows;
  }

  lemma OtherKept(db: Db, ev: Event)
    requires CouponsOk(db) && Holds(db, ev) && !ev.Bought? && !ev.Claimed?
    ensures CouponsKept(db, Apply(db, ev))
  {
    hide Apply, Holds, Written, Refs, Claims, DiscountFits;
    var db' := Apply(db, ev);
    CouponsAside(db, ev);
    OtherDiscounts(db, ev);
    forall uc | uc in db.userCoupons ensures Refs(db'.orders, uc) == Refs(db.orders, uc) {
      OtherRefs(db, ev, uc);
    }
    if ev.CouponAdded? {
      NoClaimsYet(db, ev.c);
    }
  }

  lemma OtherDiscounts(db: Db, ev: Event)
    requires CouponsOk(db) && Holds(db, ev) && !ev.Bought? && !ev.Claimed?
    ensures DiscountsFit(Apply(db, ev))
  {
    hide Apply, Holds, Written, Refs, Claims, UsesFit, OneClaim;
    OneOrderRow(db, ev);
    CouponsAside(db, ev);
  }

  lemma OtherRefs(db: Db, ev: Event, uc: nat)
    requires CouponsOk(db) && Holds(db, ev) && !ev.Bought? && !ev.Claimed? && uc in db.userCoupons
    ensures Refs(Apply(db, ev).orders, uc) == Refs(db.orders, uc)
  {
    hide Apply, Holds, Written, Refs, Claims, UsesFit, DiscountsFit;
    OneOrderRow(db, ev);
    CouponsAside(db, ev);
    match Written(db, ev)
    case None =>
    case Some((no, o)) => RefsAfter(db.orders, no, o, uc);
  }

  lemma NoClaimsYet(db: Db, c: nat)
    requires CouponsOk(db) && c !in db.coupons
    ensures Claims(db.userCoupons, c) == {}
  {
  }

  lemma StepKept(db: Db, st: DbStep)
    requires CouponsOk(db)
    ensures CouponsKept(db, DbNext(db, st))
  {
    hide DbNext, CouponsOk, Holds, Apply, CouponsKept;
    var ev := StepEvent(db, st);
    match ev
    case Bought(no, o, cart) => BoughtKept(db, no, o, cart);
    case Claimed(uc, claim) => ClaimedKept(db, uc, claim);
    case _ => OtherKept(db, ev);
  }

  /**
    Every run: coupon stock plus claims never moves, a user claims a coupon at
    most once, a claim is used if and only if exactly one order refers to it, that
    order's amount and time are ones the coupon allows, and no claim is ever left
    expired.
   */
  lemma {:induction false} RunCoupons(db: Db, steps: seq<DbStep>)
    requires CouponsOk(db)
    ensures CouponsKept(db, DbRun(db, steps))
    decreases |steps|
  {
    hide DbNext, CouponsOk, CouponTotal;
    if steps == [] {
    } else {
      StepKept(db, steps[0]);
      RunCoupons(DbNext(db, steps[0]), steps[1..]);
    }
  }

  // ---------- when a claim was made ----------

  /** The step gives the user the coupon, which is active and in stock and which the user has not claimed before. */
  ghost predicate Grants(db: Db, st: DbStep, uc: nat, row: UserCoupon) {
    && st == ClaimCoupon(row.user, row.couponId, uc) && row.status == Unused
    && ActiveCoupon(db, row.couponId) && db.coupons[row.couponId].stock > 0 && !ClaimOf(db, row.user, row.couponId)
  }

  lemma NewClaimGranted(db: Db, st: DbStep, uc: nat)
    requires uc !in db.userCoupons && uc in DbNext(db, st).userCoupons
    ensures Grants(db, st, uc, DbNext(db, st).userCoupons[uc])
  {
    if st.ClaimCoupon? {
      hide Claim, ClaimOf;
      ClaimAnswers(db, st.user, st.c, st.uc);
    } else {
      hide DbNext, Holds, Apply;
      var ev := StepEvent(db, st);
      SameClaims(db, ev);
    }
  }

  lemma SameClaims(db: Db, ev: Event)
    requires Holds(db, ev) && !ev.Claimed?
    ensures Apply(db, ev).userCoupons.Keys == db.userCoupons.Keys
  {
    if ev.Bought? {
      hide ApplyCoupon, TakeItems, ItemRows;
      CouponUse(db, ev.order);
    } else {
      hide Holds, Apply, Written;
      CouponsAside(db, ev);
    }
  }

  /** Step `i` of the run grants the claim. */
  ghost predicate GrantedAt(db: Db, steps: seq<DbStep>, i: nat, uc: nat) {
    i < |steps| &&
    var at := DbRun(db, steps[..i]);
    && uc !in at.userCoupons && uc in DbNext(at, steps[i]).userCoupons
    && Grants(at, steps[i], uc, DbNext(at, steps[i]).userCoupons[uc])
  }

  /** In every run each new claim was granted to its user while the coupon was active and in stock. */
  lemma {:induction false} ClaimedInWindow(db: Db, steps: seq<DbStep>, uc: nat) returns (i: nat)
    requires uc !in db.userCoupons && uc in DbRun(db, steps).userCoupons
    ensures GrantedAt(db, steps, i, uc)
    decreases |steps|
  {
    hide DbNext, Grants;
    var next := DbNext(db, steps[0]);
    if uc in next.userCoupons {
      i := 0;
      NewClaimGranted(db, steps[0], uc);
      assert DbRun(db, steps[..0]) == db;
    } else {
      var j := ClaimedInWindow(next, steps[1..], uc);
      i := j + 1;
      assert steps[..i][0] == steps[0] && steps[..i][1..] == steps[1..][..j];
      assert DbRun(db, steps[..i]) == DbRun(next, steps[1..][..j]);
    }
  }
}
