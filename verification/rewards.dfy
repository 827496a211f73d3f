/** The reward routes: reading a customer's wallet, redeeming points for a
    fuel discount, and redeeming points for a catalog product. */
module Rewards {
  import opened Records
  import opened Settings
  import opened WalletLedger
  import opened Ledger

  /** The wallet a mobile's lookup reports: not found for an unknown mobile,
      the stored row when there is one, and a zeroed row for a customer
      without a wallet. Nothing is written. */
  function WalletOf(db: Db, mobile: string): (r: Result<Wallet>)
    ensures r == Err(CustomerNotFound) <==> mobile !in db.users
    ensures r.Err? ==> r.error == CustomerNotFound
    ensures r.Ok? && db.users[mobile].id !in db.wallets ==> r.value == ZeroWallet
    ensures r.Ok? && db.users[mobile].id in db.wallets ==> r.value == db.wallets[db.users[mobile].id]
  {
    if mobile !in db.users then Err(CustomerNotFound)
    else
      var id := db.users[mobile].id;
      if id in db.wallets then Ok(db.wallets[id]) else Ok(ZeroWallet)
  }

  /** On a consistent ledger every reported wallet keeps the balance equation,
      and a stored one reports exactly what its user's bills earned and its
      redemptions spent. */
  lemma ReportedWalletAccounted(db: Db, mobile: string)
    requires Consistent(db) && mobile in db.users
    ensures WalletOf(db, mobile).Ok?
    ensures WalletOk(WalletOf(db, mobile).value)
    ensures var id := db.users[mobile].id;
            id in db.wallets ==>
              && WalletOf(db, mobile).value.total == PointsEarnedBy(db.bills, id)
              && WalletOf(db, mobile).value.redeemed == PointsSpentBy(db.redemptions, id)
  {
  }

  /** `(fuel_amount * discountPercent) / 100`. */
  function DiscountAmount(fuelAmount: real, percent: int): (d: real)
    ensures 0.0 <= fuelAmount && 0 <= percent <= 100 ==> 0.0 <= d <= fuelAmount
    ensures percent == 100 ==> d == fuelAmount
    ensures percent == 0 || fuelAmount == 0.0 ==> d == 0.0
  {
    fuelAmount * (percent as real) / 100.0
  }

  /** Debiting a redemption's points from its user's wallet and inserting the
      redemption row: the two writes both redemption handlers make. */
  function Spend(db: Db, x: Redemption): (db': Db)
    requires x.userId in db.wallets
    ensures db'.wallets == db.wallets[x.userId := Debit(db.wallets[x.userId], x.pointsUsed)]
    ensures db'.redemptions == db.redemptions + [x]
    ensures db'.users == db.users && db'.bills == db.bills && db'.products == db.products
    ensures db'.settings == db.settings && db'.nextUserId == db.nextUserId
  {
    db.(wallets := db.wallets[x.userId := Debit(db.wallets[x.userId], x.pointsUsed)],
        redemptions := db.redemptions + [x])
  }

  /** Spending from an existing wallet keeps the schema guarantees. */
  lemma SpendKeepsValid(db: Db, x: Redemption)
    requires x.userId in db.wallets
    ensures Valid(db) ==> Valid(Spend(db, x))
  {
    if Valid(db) {
      AppendRedemptionKeepsValid(db, x);
    }
  }

  /** Spending at most what the wallet has available, and no negative amount,
      keeps the ledger invariants. */
  lemma SpendKeepsConsistent(db: Db, x: Redemption)
    requires x.userId in db.wallets && 0 <= x.pointsUsed <= db.wallets[x.userId].available
    ensures Consistent(db) ==> Consistent(Spend(db, x))
  {
    if Consistent(db) {
      AppendRedemptionKeepsValid(db, x);
      BalancedAfterUpdate(db.wallets, x.userId, Debit(db.wallets[x.userId], x.pointsUsed));
      RecordRedemption(db.wallets, db.bills, db.redemptions, x);
    }
  }

  /** The fuel redemption once the customer and the fuel terms are known:
      reading the wallet of a customer without one fails; fewer available
      points than the threshold are refused; otherwise exactly the threshold
      is debited and the discount recorded. */
  function DebitFuel(db: Db, user: UserId, req: FuelRequest, terms: FuelTerms, actor: Actor): (out: (Db, Result<FuelReceipt>))
    ensures out.1.Err? ==> out.0 == db
  {
    if user !in db.wallets then (db, Err(Internal))
    else
      var available := db.wallets[user].available;
      if available < terms.threshold then (db, Err(BelowRedemptionThreshold(terms.threshold)))
      else
        var discount := DiscountAmount(req.fuelAmount, terms.percent);
        (Spend(db, FuelDiscount(user, terms.threshold, discount, req.billNo, actor.id)),
         Ok(FuelReceipt(terms.threshold, discount, available - terms.threshold)))
  }

  /** The fuel redemption handler as written: the settings query selects only
      setting_value, so looking its rows up by setting_key finds nothing. */
  function RedeemFuelAsWritten(db: Db, req: FuelRequest, actor: Actor): (out: (Db, Result<FuelReceipt>))
    ensures out.1.Err? ==> out.0 == db
  {
    if req.mobile !in db.users then (db, Err(CustomerNotFound))
    else
      match FuelTermsFrom(SelectValues(db.settings, FuelKeys))
      case None => (db, Err(Internal))
      case Some(terms) => DebitFuel(db, db.users[req.mobile].id, req, terms, actor)
  }

  /** As written, no fuel redemption ever succeeds or writes anything: a known
      customer always gets an internal error. */
  lemma AsWrittenFuelNeverRedeems(db: Db, req: FuelRequest, actor: Actor)
    ensures RedeemFuelAsWritten(db, req, actor) ==
              (db, Err(if req.mobile in db.users then Internal else CustomerNotFound))
  {
    AsWrittenFuelTermsMissing(db.settings);
  }

  /** The fuel redemption handler with the settings query selecting
      setting_key as well, so that the lookup by key finds the terms. */
  function RedeemFuel(db: Db, req: FuelRequest, actor: Actor): (out: (Db, Result<FuelReceipt>))
    ensures out.1.Err? ==> out.0 == db
    ensures out.0.users == db.users && out.0.bills == db.bills && out.0.products == db.products
    ensures out.0.settings == db.settings && out.0.nextUserId == db.nextUserId
  {
    if req.mobile !in db.users then (db, Err(CustomerNotFound))
    else
      match FuelTermsFrom(SelectKeyed(db.settings, FuelKeys))
      case None => (db, Err(Internal))
      case Some(terms) => DebitFuel(db, db.users[req.mobile].id, req, terms, actor)
  }

  /** The configured threshold is not negative (the settings routes do not
      enforce this). */
  predicate ThresholdNonNegative(settings: seq<Setting>) {
    SettingOf(settings, ThresholdKey).Some? ==> SettingOf(settings, ThresholdKey).value >= 0
  }

  /** The refusals, in the order the handler makes them. */
  lemma RedeemFuelRejects(db: Db, req: FuelRequest, actor: Actor)
    ensures req.mobile !in db.users ==> RedeemFuel(db, req, actor) == (db, Err(CustomerNotFound))
    ensures req.mobile in db.users && ConfiguredFuelTerms(db.settings).None? ==>
              RedeemFuel(db, req, actor) == (db, Err(Internal))
    ensures req.mobile in db.users && db.users[req.mobile].id !in db.wallets ==>
              RedeemFuel(db, req, actor) == (db, Err(Internal))
    ensures var terms := ConfiguredFuelTerms(db.settings);
            req.mobile in db.users && terms.Some? &&
            db.users[req.mobile].id in db.wallets &&
            db.wallets[db.users[req.mobile].id].available < terms.value.threshold ==>
              RedeemFuel(db, req, actor) == (db, Err(BelowRedemptionThreshold(terms.value.threshold)))
  {
    KeyedFuelTerms(db.settings);
  }

  /** A fuel redemption succeeds exactly when the customer is known, both
      terms are configured, and the wallet holds at least the threshold; it
      then debits exactly the threshold, records the discount on the fuel
      amount, and reports the balance left in the wallet. */
  lemma RedeemFuelAccepts(db: Db, req: FuelRequest, actor: Actor)
    ensures var terms := ConfiguredFuelTerms(db.settings);
            RedeemFuel(db, req, actor).1.Ok? <==>
              && req.mobile in db.users && terms.Some?
              && db.users[req.mobile].id in db.wallets
              && db.wallets[db.users[req.mobile].id].available >= terms.value.threshold
    ensures var out := RedeemFuel(db, req, actor);
            out.1.Ok? ==>
              var id := db.users[req.mobile].id;
              var terms := ConfiguredFuelTerms(db.settings).value;
              var w := db.wallets[id];
              var discount := DiscountAmount(req.fuelAmount, terms.percent);
              && out.0.wallets == db.wallets[id := Wallet(w.total, w.redeemed + terms.threshold, w.available - terms.threshold)]
              && out.0.redemptions == db.redemptions + [FuelDiscount(id, terms.threshold, discount, req.billNo, actor.id)]
              && out.1.value == FuelReceipt(terms.threshold, discount, out.0.wallets[id].available)
  {
    KeyedFuelTerms(db.settings);
  }

  /** Fuel redemption keeps the schema guarantees. */
  lemma RedeemFuelKeepsValid(db: Db, req: FuelRequest, actor: Actor)
    ensures Valid(db) ==> Valid(RedeemFuel(db, req, actor).0)
  {
    KeyedFuelTerms(db.settings);
    if req.mobile in db.users && ConfiguredFuelTerms(db.settings).Some? {
      var id := db.users[req.mobile].id;
      var terms := ConfiguredFuelTerms(db.settings).value;
      if id in db.wallets && db.wallets[id].available >= terms.threshold {
        var x := FuelDiscount(id, terms.threshold, DiscountAmount(req.fuelAmount, terms.percent), req.billNo, actor.id);
        assert RedeemFuel(db, req, actor).0 == Spend(db, x);
        SpendKeepsValid(db, x);
      }
    }
  }

  /** With a non-negative threshold, fuel redemption keeps the ledger invariants. */
  lemma RedeemFuelKeepsConsistent(db: Db, req: FuelRequest, actor: Actor)
    requires ThresholdNonNegative(db.settings)
    ensures Consistent(db) ==> Consistent(RedeemFuel(db, req, actor).0)
  {
    KeyedFuelTerms(db.settings);
    if req.mobile in db.users && ConfiguredFuelTerms(db.settings).Some? {
      var id := db.users[req.mobile].id;
      var terms := ConfiguredFuelTerms(db.settings).value;
      if id in db.wallets && db.wallets[id].available >= terms.threshold {
        var x := FuelDiscount(id, terms.threshold, DiscountAmount(req.fuelAmount, terms.percent), req.billNo, actor.id);
        assert RedeemFuel(db, req, actor).0 == Spend(db, x);
        SpendKeepsConsistent(db, x);
      }
    }
  }

  /** The catalog asks no negative price of any product (the product routes
      do not enforce this). */
  ghost predicate PricesNonNegative(products: map<ProductId, Product>) {
    forall p :: p in products ==> products[p].pointsRequired >= 0
  }

  /** The product redemption handler, for the authenticated user `user`:
      a missing or inactive product is unavailable, no stock is refused,
      reading the wallet of a user without one fails, too few available
      points are refused with both figures; otherwise the price is debited,
      one unit leaves stock and the redemption is recorded. */
  function RedeemProduct(db: Db, user: UserId, productId: ProductId): (out: (Db, Result<ProductReceipt>))
    ensures out.1.Err? ==> out.0 == db
    ensures out.0.users == db.users && out.0.bills == db.bills
    ensures out.0.settings == db.settings && out.0.nextUserId == db.nextUserId
  {
    if productId !in db.products || !db.products[productId].active then (db, Err(ProductUnavailable))
    else
      var p := db.products[productId];
      if p.stock <= 0 then (db, Err(OutOfStock))
      else if user !in db.wallets then (db, Err(Internal))
      else
        var available := db.wallets[user].available;
        if available < p.pointsRequired then (db, Err(InsufficientPoints(p.pointsRequired, available)))
        else
          var db1 := Spend(db, ProductRedemption(user, productId, p.pointsRequired, user));
          (db1.(products := db1.products[productId := p.(stock := p.stock - 1)]),
           Ok(ProductReceipt(p.name, p.pointsRequired, available - p.pointsRequired)))
  }

  /** The refusals, in the order the handler makes them. */
  lemma RedeemProductRejects(db: Db, user: UserId, productId: ProductId)
    ensures productId !in db.products || !db.products[productId].active ==>
              RedeemProduct(db, user, productId) == (db, Err(ProductUnavailable))
    ensures productId in db.products && db.products[productId].active && db.products[productId].stock <= 0 ==>
              RedeemProduct(db, user, productId) == (db, Err(OutOfStock))
    ensures productId in db.products && db.products[productId].active && db.products[productId].stock > 0 &&
            user !in db.wallets ==>
              RedeemProduct(db, user, productId) == (db, Err(Internal))
    ensures productId in db.products && db.products[productId].active && db.products[productId].stock > 0 &&
            user in db.wallets && db.wallets[user].available < db.products[productId].pointsRequired ==>
              RedeemProduct(db, user, productId) ==
                (db, Err(InsufficientPoints(db.products[productId].pointsRequired, db.wallets[user].available)))
  {
  }

  /** A product redemption succeeds exactly when the product is active and
      in stock and the user's wallet covers its price; it then debits the
      price, takes exactly one unit from that product's stock and leaves
      every other product alone, records the redemption, and reports the
      balance left in the wallet. */
  lemma RedeemProductAccepts(db: Db, user: UserId, productId: ProductId)
    ensures RedeemProduct(db, user, productId).1.Ok? <==>
              && productId in db.products && db.products[productId].active
              && db.products[productId].stock > 0
              && user in db.wallets && db.wallets[user].available >= db.products[productId].pointsRequired
    ensures var out := RedeemProduct(db, user, productId);
            out.1.Ok? ==>
              var p := db.products[productId];
              var w := db.wallets[user];
              && out.0.wallets == db.wallets[user := Wallet(w.total, w.redeemed + p.pointsRequired, w.available - p.pointsRequired)]
              && productId in out.0.products
              && out.0.products[productId] == p.(stock := p.stock - 1)
              && (forall q :: q in db.products && q != productId ==> q in out.0.products && out.0.products[q] == db.products[q])
              && out.0.products.Keys == db.products.Keys
              && out.0.redemptions == db.redemptions + [ProductRedemption(user, productId, p.pointsRequired, user)]
              && out.1.value == ProductReceipt(p.name, p.pointsRequired, out.0.wallets[user].available)
  {
  }

  /** Product redemption keeps the schema guarantees. */
  lemma RedeemProductKeepsValid(db: Db, user: UserId, productId: ProductId)
    ensures Valid(db) ==> Valid(RedeemProduct(db, user, productId).0)
  {
    if productId in db.products && db.products[productId].active && db.products[productId].stock > 0
       && user in db.wallets && db.wallets[user].available >= db.products[productId].pointsRequired
    {
      var p := db.products[productId];
      var x := ProductRedemption(user, productId, p.pointsRequired, user);
      SpendKeepsValid(db, x);
      var db1 := Spend(db, x);
      assert RedeemProduct(db, user, productId).0 == db1.(products := db1.products[productId := p.(stock := p.stock - 1)]);
    }
  }

  /** With no negative price in the catalog, product redemption keeps the
      ledger invariants; in particular stock never goes below zero. */
  lemma RedeemProductKeepsConsistent(db: Db, user: UserId, productId: ProductId)
    requires PricesNonNegative(db.products)
    ensures Consistent(db) ==> Consistent(RedeemProduct(db, user, productId).0)
  {
    if productId in db.products && db.products[productId].active && db.products[productId].stock > 0
       && user in db.wallets && db.wallets[user].available >= db.products[productId].pointsRequired
    {
      var p := db.products[productId];
      var x := ProductRedemption(user, productId, p.pointsRequired, user);
      SpendKeepsConsistent(db, x);
      var db1 := Spend(db, x);
      assert RedeemProduct(db, user, productId).0 == db1.(products := db1.products[productId := p.(stock := p.stock - 1)]);
    }
  }
}
