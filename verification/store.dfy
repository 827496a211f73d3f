/** The handlers as they run against the database: each table is a field
    that the handler's statements update one write at a time, a rolled-back
    transaction restores the tables it saved when it began, and every
    handler ends in exactly the state and reply of its transition function. */
module RewardStore {
  import opened Records
  import opened PointsPolicy
  import opened Settings
  import opened WalletLedger
  import opened Ledger
  import opened Billing
  import opened Rewards

  class Store {
    var users: map<string, User>
    var wallets: map<UserId, Wallet>
    var bills: seq<Bill>
    var products: map<ProductId, Product>
    var redemptions: seq<Redemption>
    var settings: seq<Setting>
    var nextUserId: UserId

    /** The tables as one database value. */
    ghost function Tables(): Db
      reads this
    {
      Db(users, wallets, bills, products, redemptions, settings, nextUserId)
    }

    ghost predicate Valid()
      reads this
    {
      Ledger.Valid(Tables())
    }

    ghost predicate Consistent()
      reads this
    {
      Ledger.Consistent(Tables())
    }

    /** A fresh deployment: the configured settings and catalog, no
        customers. A fixture of the model, like Ledger.InitialDb. */
    constructor(config: seq<Setting>, catalog: map<ProductId, Product>)
      ensures Tables() == InitialDb(config, catalog)
      ensures Valid()
      ensures StockNonNegative(catalog) ==> Consistent()
    {
      users := map[];
      wallets := map[];
      bills := [];
      products := catalog;
      redemptions := [];
      settings := config;
      nextUserId := 1;
    }

    /** POST a bill: read the minimum, open the transaction, get or create the
        customer and its wallet, insert the bill, credit the wallet, read the
        balance back and commit. A duplicate bill number rolls back. */
    method CreateBill(req: BillRequest, actor: Actor) returns (r: Result<BillReceipt>)
      requires IsStaff(actor.role)
      modifies this
      ensures (Tables(), r) == Billing.CreateBill(old(Tables()), req, actor)
      ensures old(Valid()) ==> Valid()
      ensures old(Consistent()) ==> Consistent()
    {
      ghost var db := Tables();
      if Ledger.Valid(db) {
        CreateBillKeepsValid(db, req, actor);
      }
      if Ledger.Consistent(db) {
        CreateBillKeepsConsistent(db, req, actor);
      }

      var rows := SelectValues(settings, {MinPurchaseKey});
      FirstSelectedValue(settings, MinPurchaseKey);
      if rows == [] {
        return Err(Internal);
      }
      var minimum := rows[0].value;
      if req.amount < minimum {
        return Err(BelowMinimumPurchase(minimum));
      }

      // BEGIN: the writes below are undone together on failure.
      var savedUsers, savedWallets, savedNext := users, wallets, nextUserId;
      var user := ResolveCustomer(req.mobile);
      if BillNumberTaken(bills, req.billNo) {
        // the unique key refuses the insert: ROLLBACK
        users, wallets, nextUserId := savedUsers, savedWallets, savedNext;
        return Err(DuplicateBillNumber);
      }
      var points := CalculatePoints(req.amount, req.fuelType, req.density);
      r := PostBill(Bill(req.billNo, user, req.mobile, req.fuelType, req.quantity, req.amount, req.density, points, actor.id));
    }

    /** Get or create the customer of a mobile, with a zeroed wallet. */
    method ResolveCustomer(mobile: string) returns (user: UserId)
      modifies this
      ensures (user, Tables()) == Ledger.ResolveCustomer(old(Tables()), mobile)
    {
      if mobile in users {
        user := users[mobile].id;
      } else {
        user := nextUserId;
        users := users[mobile := User(user, Customer)];
        nextUserId := nextUserId + 1;
        wallets := wallets[user := ZeroWallet];
      }
    }

    /** Insert the bill, credit its points, read the balance back; COMMIT
        comes before the read-back, so a missing wallet row fails after the
        bill is committed. */
    method PostBill(bill: Bill) returns (r: Result<BillReceipt>)
      modifies this
      ensures (Tables(), r) == Billing.PostBill(old(Tables()), bill)
    {
      bills := bills + [bill];
      var user := bill.userId;
      if user in wallets {
        var w := wallets[user];
        wallets := wallets[user := Wallet(w.total + bill.pointsEarned, w.redeemed, w.available + bill.pointsEarned)];
        r := Ok(BillReceipt(bill.billNo, bill.pointsEarned, wallets[user].available));
      } else {
        r := Err(Internal);
      }
    }

    /** GET a wallet by mobile; writes nothing. */
    method GetWallet(mobile: string) returns (r: Result<Wallet>)
      ensures r == WalletOf(Tables(), mobile)
      ensures r.Ok? && Consistent() ==> WalletOk(r.value)
    {
      if mobile !in users {
        return Err(CustomerNotFound);
      }
      var id := users[mobile].id;
      if id in wallets {
        r := Ok(wallets[id]);
      } else {
        r := Ok(ZeroWallet);
      }
      if Consistent() {
        ReportedWalletAccounted(Tables(), mobile);
      }
    }

    /** The part of a fuel redemption after the terms are read: the wallet
        check, the debit and the redemption row. */
    method DebitFuel(user: UserId, req: FuelRequest, terms: FuelTerms, actor: Actor) returns (r: Result<FuelReceipt>)
      modifies this
      ensures (Tables(), r) == Rewards.DebitFuel(old(Tables()), user, req, terms, actor)
    {
      if user !in wallets {
        return Err(Internal);
      }
      var available := wallets[user].available;
      if available < terms.threshold {
        return Err(BelowRedemptionThreshold(terms.threshold));
      }
      var discount := DiscountAmount(req.fuelAmount, terms.percent);
      var w := wallets[user];
      wallets := wallets[user := Wallet(w.total, w.redeemed + terms.threshold, w.available - terms.threshold)];
      redemptions := redemptions + [FuelDiscount(user, terms.threshold, discount, req.billNo, actor.id)];
      r := Ok(FuelReceipt(terms.threshold, discount, available - terms.threshold));
    }

    /** POST a fuel redemption, with the settings query selecting the keys. */
    method RedeemFuel(req: FuelRequest, actor: Actor) returns (r: Result<FuelReceipt>)
      requires IsStaff(actor.role)
      modifies this
      ensures (Tables(), r) == Rewards.RedeemFuel(old(Tables()), req, actor)
      ensures old(Valid()) ==> Valid()
      ensures old(Consistent() && ThresholdNonNegative(settings)) ==> Consistent()
    {
      ghost var db := Tables();
      RedeemFuelKeepsValid(db, req, actor);
      if ThresholdNonNegative(db.settings) {
        RedeemFuelKeepsConsistent(db, req, actor);
      }
      if req.mobile !in users {
        return Err(CustomerNotFound);
      }
      var user := users[req.mobile].id;
      var rows := SelectKeyed(settings, FuelKeys);
      var threshold := Find(rows, ThresholdKey);
      var percent := Find(rows, DiscountPercentKey);
      if threshold.None? || percent.None? {
        return Err(Internal);
      }
      r := DebitFuel(user, req, FuelTerms(threshold.value, percent.value), actor);
    }

    /** POST a fuel redemption as written: the settings query selects only
        setting_value, and the lookup by key then finds nothing. */
    method RedeemFuelAsWritten(req: FuelRequest, actor: Actor) returns (r: Result<FuelReceipt>)
      requires IsStaff(actor.role)
      modifies this
      ensures (Tables(), r) == Rewards.RedeemFuelAsWritten(old(Tables()), req, actor)
    {
      if req.mobile !in users {
        return Err(CustomerNotFound);
      }
      var user := users[req.mobile].id;
      var rows := SelectValues(settings, FuelKeys);
      var threshold := Find(rows, ThresholdKey);
      var percent := Find(rows, DiscountPercentKey);
      if threshold.None? || percent.None? {
        return Err(Internal);
      }
      // The rows carry no keys, so the lookups above always fail and the
      // threshold check, debit and redemption insert are never reached.
      assert false;
    }

    /** POST a product redemption for the authenticated user, whatever its role. */
    method RedeemProduct(actor: Actor, productId: ProductId) returns (r: Result<ProductReceipt>)
      modifies this
      ensures (Tables(), r) == Rewards.RedeemProduct(old(Tables()), actor.id, productId)
      ensures old(Valid()) ==> Valid()
      ensures old(Consistent() && PricesNonNegative(products)) ==> Consistent()
    {
      ghost var db := Tables();
      var user := actor.id;
      RedeemProductKeepsValid(db, user, productId);
      if PricesNonNegative(db.products) {
        RedeemProductKeepsConsistent(db, user, productId);
      }
      if productId !in products || !products[productId].active {
        return Err(ProductUnavailable);
      }
      var p := products[productId];
      if p.stock <= 0 {
        return Err(OutOfStock);
      }
      if user !in wallets {
        return Err(Internal);
      }
      var available := wallets[user].available;
      if available < p.pointsRequired {
        return Err(InsufficientPoints(p.pointsRequired, available));
      }
      var w := wallets[user];
      wallets := wallets[user := Wallet(w.total, w.redeemed + p.pointsRequired, w.available - p.pointsRequired)];
      products := products[productId := p.(stock := p.stock - 1)];
      redemptions := redemptions + [ProductRedemption(user, productId, p.pointsRequired, user)];
      r := Ok(ProductReceipt(p.name, p.pointsRequired, available - p.pointsRequired));
    }
  }
}
