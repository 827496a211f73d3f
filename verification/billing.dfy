/** Bill ingestion: recording a purchase and crediting its points, as one
    transaction. */
module Billing {
  import opened Records
  import opened PointsPolicy
  import opened Settings
  import opened WalletLedger
  import opened Ledger

  /** The bills row inserted for a request on behalf of `user`. */
  function BillFor(req: BillRequest, user: UserId, actor: Actor): (b: Bill)
    ensures b.billNo == req.billNo && b.userId == user && b.createdBy == actor.id
    ensures b.pointsEarned == CalculatePoints(req.amount, req.fuelType, req.density)
  {
    Bill(req.billNo, user, req.mobile, req.fuelType, req.quantity, req.amount, req.density,
         CalculatePoints(req.amount, req.fuelType, req.density), actor.id)
  }

  /** Whether the configured minimum purchase is readable and the amount meets it. */
  predicate Admitted(db: Db, amount: nat) {
    SettingOf(db.settings, MinPurchaseKey).Some? && amount >= SettingOf(db.settings, MinPurchaseKey).value
  }

  /** Admission compares the amount with the first configured minimum row. */
  lemma MinimumRowDecidesAdmission(db: Db, amount: nat, i: nat)
    requires i < |db.settings| && db.settings[i].key == MinPurchaseKey
    requires forall j :: 0 <= j < i ==> db.settings[j].key != MinPurchaseKey
    ensures Admitted(db, amount) <==> amount >= db.settings[i].value
  {
    SettingIsFirstRow(db.settings, MinPurchaseKey, i);
  }

  /** The bill-creation handler as one transition: the database it commits
      and the reply. The minimum is checked before the transaction opens; a
      duplicate bill number rolls back the customer it may have created; a
      customer without a wallet gets its bill committed with no credit, and
      then an internal error when the balance is read back. */
  function CreateBill(db: Db, req: BillRequest, actor: Actor): (out: (Db, Result<BillReceipt>))
    ensures out.0.products == db.products && out.0.redemptions == db.redemptions
    ensures out.0.settings == db.settings
    ensures out.1.Err? && out.1.error != Internal ==> out.0 == db
  {
    match SettingOf(db.settings, MinPurchaseKey)
    case None => (db, Err(Internal))
    case Some(minimum) =>
      if req.amount < minimum then (db, Err(BelowMinimumPurchase(minimum)))
      else
        var (user, db1) := ResolveCustomer(db, req.mobile);
        if BillNumberTaken(db1.bills, req.billNo) then (db, Err(DuplicateBillNumber))
        else PostBill(db1, BillFor(req, user, actor))
  }

  /** Inside the transaction, once the customer is resolved: insert the bill,
      credit its points to the customer's wallet, and read the balance back.
      With no wallet row the credit updates nothing and the read-back fails. */
  function PostBill(db: Db, bill: Bill): (out: (Db, Result<BillReceipt>))
    ensures out.0.bills == db.bills + [bill]
    ensures out.0.users == db.users && out.0.nextUserId == db.nextUserId
    ensures out.0.products == db.products && out.0.redemptions == db.redemptions
    ensures out.0.settings == db.settings
    ensures bill.userId in db.wallets ==>
              && out.0.wallets == db.wallets[bill.userId := Credit(db.wallets[bill.userId], bill.pointsEarned)]
              && out.1 == Ok(BillReceipt(bill.billNo, bill.pointsEarned, out.0.wallets[bill.userId].available))
    ensures bill.userId !in db.wallets ==> out.0.wallets == db.wallets && out.1 == Err(Internal)
  {
    var db2 := db.(bills := db.bills + [bill]);
    if bill.userId in db2.wallets then
      var w := Credit(db2.wallets[bill.userId], bill.pointsEarned);
      (db2.(wallets := db2.wallets[bill.userId := w]), Ok(BillReceipt(bill.billNo, bill.pointsEarned, w.available)))
    else
      (db2, Err(Internal))
  }

  /** An admitted amount under a new bill number goes on to resolve the
      customer and post the bill for it. */
  lemma AcceptedBillPosts(db: Db, req: BillRequest, actor: Actor)
    requires Admitted(db, req.amount) && !BillNumberTaken(db.bills, req.billNo)
    ensures var (user, db1) := ResolveCustomer(db, req.mobile);
            CreateBill(db, req, actor) == PostBill(db1, BillFor(req, user, actor))
  {
    var minimum := SettingOf(db.settings, MinPurchaseKey).value;
    assert !(req.amount < minimum);
    var (user, db1) := ResolveCustomer(db, req.mobile);
    assert db1.bills == db.bills;
    assert !BillNumberTaken(db1.bills, req.billNo);
  }

  /** The rejections, in the order the handler makes them: a missing minimum
      is an internal error, an amount below it is refused with the minimum, a
      bill number already recorded is refused; each writes nothing. */
  lemma CreateBillRejects(db: Db, req: BillRequest, actor: Actor)
    ensures SettingOf(db.settings, MinPurchaseKey) == None ==> CreateBill(db, req, actor) == (db, Err(Internal))
    ensures var min := SettingOf(db.settings, MinPurchaseKey);
            min.Some? && req.amount < min.value ==>
              CreateBill(db, req, actor) == (db, Err(BelowMinimumPurchase(min.value)))
    ensures Admitted(db, req.amount) && BillNumberTaken(db.bills, req.billNo) ==>
              CreateBill(db, req, actor) == (db, Err(DuplicateBillNumber))
  {
    if Admitted(db, req.amount) {
      var (user, db1) := ResolveCustomer(db, req.mobile);
      assert db1.bills == db.bills;
    }
  }

  /** A bill is accepted exactly when the amount is admitted, its number is
      new and its customer ends up with a wallet; then it is appended, the
      mobile is a customer, and the reply carries the points earned and the
      stored available balance. */
  lemma CreateBillAccepts(db: Db, req: BillRequest, actor: Actor)
    ensures var out := CreateBill(db, req, actor);
            out.1.Ok? <==>
              && Admitted(db, req.amount) && !BillNumberTaken(db.bills, req.billNo)
              && ResolveCustomer(db, req.mobile).0 in ResolveCustomer(db, req.mobile).1.wallets
    ensures var out := CreateBill(db, req, actor);
            out.1.Ok? ==>
              && req.mobile in out.0.users
              && var user := out.0.users[req.mobile].id;
              && out.0.bills == db.bills + [BillFor(req, user, actor)]
              && user in out.0.wallets
              && out.1.value == BillReceipt(req.billNo, CalculatePoints(req.amount, req.fuelType, req.density),
                                            out.0.wallets[user].available)
  {
    if Admitted(db, req.amount) {
      var (user, db1) := ResolveCustomer(db, req.mobile);
      assert db1.bills == db.bills;
      if !BillNumberTaken(db.bills, req.billNo) {
        AcceptedBillPosts(db, req, actor);
      }
    }
  }

  /** An unknown mobile gets exactly one new customer, under the next id, and
      one wallet holding just this bill's points; the reply reports them. */
  lemma FirstBillOpensAccount(db: Db, req: BillRequest, actor: Actor)
    requires Admitted(db, req.amount) && !BillNumberTaken(db.bills, req.billNo)
    requires req.mobile !in db.users
    ensures var out := CreateBill(db, req, actor);
            var points := CalculatePoints(req.amount, req.fuelType, req.density);
            var id := db.nextUserId;
            && out.0.users == db.users[req.mobile := User(id, Customer)]
            && out.0.nextUserId == id + 1
            && out.0.wallets == db.wallets[id := Wallet(points, 0, points)]
            && out.0.bills == db.bills + [BillFor(req, id, actor)]
            && out.1 == Ok(BillReceipt(req.billNo, points, points))
  {
    var id := db.nextUserId;
    var db1 := ResolveCustomer(db, req.mobile).1;
    assert ResolveCustomer(db, req.mobile).0 == id;
    AcceptedBillPosts(db, req, actor);
    CreditOpenedWallet(db.wallets, id, CalculatePoints(req.amount, req.fuelType, req.density));
  }

  /** A known mobile with a wallet reuses its id and creates nothing; only its
      own wallet changes, by exactly the points earned, and the reply reports
      the old available balance plus those points. */
  lemma RepeatBillCredits(db: Db, req: BillRequest, actor: Actor)
    requires Admitted(db, req.amount) && !BillNumberTaken(db.bills, req.billNo)
    requires req.mobile in db.users && db.users[req.mobile].id in db.wallets
    ensures var points := CalculatePoints(req.amount, req.fuelType, req.density);
            var id := db.users[req.mobile].id;
            var w := db.wallets[id];
            && CreateBill(db, req, actor).0 ==
                 db.(wallets := db.wallets[id := Wallet(w.total + points, w.redeemed, w.available + points)],
                     bills := db.bills + [BillFor(req, id, actor)])
            && CreateBill(db, req, actor).1 == Ok(BillReceipt(req.billNo, points, w.available + points))
  {
    var (user, db1) := ResolveCustomer(db, req.mobile);
    AcceptedBillPosts(db, req, actor);
  }

  /** A known mobile without a wallet (a customer created by an OTP request)
      gets its bill committed and credited nowhere, and the handler then fails. */
  lemma WalletlessBillCommitted(db: Db, req: BillRequest, actor: Actor)
    requires Admitted(db, req.amount) && !BillNumberTaken(db.bills, req.billNo)
    requires req.mobile in db.users && db.users[req.mobile].id !in db.wallets
    ensures CreateBill(db, req, actor) ==
              (db.(bills := db.bills + [BillFor(req, db.users[req.mobile].id, actor)]), Err(Internal))
  {
    var (user, db1) := ResolveCustomer(db, req.mobile);
    AcceptedBillPosts(db, req, actor);
  }

  /** Posting a bill of an existing id under an unused number keeps the schema guarantees. */
  lemma PostBillKeepsValid(db: Db, bill: Bill)
    requires bill.userId < db.nextUserId && !BillNumberTaken(db.bills, bill.billNo)
    ensures Valid(db) ==> Valid(PostBill(db, bill).0)
  {
    if Valid(db) {
      AppendBillKeepsValid(db, bill);
    }
  }

  /** An admitted bill under a new number keeps the schema guarantees. */
  lemma AcceptedBillKeepsValid(db: Db, req: BillRequest, actor: Actor)
    requires Admitted(db, req.amount) && !BillNumberTaken(db.bills, req.billNo)
    ensures Valid(db) ==> Valid(CreateBill(db, req, actor).0)
  {
    var (user, db1) := ResolveCustomer(db, req.mobile);
    var bill := BillFor(req, user, actor);
    AcceptedBillPosts(db, req, actor);
    if Valid(db) {
      ResolveCustomerKeepsValid(db, req.mobile);
      PostBillKeepsValid(db1, bill);
    }
  }

  /** Bill creation keeps the schema guarantees, bill numbers unique among them. */
  lemma CreateBillKeepsValid(db: Db, req: BillRequest, actor: Actor)
    requires Valid(db)
    ensures Valid(CreateBill(db, req, actor).0)
  {
    if Admitted(db, req.amount) && !BillNumberTaken(db.bills, req.billNo) {
      AcceptedBillKeepsValid(db, req, actor);
    } else {
      CreateBillRejects(db, req, actor);
    }
  }

  /** Posting a bill of an existing id under an unused number keeps the ledger invariants. */
  lemma PostBillKeepsConsistent(db: Db, bill: Bill)
    requires bill.userId < db.nextUserId && !BillNumberTaken(db.bills, bill.billNo)
    ensures Consistent(db) ==> Consistent(PostBill(db, bill).0)
  {
    if Consistent(db) {
      AppendBillKeepsValid(db, bill);
      if bill.userId in db.wallets {
        BalancedAfterUpdate(db.wallets, bill.userId, Credit(db.wallets[bill.userId], bill.pointsEarned));
        RecordBill(db.wallets, db.bills, db.redemptions, bill);
      } else {
        RecordUncreditedBill(db.wallets, db.bills, db.redemptions, bill);
      }
    }
  }

  /** Bill creation keeps the ledger invariants, on every path. */
  lemma CreateBillKeepsConsistent(db: Db, req: BillRequest, actor: Actor)
    requires Consistent(db)
    ensures Consistent(CreateBill(db, req, actor).0)
  {
    if Admitted(db, req.amount) && !BillNumberTaken(db.bills, req.billNo) {
      AcceptedBillKeepsConsistent(db, req, actor);
    } else {
      CreateBillRejects(db, req, actor);
    }
  }

  /** An admitted bill under a new number keeps the ledger invariants. */
  lemma AcceptedBillKeepsConsistent(db: Db, req: BillRequest, actor: Actor)
    requires Admitted(db, req.amount) && !BillNumberTaken(db.bills, req.billNo)
    ensures Consistent(db) ==> Consistent(CreateBill(db, req, actor).0)
  {
    var (user, db1) := ResolveCustomer(db, req.mobile);
    var bill := BillFor(req, user, actor);
    AcceptedBillPosts(db, req, actor);
    if Consistent(db) {
      ResolveCustomerKeepsConsistent(db, req.mobile);
      PostBillKeepsConsistent(db1, bill);
    }
  }
}
