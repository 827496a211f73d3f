/** Runs of several handlers in a row: how an OTP sign-up leaves a customer
    whose bills are never credited, and a first bill followed by a fuel
    redemption with concrete settings. */
module Scenarios {
  import opened Records
  import opened PointsPolicy
  import opened Settings
  import opened WalletLedger
  import opened Ledger
  import opened Billing
  import opened Rewards

  /** A customer created by an OTP request has no wallet: its first bill is
      committed, credited nowhere, answered with an internal error, and the
      wallet lookup then reports zero points although the bills hold what it
      earned. */
  lemma OtpCustomerBillUncredited(db: Db, req: BillRequest, actor: Actor)
    requires Valid(db) && req.mobile !in db.users
    requires Admitted(db, req.amount) && !BillNumberTaken(db.bills, req.billNo)
    ensures var signedUp := RegisterForOtp(db, req.mobile);
            var id := db.nextUserId;
            var out := CreateBill(signedUp, req, actor);
            && out == (signedUp.(bills := db.bills + [BillFor(req, id, actor)]), Err(Internal))
            && WalletOf(out.0, req.mobile) == Ok(ZeroWallet)
            && PointsEarnedBy(out.0.bills, id) == CalculatePoints(req.amount, req.fuelType, req.density)
  {
    var signedUp := RegisterForOtp(db, req.mobile);
    var id := db.nextUserId;
    assert Admitted(signedUp, req.amount);
    WalletlessBillCommitted(signedUp, req, actor);
    EarnedByNewcomer(db.bills, id);
    EarnedAfterAppend(db.bills, BillFor(req, id, actor), id);
  }

  /** The staff member is itself a users row: a sub-admin, inserted by the
      admin routes with its own mobile and no wallet. */
  const Staff := Actor(1, SubAdmin)
  const Mobile := "9876543210"
  const FirstBill := BillRequest("B-1", Mobile, Diesel, 10.0, 900, None)
  const FuelOrder := FuelRequest(Mobile, "B-2", 1000.0)

  /** A fresh deployment whose only user is the staff member. */
  function Deployed(settings: seq<Setting>, staffMobile: string): Db {
    Db(map[staffMobile := User(1, SubAdmin)], map[], [], map[], [], settings, 2)
  }

  /** The ledger after the first bill: the customer under id 2, holding 5 points. */
  function AfterFirstBill(settings: seq<Setting>, staffMobile: string): Db {
    var db := Deployed(settings, staffMobile);
    db.(users := db.users[Mobile := User(2, Customer)], wallets := map[2 := Wallet(5, 0, 5)],
        bills := [BillFor(FirstBill, 2, Staff)], nextUserId := 3)
  }

  /** With a minimum purchase of 100 rupees, a 900-rupee diesel bill from a
      mobile other than the staff member's opens the customer's account with
      5 points. */
  lemma FirstDieselBill(settings: seq<Setting>, staffMobile: string)
    requires SettingOf(settings, MinPurchaseKey) == Some(100)
    requires staffMobile != Mobile
    ensures CreateBill(Deployed(settings, staffMobile), FirstBill, Staff) ==
              (AfterFirstBill(settings, staffMobile), Ok(BillReceipt("B-1", 5, 5)))
  {
    var db0 := Deployed(settings, staffMobile);
    var b := BillFor(FirstBill, 2, Staff);
    FirstBillAdmitted(settings, staffMobile);
    WorkedValues();
    FirstBillOpensAccount(db0, FirstBill, Staff);
    AppendToEmpty(db0.bills, b);
  }

  /** The first bill meets the minimum, its number is new and its mobile unknown. */
  lemma FirstBillAdmitted(settings: seq<Setting>, staffMobile: string)
    requires SettingOf(settings, MinPurchaseKey) == Some(100)
    requires staffMobile != Mobile
    ensures var db0 := Deployed(settings, staffMobile);
            && Admitted(db0, FirstBill.amount) && !BillNumberTaken(db0.bills, FirstBill.billNo)
            && FirstBill.mobile !in db0.users
  {
  }

  /** With a threshold of 5 points and a 10% discount, redeeming those 5
      points on 1000 rupees of fuel takes all of them and gives 100 rupees
      off; the staff member who redeems is recorded. */
  lemma FuelDiscountAfterFirstBill(settings: seq<Setting>, staffMobile: string)
    requires SettingOf(settings, ThresholdKey) == Some(5)
    requires SettingOf(settings, DiscountPercentKey) == Some(10)
    requires staffMobile != Mobile
    ensures RedeemFuel(AfterFirstBill(settings, staffMobile), FuelOrder, Staff) ==
              (AfterFirstBill(settings, staffMobile).(wallets := map[2 := Wallet(5, 5, 0)],
                                         redemptions := [FuelDiscount(2, 5, 100.0, "B-2", 1)]),
               Ok(FuelReceipt(5, 100.0, 0)))
  {
    var db := AfterFirstBill(settings, staffMobile);
    var x := FuelDiscount(2, 5, 100.0, "B-2", 1);
    assert ConfiguredFuelTerms(settings) == Some(FuelTerms(5, 10));
    assert DiscountAmount(1000.0, 10) == 100.0;
    assert db.users[Mobile].id == 2;
    RedeemFuelAccepts(db, FuelOrder, Staff);
    assert db.wallets[2 := Wallet(5, 5, 0)] == map[2 := Wallet(5, 5, 0)];
    AppendToEmpty(db.redemptions, x);
  }

  /** Appending to an empty table gives the one-row table. */
  lemma AppendToEmpty<T>(s: seq<T>, x: T)
    requires s == []
    ensures s + [x] == [x]
  {
  }

  /** The handler as written refuses the same request and writes nothing. */
  lemma FuelDiscountAsWritten(settings: seq<Setting>, staffMobile: string)
    ensures RedeemFuelAsWritten(AfterFirstBill(settings, staffMobile), FuelOrder, Staff) ==
              (AfterFirstBill(settings, staffMobile), Err(Internal))
  {
    AsWrittenFuelNeverRedeems(AfterFirstBill(settings, staffMobile), FuelOrder, Staff);
  }
}
