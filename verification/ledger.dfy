/** The invariants of the ledger database and the customer-creating steps
    that the handlers share. */
module Ledger {
  import opened Records
  import opened WalletLedger

  predicate BillNumbersUnique(bills: seq<Bill>) {
    forall i, j :: 0 <= i < j < |bills| ==> bills[i].billNo != bills[j].billNo
  }

  /** Whether inserting a bill with this number violates the unique key. */
  predicate BillNumberTaken(bills: seq<Bill>, billNo: string) {
    exists i :: 0 <= i < |bills| && bills[i].billNo == billNo
  }

  /** Among unique bill numbers, a new bill keeps them unique exactly when
      its number is not taken: the unique key refuses exactly the taken ones. */
  lemma UniqueKeyRefuses(bills: seq<Bill>, b: Bill)
    requires BillNumbersUnique(bills)
    ensures BillNumbersUnique(bills + [b]) <==> !BillNumberTaken(bills, b.billNo)
  {
    var all := bills + [b];
    assert forall i :: 0 <= i < |bills| ==> all[i] == bills[i];
    if BillNumberTaken(bills, b.billNo) {
      var i :| 0 <= i < |bills| && bills[i].billNo == b.billNo;
      assert all[i].billNo == all[|bills|].billNo;
    }
  }

  ghost predicate UserIdsBelow(users: map<string, User>, next: UserId) {
    forall m :: m in users ==> users[m].id < next
  }

  ghost predicate UserIdsDistinct(users: map<string, User>) {
    forall m, n :: m in users && n in users && m != n ==> users[m].id != users[n].id
  }

  ghost predicate WalletIdsBelow(wallets: map<UserId, Wallet>, next: UserId) {
    forall u :: u in wallets ==> u < next
  }

  ghost predicate BillOwnersBelow(bills: seq<Bill>, next: UserId) {
    forall i :: 0 <= i < |bills| ==> bills[i].userId < next
  }

  ghost predicate RedemptionOwnersBelow(redemptions: seq<Redemption>, next: UserId) {
    forall i :: 0 <= i < |redemptions| ==> redemptions[i].userId < next
  }

  /** What the schema itself guarantees: every id in use is below the
      auto-increment counter, one user per id, one bill per bill number. */
  ghost predicate Valid(db: Db) {
    && UserIdsBelow(db.users, db.nextUserId)
    && UserIdsDistinct(db.users)
    && WalletIdsBelow(db.wallets, db.nextUserId)
    && BillOwnersBelow(db.bills, db.nextUserId)
    && RedemptionOwnersBelow(db.redemptions, db.nextUserId)
    && BillNumbersUnique(db.bills)
  }

  /** Inserting a bill of an existing id under an unused number keeps the schema guarantees. */
  lemma {:induction false} AppendBillKeepsValid(db: Db, b: Bill)
    requires Valid(db) && b.userId < db.nextUserId && !BillNumberTaken(db.bills, b.billNo)
    ensures Valid(db.(bills := db.bills + [b]))
  {
    var bills := db.bills + [b];
    assert forall i :: 0 <= i < |db.bills| ==> bills[i] == db.bills[i];
    assert BillNumbersUnique(bills);
  }

  /** Appending a redemption of an existing wallet's user keeps the schema guarantees. */
  lemma {:induction false} AppendRedemptionKeepsValid(db: Db, x: Redemption)
    requires Valid(db) && x.userId in db.wallets
    ensures Valid(db.(redemptions := db.redemptions + [x]))
  {
    var redemptions := db.redemptions + [x];
    assert forall i :: 0 <= i < |db.redemptions| ==> redemptions[i] == db.redemptions[i];
  }

  ghost predicate StockNonNegative(products: map<ProductId, Product>) {
    forall p :: p in products ==> products[p].stock >= 0
  }

  /** The ledger invariants every committed handler keeps: each wallet obeys
      available == total - redeemed with no negative balance, each wallet's
      totals are exactly what its user's bills earned and redemptions spent,
      and no product's stock is negative. */
  ghost predicate Consistent(db: Db) {
    && Valid(db)
    && Balanced(db.wallets)
    && Accounted(db.wallets, db.bills, db.redemptions)
    && StockNonNegative(db.products)
  }

  /** The database a fresh deployment starts from: the configured settings
      and catalog, no customers yet. A fixture of the model: the deployment
      scripts that create it are not part of this model. */
  function InitialDb(settings: seq<Setting>, catalog: map<ProductId, Product>): (db: Db)
    ensures Valid(db)
    ensures StockNonNegative(catalog) ==> Consistent(db)
  {
    Db(map[], map[], [], catalog, [], settings, 1)
  }

  /** Get-or-create customer: a known mobile resolves to its user and writes
      nothing; an unknown one inserts a customer under the next id, with a
      zeroed wallet. */
  function ResolveCustomer(db: Db, mobile: string): (out: (UserId, Db))
    ensures mobile in out.1.users && out.1.users[mobile].id == out.0
    ensures mobile in db.users ==> out.1 == db
    ensures mobile !in db.users ==>
              && out.0 == db.nextUserId
              && out.1.users == db.users[mobile := User(out.0, Customer)]
              && out.1.wallets == db.wallets[out.0 := ZeroWallet]
              && out.1.nextUserId == db.nextUserId + 1
              && out.1.bills == db.bills && out.1.redemptions == db.redemptions
              && out.1.products == db.products && out.1.settings == db.settings
  {
    if mobile in db.users then (db.users[mobile].id, db)
    else
      var id := db.nextUserId;
      (id, db.(users := db.users[mobile := User(id, Customer)],
               wallets := db.wallets[id := ZeroWallet],
               nextUserId := id + 1))
  }

  /** A customer created by resolution gets an id that no wallet, bill or
      redemption uses yet. */
  lemma FreshCustomerId(db: Db, mobile: string)
    requires Valid(db) && mobile !in db.users
    ensures var id := ResolveCustomer(db, mobile).0;
            && id !in db.wallets
            && (forall i :: 0 <= i < |db.bills| ==> db.bills[i].userId != id)
            && (forall i :: 0 <= i < |db.redemptions| ==> db.redemptions[i].userId != id)
  {
  }

  /** Resolving a customer keeps the schema guarantees. */
  lemma ResolveCustomerKeepsValid(db: Db, mobile: string)
    requires Valid(db)
    ensures Valid(ResolveCustomer(db, mobile).1)
  {
    if mobile !in db.users {
      var id := db.nextUserId;
      var users := db.users[mobile := User(id, Customer)];
      forall m, n | m in users && n in users && m != n
        ensures users[m].id != users[n].id
      {
        if m != mobile && n != mobile {
          assert users[m] == db.users[m] && users[n] == db.users[n];
        }
      }
      assert UserIdsDistinct(users);
    }
  }

  /** Resolving a customer keeps the ledger invariants: a new customer's
      zeroed wallet matches the empty history of its fresh id. */
  lemma ResolveCustomerKeepsConsistent(db: Db, mobile: string)
    ensures Consistent(db) ==> Consistent(ResolveCustomer(db, mobile).1)
  {
    if Consistent(db) && mobile !in db.users {
      ResolveCustomerKeepsValid(db, mobile);
      FreshCustomerId(db, mobile);
      EarnedByNewcomer(db.bills, db.nextUserId);
      SpentByNewcomer(db.redemptions, db.nextUserId);
      OpenWallet(db.wallets, db.bills, db.redemptions, db.nextUserId);
      BalancedAfterUpdate(db.wallets, db.nextUserId, ZeroWallet);
    }
  }

  /** The OTP request's customer creation: an unknown mobile becomes a
      customer WITHOUT a wallet row. */
  function RegisterForOtp(db: Db, mobile: string): (db': Db)
    ensures mobile in db'.users
    ensures mobile in db.users ==> db' == db
    ensures mobile !in db.users ==>
              db' == db.(users := db.users[mobile := User(db.nextUserId, Customer)], nextUserId := db.nextUserId + 1)
    ensures Valid(db) && mobile !in db.users ==> db'.users[mobile].id !in db'.wallets
  {
    if mobile in db.users then db
    else db.(users := db.users[mobile := User(db.nextUserId, Customer)], nextUserId := db.nextUserId + 1)
  }

  /** Registering for an OTP keeps the schema guarantees and the ledger invariants. */
  lemma RegisterForOtpPreserves(db: Db, mobile: string)
    requires Valid(db)
    ensures Valid(RegisterForOtp(db, mobile))
    ensures Consistent(db) ==> Consistent(RegisterForOtp(db, mobile))
  {
  }
}
