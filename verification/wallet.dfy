/** A customer's point balance: the balance equation it must keep, the credit
    and debit that the handlers apply to it, and the audit trail (bills and
    redemptions) that accounts for it. */
module WalletLedger {
  import opened Records

  /** The row a new customer's wallet starts as. */
  const ZeroWallet := Wallet(0, 0, 0)

  /** available == total - redeemed, with neither available nor redeemed negative. */
  predicate WalletOk(w: Wallet) {
    w.available == w.total - w.redeemed && w.available >= 0 && w.redeemed >= 0
  }

  /** `total_points += points, available_points += points`. */
  function Credit(w: Wallet, points: nat): (r: Wallet)
    ensures r.total == w.total + points && r.available == w.available + points
    ensures r.redeemed == w.redeemed
    ensures WalletOk(w) ==> WalletOk(r)
  {
    Wallet(w.total + points, w.redeemed, w.available + points)
  }

  /** A wallet opened at zero and then credited holds exactly the credit. */
  lemma CreditOpenedWallet(wallets: map<UserId, Wallet>, user: UserId, points: nat)
    ensures wallets[user := ZeroWallet][user := Credit(ZeroWallet, points)] == wallets[user := Wallet(points, 0, points)]
  {
  }

  /** `redeemed_points += points, available_points -= points`. The balance
      equation survives any amount; non-negativity needs 0 <= points <= available. */
  function Debit(w: Wallet, points: int): (r: Wallet)
    ensures r.total == w.total
    ensures r.redeemed == w.redeemed + points && r.available == w.available - points
    ensures WalletOk(w) && 0 <= points <= w.available ==> WalletOk(r)
    ensures w.available == w.total - w.redeemed ==> r.available == r.total - r.redeemed
  {
    Wallet(w.total, w.redeemed + points, w.available - points)
  }

  /** The points the bills credit to one user. */
  function PointsEarnedBy(bills: seq<Bill>, user: UserId): nat
  {
    if bills == [] then 0
    else (if bills[0].userId == user then bills[0].pointsEarned else 0) + PointsEarnedBy(bills[1..], user)
  }

  /** The points the redemptions debit from one user. */
  function PointsSpentBy(redemptions: seq<Redemption>, user: UserId): int
  {
    if redemptions == [] then 0
    else (if redemptions[0].userId == user then redemptions[0].pointsUsed else 0) + PointsSpentBy(redemptions[1..], user)
  }

  /** Appending a bill adds its points to its own user's sum and to no other. */
  lemma {:induction false} EarnedAfterAppend(bills: seq<Bill>, b: Bill, user: UserId)
    ensures PointsEarnedBy(bills + [b], user) ==
            PointsEarnedBy(bills, user) + (if b.userId == user then b.pointsEarned else 0)
  {
    if bills != [] {
      assert (bills + [b])[1..] == bills[1..] + [b];
      EarnedAfterAppend(bills[1..], b, user);
    }
  }

  /** Appending a redemption adds its points to its own user's sum and to no other. */
  lemma {:induction false} SpentAfterAppend(redemptions: seq<Redemption>, x: Redemption, user: UserId)
    ensures PointsSpentBy(redemptions + [x], user) ==
            PointsSpentBy(redemptions, user) + (if x.userId == user then x.pointsUsed else 0)
  {
    if redemptions != [] {
      assert (redemptions + [x])[1..] == redemptions[1..] + [x];
      SpentAfterAppend(redemptions[1..], x, user);
    }
  }

  /** A user who owns no bill has earned nothing. */
  lemma {:induction false} EarnedByNewcomer(bills: seq<Bill>, user: UserId)
    requires forall i :: 0 <= i < |bills| ==> bills[i].userId != user
    ensures PointsEarnedBy(bills, user) == 0
  {
    if bills != [] {
      EarnedByNewcomer(bills[1..], user);
    }
  }

  /** A user who owns no redemption has spent nothing. */
  lemma {:induction false} SpentByNewcomer(redemptions: seq<Redemption>, user: UserId)
    requires forall i :: 0 <= i < |redemptions| ==> redemptions[i].userId != user
    ensures PointsSpentBy(redemptions, user) == 0
  {
    if redemptions != [] {
      SpentByNewcomer(redemptions[1..], user);
    }
  }

  /** Every wallet keeps the balance equation and non-negativity. */
  ghost predicate Balanced(wallets: map<UserId, Wallet>) {
    forall u :: u in wallets ==> WalletOk(wallets[u])
  }

  /** Every wallet's totals are exactly what its user's bills earned and its
      user's redemptions spent. */
  ghost predicate Accounted(wallets: map<UserId, Wallet>, bills: seq<Bill>, redemptions: seq<Redemption>) {
    forall u :: u in wallets ==>
      wallets[u].total == PointsEarnedBy(bills, u) && wallets[u].redeemed == PointsSpentBy(redemptions, u)
  }

  /** Replacing one wallet by a wallet that keeps the balance equation and
      non-negativity keeps every wallet balanced. */
  lemma {:induction false} BalancedAfterUpdate(wallets: map<UserId, Wallet>, user: UserId, w: Wallet)
    requires Balanced(wallets) && WalletOk(w)
    ensures Balanced(wallets[user := w])
  {
  }

  /** Opening a zeroed wallet for a user with nothing earned or spent keeps
      every wallet accounted for. */
  lemma {:induction false} OpenWallet(wallets: map<UserId, Wallet>, bills: seq<Bill>, redemptions: seq<Redemption>, user: UserId)
    requires Accounted(wallets, bills, redemptions)
    requires PointsEarnedBy(bills, user) == 0 && PointsSpentBy(redemptions, user) == 0
    ensures Accounted(wallets[user := ZeroWallet], bills, redemptions)
  {
  }

  /** Recording a bill and crediting its points to its user's wallet keeps
      every wallet accounted for. */
  lemma {:induction false} RecordBill(wallets: map<UserId, Wallet>, bills: seq<Bill>, redemptions: seq<Redemption>, b: Bill)
    requires Accounted(wallets, bills, redemptions)
    requires b.userId in wallets
    ensures Accounted(wallets[b.userId := Credit(wallets[b.userId], b.pointsEarned)], bills + [b], redemptions)
  {
    forall u | u in wallets {
      EarnedAfterAppend(bills, b, u);
    }
  }

  /** Recording a bill for a user without a wallet, and crediting nothing,
      keeps every wallet accounted for. */
  lemma {:induction false} RecordUncreditedBill(wallets: map<UserId, Wallet>, bills: seq<Bill>, redemptions: seq<Redemption>, b: Bill)
    requires Accounted(wallets, bills, redemptions)
    requires b.userId !in wallets
    ensures Accounted(wallets, bills + [b], redemptions)
  {
    forall u | u in wallets {
      EarnedAfterAppend(bills, b, u);
    }
  }

  /** Recording a redemption and debiting its points from its user's wallet
      keeps every wallet accounted for. */
  lemma {:induction false} RecordRedemption(wallets: map<UserId, Wallet>, bills: seq<Bill>, redemptions: seq<Redemption>, x: Redemption)
    requires Accounted(wallets, bills, redemptions)
    requires x.userId in wallets
    ensures Accounted(wallets[x.userId := Debit(wallets[x.userId], x.pointsUsed)], bills, redemptions + [x])
  {
    forall u | u in wallets {
      SpentAfterAppend(redemptions, x, u);
    }
  }
}
