/** The rows of the reward ledger's tables (users, reward_wallet, bills,
    products, redemptions, system_settings), the requests and replies of its
    handlers, the errors they report, and the whole database as one value. */
module Records {

  datatype Option<+T> = None | Some(value: T)

  /** Auto-increment primary keys. */
  type UserId = nat
  type ProductId = nat

  datatype Role = Customer | SubAdmin | Admin

  /** The authenticated caller, as the token middleware decodes it. */
  datatype Actor = Actor(id: UserId, role: Role)

  /** The role gate of the staff-only handlers. */
  predicate IsStaff(role: Role) { role == Admin || role == SubAdmin }

  /** A users row, reached through its unique mobile number. */
  datatype User = User(id: UserId, role: Role)

  /** A reward_wallet row. */
  datatype Wallet = Wallet(total: int, redeemed: int, available: int)

  /** A bills row. The amount is in whole rupees and the fuel density in
      thousandths (0.75 is 750); an absent density is None. */
  datatype Bill = Bill(
    billNo: string,
    userId: UserId,
    mobile: string,
    fuelType: string,
    quantity: real,
    amount: nat,
    density: Option<nat>,
    pointsEarned: nat,
    createdBy: UserId)

  /** A products row. Points cost and stock are plain integers: nothing
      that writes the catalog checks their sign. */
  datatype Product = Product(name: string, pointsRequired: int, stock: int, active: bool)

  /** A redemptions row, of one of its two kinds. */
  datatype Redemption =
    | FuelDiscount(userId: UserId, pointsUsed: int, discount: real, billNo: string, createdBy: UserId)
    | ProductRedemption(userId: UserId, productId: ProductId, pointsUsed: int, createdBy: UserId)

  /** A system_settings row, its value already parsed as a number. */
  datatype Setting = Setting(key: string, value: int)

  /** What a handler reports instead of a result. DuplicateBillNumber is the
      unique-key error the bill handler's catch block turns into a 400;
      Internal stands for every other exception that reaches a handler's
      catch block (a 500 reply). */
  datatype Error =
    | BelowMinimumPurchase(minimum: int)
    | CustomerNotFound
    | DuplicateBillNumber
    | BelowRedemptionThreshold(threshold: int)
    | ProductUnavailable
    | OutOfStock
    | InsufficientPoints(required: int, available: int)
    | Internal

  datatype Result<+T> = Ok(value: T) | Err(error: Error)

  datatype BillRequest = BillRequest(
    billNo: string,
    mobile: string,
    fuelType: string,
    quantity: real,
    amount: nat,
    density: Option<nat>)

  /** totalPoints is the wallet's available balance read back after the credit. */
  datatype BillReceipt = BillReceipt(billNo: string, pointsEarned: nat, totalPoints: int)

  datatype FuelRequest = FuelRequest(mobile: string, billNo: string, fuelAmount: real)

  datatype FuelReceipt = FuelReceipt(pointsUsed: int, discount: real, remainingPoints: int)

  datatype ProductReceipt = ProductReceipt(productName: string, pointsUsed: int, remainingPoints: int)

  /** The database: users by mobile, wallets by user id, the bills and
      redemptions tables in insertion order, the catalog, the settings, and
      the next value of the users table's auto-increment counter. */
  datatype Db = Db(
    users: map<string, User>,
    wallets: map<UserId, Wallet>,
    bills: seq<Bill>,
    products: map<ProductId, Product>,
    redemptions: seq<Redemption>,
    settings: seq<Setting>,
    nextUserId: UserId)
}
