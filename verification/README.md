# Fuel rewards ledger

The core of a fuel-station loyalty program has three parts:

- **Points policy.** Each purchase earns reward points.
- **Bill ingestion.** Staff record a bill. This creates the customer and a zeroed wallet if the mobile number is new, stores the bill under its unique bill number and credits the points to the wallet, all in one transaction.
- **Redemption.** Staff redeem a customer's points for a fuel discount, or a customer redeems them for a catalog product. Either way the wallet is debited and a redemption is recorded, in one transaction. A read-only lookup reports a customer's wallet.

The model has three layers:

- **Values.** `records.dfy` holds the tables as datatypes, and the whole database is one `Db` value.
- **Transitions.** Each handler is a pure function from the database before the call to the pair (database after the call, reply). These live in `billing.dfy` and `rewards.dfy`. They are built from:
  - the points rule (`points.dfy`);
  - the two shapes of settings query (`settings.dfy`);
  - the wallet credit and debit (`wallet.dfy`);
  - customer resolution (`ledger.dfy`).
- **Imperative store.** In `store.dfy` the same handlers are methods of a `Store` class whose fields are the tables. The methods update those fields one statement at a time and restore the saved fields on rollback. Each method ends in exactly the state and reply of its transition function.

The invariants every handler keeps are:

- `Ledger.Valid`: what the schema guarantees, plus the model's assumption that a mobile belongs to at most one user (see "## Left out"). Ids stay below the auto-increment counter, mobiles map to distinct users, and bill numbers are unique.
- `Ledger.Consistent`:
  - every wallet satisfies available == total − redeemed, with neither available nor redeemed negative;
  - every wallet's total is what its user's bills earned, and its redeemed count is what its user's redemptions spent;
  - no product's stock is negative.

The model follows the code as written, including these behaviours:

- Two routes create a user with a mobile and no wallet row:
  - an OTP request for an unknown mobile creates a customer (routes/auth.js:24-29);
  - the admin route creates a sub-admin (routes/admin.js:89-92).

  A bill for such a mobile is committed without credit, and the handler then fails while reading the balance back (`Billing.WalletlessBillCommitted`, `Scenarios.OtpCustomerBillUncredited`). A fuel redemption for such a user fails with an internal error and writes nothing. A product redemption by such a user is first checked for an active, in-stock product, and only then fails with an internal error; it writes nothing either way (`Rewards.RedeemProductRejects`).
- The fuel redemption handler as written never succeeds (see Findings).
- Nothing in the code forbids a negative redemption threshold or product price. The invariant lemmas for the redemptions therefore assume non-negative values (`Rewards.ThresholdNonNegative`, `Rewards.PricesNonNegative`).
- `Ledger.Consistent` is kept by the modelled handlers only. The catalog and settings routes are not modelled and can break it:
  - product creation and update write `points_required`, `stock_quantity` and `is_active` unchecked (routes/products.js:40-46, 63-77), so stock can be negative;
  - the settings update writes any value (routes/admin.js:109-114).
- The reported `remaining_points` is computed from the balance read before the debit. In this sequential model it equals the stored balance after the debit (`Rewards.RedeemFuelAccepts`, `Rewards.RedeemProductAccepts`).

Modelling choices:

- Amounts are whole rupees and densities are thousandths: a density of 0.75 is 750, and an absent or zero density earns no bonus.
- Setting values are already parsed integers.
- A duplicate bill number, which reaches the bill handler's catch block as a unique-key error, is the error `DuplicateBillNumber`. Every other exception that reaches a handler's catch block is the error `Internal`.
- The role check that guards bill creation and fuel redemption (admin or sub-admin only) is a precondition of the `Store` methods.

## Model

| member | source | states |
|---|---|---|
| PointsPolicy.CalculatePoints | utils/rewards.js:3-23 | below 300 rupees the result is 0; from 300 it is at least 1; it is never below floor(amount/300) |
| PointsPolicy.PetrolPoints | utils/rewards.js:7-12 | petrol earns base + floor(base/5) with a present, non-zero density of at least 0.75, and exactly base otherwise |
| PointsPolicy.DieselPoints | utils/rewards.js:14-19 | diesel earns base + 2 from 500 rupees and exactly base below |
| PointsPolicy.OtherFuelPoints | utils/rewards.js:5-22 | any other fuel type earns exactly floor(amount/300), whatever the density |
| PointsPolicy.WorkedValues | utils/rewards.js:3-23 | 299 diesel → 0, 300 regular → 1, 600 petrol at 0.80 → 2, 500 diesel → 3, 900 diesel → 5 |
| Settings.SettingOf | routes/bills.js:16-19 | a found value is stored under its key in some row; a missing one means no row has the key |
| Settings.SettingIsFirstRow | routes/bills.js:16-19 | the configured value is that of the first row carrying the key, as `settings[0]` reads it |
| Settings.Find | routes/rewards.js:58-59 | the lookup by key finds nothing exactly when no row carries the key; otherwise it gives the value of the first row carrying it |
| Settings.FuelTermsFrom | routes/rewards.js:58-59 | the threshold and percentage are found exactly when some row carries each key, and each is then the value of a row carrying its key |
| Settings.SelectValues | routes/rewards.js:54-56 | a query selecting only setting_value returns rows that carry no key, and no more rows than the table |
| Settings.SelectKeyed | routes/rewards.js:54-56 | a query that also selects setting_key returns rows whose keys are among those asked for |
| Settings.FirstSelectedValue | routes/bills.js:16-19 | the minimum-purchase query returns no row exactly when the key is not configured; otherwise its first row holds the configured value |
| Settings.FindAmongKeylessRows | routes/rewards.js:58-59 | looking a key up among rows without keys always finds nothing |
| Settings.FindAmongKeyedRows | routes/rewards.js:58-59 | looking a selected key up among keyed rows gives exactly its configured value |
| Settings.ConfiguredFuelTerms | routes/rewards.js:54-59 | the fuel terms exist exactly when both the threshold and the discount percentage are configured |
| Settings.AsWrittenFuelTermsMissing | routes/rewards.js:54-59 | with the query as written the fuel terms are never found, whatever the table holds |
| Settings.KeyedFuelTerms | routes/rewards.js:54-59 | with setting_key selected too, the terms found are exactly the configured ones |
| WalletLedger.Credit | routes/bills.js:63-69 | total and available both rise by the points and redeemed is unchanged, so a balanced wallet stays balanced |
| WalletLedger.Debit | routes/rewards.js:72-78 | redeemed rises and available falls by the points while total is unchanged; available == total − redeemed survives any amount; non-negativity survives an amount between 0 and available |
| WalletLedger.OpenWallet | routes/bills.js:43-47 | a zeroed wallet for a user with no bills and no redemptions keeps every wallet accounted for by its history |
| WalletLedger.RecordBill | routes/bills.js:55-69 | storing a bill and crediting its points to its user's wallet keeps every wallet accounted for |
| WalletLedger.RecordUncreditedBill | routes/bills.js:55-69 | storing a bill whose user has no wallet, and crediting nothing, keeps every wallet accounted for |
| WalletLedger.RecordRedemption | routes/rewards.js:71-85 | debiting a wallet and recording the redemption keeps every wallet accounted for |
| Ledger.AppendBillKeepsValid | routes/bills.js:55-60 | inserting a bill under an unused number, for an existing id, keeps bill numbers unique and ids in range |
| Ledger.AppendRedemptionKeepsValid | routes/rewards.js:80-85 | inserting a redemption for a user with a wallet keeps the schema guarantees |
| Ledger.UniqueKeyRefuses | routes/bills.js:56-60 | `Ledger.BillNumberTaken` is the unique key on bill_no: among unique bill numbers, a new bill keeps them unique exactly when its number is not taken |
| Ledger.ResolveCustomer | routes/bills.js:29-50 | a known mobile resolves to its own id and writes nothing; an unknown one adds exactly one customer-role user under the next id and one zeroed wallet, and changes nothing else |
| Ledger.FreshCustomerId | routes/bills.js:37-41 | a newly created customer's id has no wallet, bill or redemption yet |
| Ledger.ResolveCustomerKeepsValid | routes/bills.js:29-50 | resolving a customer keeps the schema guarantees |
| Ledger.ResolveCustomerKeepsConsistent | routes/bills.js:36-47 | resolving a customer keeps the ledger invariants |
| Ledger.RegisterForOtp | routes/auth.js:21-29 | an OTP request for an unknown mobile adds a customer under the next id with no wallet row; a known mobile changes nothing |
| Ledger.RegisterForOtpPreserves | routes/auth.js:24-29 | the OTP sign-up keeps the schema guarantees and the ledger invariants |
| Billing.BillFor | routes/bills.js:52-60 | the stored bill carries the request's bill number, the resolved user, the creating staff member, and points_earned equal to the points policy's result |
| Billing.MinimumRowDecidesAdmission | routes/bills.js:16-21 | `Billing.Admitted` compares the amount with the first min_purchase_amount row: admitted exactly when the amount is at least that row's value |
| Billing.CreateBill | routes/bills.js:9-104 | products, redemptions and settings never change; every refusal other than an internal error leaves the database as it was |
| Billing.PostBill | routes/bills.js:55-80 | the bill is appended; if its user has a wallet, that wallet alone is credited and the reply reports the new available balance; otherwise no wallet changes, the bill stays, and the reply is an internal error |
| Billing.AcceptedBillPosts | routes/bills.js:21-60 | an amount at or above the minimum, under a new bill number, goes on to resolve the customer and post the bill for it |
| Billing.CreateBillRejects | routes/bills.js:15-98 | a missing minimum is an internal error; an amount below the minimum is refused with that minimum; a used bill number is refused; none of them writes anything |
| Billing.CreateBillAccepts | routes/bills.js:9-91 | a bill succeeds exactly when the amount is admitted, its number is new and its customer ends up with a wallet; then the mobile is a customer, exactly that bill is appended, and the reply carries the points and the stored available balance |
| Billing.FirstBillOpensAccount | routes/bills.js:36-89 | for an unknown mobile: one new customer under the next id, one wallet holding exactly the bill's points, the bill appended, and a reply reporting those points as the balance |
| Billing.RepeatBillCredits | routes/bills.js:48-89 | for a known mobile with a wallet: no user is created, only that user's wallet changes (total and available up by the points), and the reply reports old available + points |
| Billing.WalletlessBillCommitted | routes/bills.js:62-100 | for a known mobile without a wallet: the bill is committed, no wallet changes, and the reply is an internal error |
| Billing.PostBillKeepsValid | routes/bills.js:55-69 | posting a bill under an unused number for an existing id keeps the schema guarantees |
| Billing.AcceptedBillKeepsValid | routes/bills.js:27-77 | an admitted bill under a new number keeps the schema guarantees |
| Billing.CreateBillKeepsValid | routes/bills.js:9-104 | bill creation keeps the schema guarantees on every path, bill numbers unique among them |
| Billing.PostBillKeepsConsistent | routes/bills.js:55-69 | posting a bill keeps every wallet balanced and accounted for, credited or not |
| Billing.AcceptedBillKeepsConsistent | routes/bills.js:27-77 | an admitted bill under a new number keeps the ledger invariants |
| Billing.CreateBillKeepsConsistent | routes/bills.js:9-104 | bill creation keeps the ledger invariants on every path |
| Rewards.WalletOf | routes/rewards.js:8-30 | not found exactly for an unknown mobile; otherwise the stored wallet, or an all-zero wallet when the customer has none |
| Rewards.ReportedWalletAccounted | routes/rewards.js:17-25 | on a consistent ledger a reported wallet is balanced, and a stored one reports what its user's bills earned and its redemptions spent |
| Rewards.DiscountAmount | routes/rewards.js:68 | with a percentage from 0 to 100 the discount lies between 0 and the fuel amount; 100% is the whole amount and 0% is nothing |
| Rewards.Spend | routes/rewards.js:71-85 | only the redeeming user's wallet is debited, and exactly one redemption is appended |
| Rewards.SpendKeepsValid | routes/rewards.js:80-85 | spending from an existing wallet keeps the schema guarantees |
| Rewards.SpendKeepsConsistent | routes/rewards.js:71-85 | spending no more than is available, and no negative amount, keeps the ledger invariants |
| Rewards.DebitFuel | routes/rewards.js:61-99 | every refusal, including a customer without a wallet, leaves the database unchanged |
| Rewards.RedeemFuelAsWritten | routes/rewards.js:33-109 | every refusal leaves the database unchanged |
| Rewards.AsWrittenFuelNeverRedeems | routes/rewards.js:54-59 | as written, a fuel redemption never succeeds and never writes: an unknown mobile is not found, a known one always gets an internal error |
| Rewards.RedeemFuel | routes/rewards.js:33-109 | every refusal leaves the database unchanged; users, bills, products and settings never change |
| Rewards.RedeemFuelRejects | routes/rewards.js:42-65 | an unknown mobile is not found; missing terms or a missing wallet is an internal error; fewer available points than the threshold are refused with the threshold; none of them writes |
| Rewards.RedeemFuelAccepts | routes/rewards.js:61-99 | success exactly when the customer is known, both terms are configured and the wallet holds at least the threshold; then exactly the threshold is debited, one fuel_discount record with the threshold, fuel_amount × percent / 100 and the bill number is appended, and the reported remaining points equal the stored available balance |
| Rewards.RedeemFuelKeepsValid | routes/rewards.js:71-87 | a fuel redemption keeps the schema guarantees |
| Rewards.RedeemFuelKeepsConsistent | routes/rewards.js:61-87 | with a non-negative threshold, a fuel redemption keeps the ledger invariants, so available never goes negative |
| Rewards.RedeemProduct | routes/rewards.js:112-193 | every refusal leaves the database unchanged; users, bills and settings never change |
| Rewards.RedeemProductRejects | routes/rewards.js:121-147 | in this order: a missing or inactive product is unavailable, no stock is out of stock, a user without a wallet is an internal error, too few points are refused with both figures; none of them writes |
| Rewards.RedeemProductAccepts | routes/rewards.js:149-184 | success exactly when the product is active and in stock and the wallet covers its price; then only the caller's wallet is debited by the price, that product's row changes only in its stock, down by exactly 1, other products are untouched, one product redemption is appended, and the reported remaining points equal the stored available balance |
| Rewards.RedeemProductKeepsValid | routes/rewards.js:149-171 | a product redemption keeps the schema guarantees |
| Rewards.RedeemProductKeepsConsistent | routes/rewards.js:133-171 | with no negative price in the catalog, a product redemption keeps the ledger invariants, so stock and available never go negative |
| RewardStore.Store.CreateBill | routes/bills.js:9-104 | the step-by-step handler, with its rollback on a duplicate number, ends in the state and reply of Billing.CreateBill, and keeps the schema guarantees and the ledger invariants |
| RewardStore.Store.ResolveCustomer | routes/bills.js:29-50 | get-or-create writes exactly what Ledger.ResolveCustomer describes |
| RewardStore.Store.PostBill | routes/bills.js:55-80 | insert, credit and read-back write exactly what Billing.PostBill describes |
| RewardStore.Store.GetWallet | routes/rewards.js:8-30 | the lookup reports Rewards.WalletOf, writes nothing, and on a consistent ledger reports a balanced wallet |
| RewardStore.Store.DebitFuel | routes/rewards.js:61-99 | the wallet check, debit and insert write exactly what Rewards.DebitFuel describes |
| RewardStore.Store.RedeemFuel | routes/rewards.js:33-109 | with the keyed settings query, the handler ends in the state and reply of Rewards.RedeemFuel, and keeps the schema guarantees and, for a non-negative threshold, the ledger invariants |
| RewardStore.Store.RedeemFuelAsWritten | routes/rewards.js:33-109 | the handler as written ends in the state and reply of Rewards.RedeemFuelAsWritten; its steps after the two lookups are proved unreachable |
| RewardStore.Store.RedeemProduct | routes/rewards.js:112-193 | the handler ends in the state and reply of Rewards.RedeemProduct, and keeps the schema guarantees and, for a catalog without negative prices, the ledger invariants |
| Scenarios.OtpCustomerBillUncredited | routes/bills.js:62-80 | after an OTP sign-up, the customer's first bill is committed with an internal error, the wallet lookup reports zero points, and the bills hold exactly the points it earned |
| Scenarios.FirstDieselBill | routes/bills.js:9-91 | on a fresh deployment whose only user is the sub-admin (id 1, no wallet) and with a 100-rupee minimum, a 900-rupee diesel bill from another mobile creates customer 2 with a wallet of 5 points and replies 5 earned, 5 in total |
| Scenarios.FirstBillAdmitted | routes/bills.js:21-36 | that bill meets the minimum, its number is new and its mobile is unknown |
| Scenarios.FuelDiscountAfterFirstBill | routes/rewards.js:33-101 | then, with a threshold of 5 and a 10% discount, the sub-admin redeeming on 1000 rupees of fuel debits customer 2's 5 points, records a 100-rupee discount made by user 1 and leaves 0 |
| Scenarios.FuelDiscountAsWritten | routes/rewards.js:54-59 | the same request against the handler as written is an internal error and writes nothing |

## Left out

- HTTP plumbing is not modelled: routing, status codes, response bodies, the connection pool. Outcomes are the `Error` datatype.
- Concurrency and isolation are not modelled. Each handler is one atomic step; nothing is claimed about concurrent requests reading the same wallet.
- Notifications after commit are left out. They are fire-and-forget and cannot change the ledger.
- OTP generation, expiry and verification, JWT signing and verification, and password hashing are left out. The only part of the OTP request in the model is its creation of a customer without a wallet (`Ledger.RegisterForOtp`).
- The token check is not modelled. The role check becomes a precondition on the staff-only `Store` methods, and the product redemption takes the authenticated caller as a parameter.
- The admin, customer and product routes are not modelled: catalog and settings writes, sub-admin creation, reports, history and pagination. They can leave the ledger in states the modelled handlers never produce:
  - negative stock, prices or thresholds, which break `Ledger.Consistent` or the preconditions of the redemption lemmas;
  - users without a wallet, whose paths through the modelled handlers are covered.
- Floating point is not modelled:
  - Amounts are whole rupees.
  - Densities are integer thousandths.
  - Setting values are integers, with no parseInt/parseFloat.
  - The discount is an exact `real`.
  - `toFixed` formatting is left out.
- Rewards.DiscountAmount: the discount is exact rational arithmetic, not IEEE double, so rounding in the last place is not captured.
- String comparison is exact. Bill numbers and mobiles are compared character by character, for the unique key on bill_no and for the lookup by mobile. The schema's collation is not part of this model; a case-insensitive collation that ignores trailing spaces would also treat "b-1" as a duplicate of "B-1".
- Integers are unbounded. JavaScript doubles and the column widths of the schema are not modelled, so an update that would overflow a column and fail with a 500 is not captured.
- The `created_at` timestamps of bills and redemptions are not modelled; `Records.Bill` and `Records.Redemption` have no time field.
- Users are a map from mobile to user, so a mobile belongs to at most one user. The schema is not part of this model, and the sub-admin insert (routes/admin.js:89-92) does not check whether the mobile is already in use, so this is an assumption of the model rather than a guarantee of the code.
- Database failures other than the bill number's unique key are not modelled, such as lost connections and lock timeouts.
- RewardStore.Store.CreateBill: a rolled-back customer insert also restores the model's auto-increment counter, but the database keeps the gap. After a rolled-back duplicate, the next customer's id in the database is therefore larger than the one `Billing.FirstBillOpensAccount` and `Scenarios.FirstDieselBill` state. The invariants do not depend on the counter's value, since they only compare ids with each other and with the counter.
- An early return inside an open redemption transaction (not found, below threshold, insufficient points) has written nothing, so the model treats it as leaving the state unchanged. What the connection does with the unfinished transaction is not modelled.

## Findings

| source | as written | input that shows it | evidently intended | confidence | as-written member | corrected member |
|---|---|---|---|---|---|---|
| routes/rewards.js:54-59 | the settings query selects only setting_value, then the rows are looked up by setting_key, which no row carries; `find` returns undefined and reading `.setting_value` throws, so the transaction rolls back with a 500 | any fuel redemption for a known mobile, e.g. a customer with 5 points, a threshold of 5 and a 10% discount | select setting_key too, so that the threshold and percentage are found and the redemption debits the threshold | not executed | Rewards.RedeemFuelAsWritten | Rewards.RedeemFuel |
