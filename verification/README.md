# Café ordering backend: order pricing and keyed-store CRUD

This project models the data layer of a café/restaurant ordering backend:
- menu categories, menu items and their add-ons;
- customers, orders made of line items, and payments.

Its one piece of business logic is `create_order`. It checks the optional customer, then each line's menu item, then each of that line's add-ons. It clamps each quantity to at least 1. It prices each line from the live catalog as (menu price + Σ add-on prices) × quantity. It then writes one pending order with one item per line and stores the sum of the item subtotals as the order's total. Around it sit small keyed-store operations:
- partial updates, which write only the fields the client sent;
- deletions, which report whether the row existed;
- two creations that check a parent row: an add-on needs its menu, and a payment needs its order (the payment also marks the order completed).

The store is a `Db` of seven tables (`Tables.Table`). Each table is a map from integer primary key to record, together with the next identifier the storage layer hands out. `Tables.Valid` says every key lies below that counter, so a new row always gets a fresh id. Every operation is a pure function from a store to a `Step`: the store after the commit, plus what the Python function returns. A raised `ValueError` becomes a `Failure` and leaves the store unchanged.

Modules, following the source:
- `Wrappers`: `Option` and `Result`.
- `Tables`: one table and the session operations on it (get, insert, delete, update).
- `Records`: the entities of `app/models.py` and the request and update bodies of `app/schemas.py`. A partial update is a record of `Patch` fields: `Keep` when the client left the key out, `Set(v)` when it sent it. Nullable columns take `Patch<Option<T>>`, so an explicit `null` clears them.
- `Store`: the database and the frame predicate `OnlyTouched`.
- `Pricing`: the first session of `create_order` (validation and pricing). It has two parts:
  - a reference definition, `PriceRequest`;
  - the loop as the source writes it, `ValidateAndPrice`. Each subtotal starts at `menu.price * qty` and adds `addon.price * qty` per add-on. It is proved to compute exactly the reference result.
- `Orders`: the second session and `CreateOrder`, with the error-precedence, snapshot and scenario lemmas.
- `Crud`: the update, delete and create operations other than orders.

Notable behaviours of `create_order` and the order updates:
- An order with no lines is accepted, with total 0.
- Menu availability is not checked.
- An add-on is never checked to belong to the line's menu item.
- `Order` has no payment-method column. So the request's payment-method hint is dropped. Sending `payment_method` to `update_order` for an existing order raises before anything is committed (`NoSuchField`).
- The order and its items are written in two commits, not one transaction (see Left out).

Prices and amounts are exact integers (cents).

## Model

| member | source | states |
|---|---|---|
| Tables.GetAfterWrites | app/crud.py:76-79 | reading a row back finds the inserted value after an insert, nothing after a delete, and the changed row (or nothing, for an absent id) after an update |
| Tables.Insert | app/crud.py:88-92 | a new row gets an id no existing row has and is stored under it; every other row is unchanged; the table stays able to hand out fresh ids |
| Tables.InsertAll | app/crud.py:325-332 | rows added one after another get distinct, increasing, fresh ids in list order, each holding its value; no other row changes |
| Tables.Delete | app/crud.py:57-63 | returns true iff the key was present; afterwards it is absent and every other row is unchanged |
| Tables.Update | app/crud.py:43-52 | an absent key yields None and leaves the table alone; a present one is overwritten by the changed row, which is returned; other rows and the key set are unchanged |
| Tables.UpdateIdempotent | app/crud.py:47-50 | writing the same field values twice has the effect of writing them once |
| Tables.InsertThenDelete | app/crud.py:130-133 | deleting the row just inserted restores the original rows |
| Crud.UpdateCategory | app/crud.py:38-52 | absent id: None and store unchanged; present id: only the sent name is written, the row is returned, no other row or table changes |
| Crud.DeleteCategory | app/crud.py:55-63 | true iff the category existed; afterwards it is gone and nothing else changed |
| Crud.CreateMenu | app/crud.py:82-92 | the new menu is stored under a fresh id with the body's fields and rating 0; nothing else changes |
| Crud.UpdateMenu | app/crud.py:95-109 | absent id: None and store unchanged; present id: exactly the sent fields change, the rating never does, no other row or table changes |
| Crud.DeleteMenu | app/crud.py:112-120 | true iff the menu existed; afterwards it is gone and nothing else changed |
| Crud.UpdateMenuIdempotent | app/crud.py:95-109 | sending the same menu update twice leaves the same store and result as sending it once |
| Crud.CreateAddon | app/crud.py:124-134 | fails with "menu not found" and writes nothing iff the parent menu is absent; otherwise stores the add-on for that menu under a fresh id and changes nothing else |
| Crud.CreateAddonThenDelete | app/crud.py:124-134 | deleting the add-on just created gives back the original add-on rows |
| Crud.UpdateAddon | app/crud.py:149-163 | absent id: None and store unchanged; present id: only the sent name and price change, the owning menu never does |
| Crud.DeleteAddon | app/crud.py:166-174 | true iff the add-on existed; afterwards it is gone and nothing else changed |
| Crud.CreateCustomer | app/crud.py:178-186 | the customer is stored under a fresh id; the phone is kept iff it was sent non-empty (an empty string is falsy and stored as None) |
| Crud.UpdateCustomer | app/crud.py:199-213 | absent id: None and store unchanged; present id: exactly the sent fields change, an explicit null clears a nullable field |
| Crud.DeleteCustomer | app/crud.py:216-224 | true iff the customer existed; afterwards it is gone and nothing else changed |
| Crud.CreatePayment | app/crud.py:228-240 | fails with "order not found" and writes nothing iff the order is absent; otherwise stores a "paid" payment for it under a fresh id and sets only that order's status to "completed" |
| Crud.UpdatePaymentAsWritten | app/crud.py:249-263 | absent id: None; present id with the `method` key sent: raises and nothing is committed; otherwise the sent amount, status and paid-at are written |
| Crud.UpdatePayment | app/crud.py:249-263 | absent id: None and store unchanged; present id: exactly the sent fields change, `method` writing the payment method, and the owning order never changes |
| Crud.PaymentMethodUpdateLost | app/schemas.py:130-134 | an update that sends only a new method fails as written and leaves the method unchanged, while the corrected update stores it |
| Crud.DeletePayment | app/crud.py:266-274 | true iff the payment existed; afterwards it is gone and nothing else changed |
| Crud.UpdateOrder | app/crud.py:343-357 | absent id: None before any key is read; present id with `payment_method` sent: raises, nothing committed; otherwise only customer and status change and the total never does |
| Crud.DeleteOrder | app/crud.py:360-368 | true iff the order existed; afterwards it is gone and nothing else changed |
| Crud.DeleteOrderTwice | app/crud.py:360-368 | a second delete of the same id returns false and changes nothing |
| Pricing.Clamp | app/crud.py:300 | the stored quantity is at least 1, equals the request's when that is positive, and is 1 otherwise |
| Pricing.AddonTotal | app/crud.py:304-309 | succeeds iff every listed add-on exists, then with the sum of their prices; otherwise reports a missing add-on id |
| Pricing.AddonTotalFirstMissing | app/crud.py:305-308 | the first missing add-on in list order is the one reported, whatever follows it |
| Pricing.PriceLine | app/crud.py:297-311 | a missing menu item is reported before any add-on; a resolving line is priced (menu price + Σ add-on prices) × clamped quantity; any existing add-on is accepted |
| Pricing.PriceLines | app/crud.py:296-313 | succeeds iff every line resolves, then with one priced line per request line, in order |
| Pricing.PriceLinesFirstFailure | app/crud.py:296-299 | the first line in list order that does not resolve decides the error |
| Pricing.PriceLinesIgnoreSubtotals | app/schemas.py:58-64 | lines that differ only in the client-sent subtotal are priced identically |
| Pricing.PriceRequestIgnoresHints | app/schemas.py:58-70 | validation and pricing give the same result, error or priced lines, for bodies that differ only in client-sent subtotals and the payment-method hint |
| Pricing.PriceRequest | app/crud.py:288-315 | a missing customer is reported before any line; success iff every reference resolves; each priced line carries the menu id, the clamped quantity and the catalog subtotal |
| Pricing.AccumulateAddons | app/crud.py:302-309 | the source's running `subtotal += addon.price * qty` ends at (menu price + Σ add-on prices) × qty, or fails exactly as the reference add-on check does |
| Pricing.PriceLineAsWritten | app/crud.py:297-312 | the line-loop body as written gives the same result as the reference line pricing |
| Pricing.ValidateAndPrice | app/crud.py:288-315 | the whole first session as written, with its early raises, gives exactly the reference validation-and-pricing result |
| Orders.CreateOrder | app/crud.py:278-334 | success iff every reference resolves; on failure the store is unchanged and a missing customer is reported first; on success one fresh pending order with the request's customer and total = Σ item subtotals, one item per line in order under fresh increasing ids pointing at it with quantity max(1, q) and the catalog subtotal; no existing row changes, and only orders and items are touched |
| Orders.FirstMissingMenuDecides | app/crud.py:290-299 | with the customer and all earlier lines resolved, a missing menu item is the error and nothing is written |
| Orders.FirstMissingAddonDecides | app/crud.py:296-309 | with everything before it resolved, including its line's menu item, the first missing add-on of a line is the error and nothing is written |
| Orders.ClientHintsIgnored | app/crud.py:311-316 | client-sent subtotals and the payment-method hint change nothing: the written rows, the returned order and the reported error are the same |
| Orders.RepeatedRequestPlacesTwoOrders | app/crud.py:321-323 | the same request placed twice creates two distinct orders, and the second leaves the first as it was |
| Orders.SnapshotPricing | app/crud.py:302-311 | a later menu or add-on update leaves every stored item, and so its subtotal, unchanged |
| Orders.DefaultRequestPricesMenu | app/schemas.py:58-70 | a body that lists one menu item and nothing else (defaults: no customer, quantity 1, no add-ons) places a pending order with one item of quantity 1 and total equal to that item's price |
| Orders.EmptyOrderAccepted | app/crud.py:318-330 | a request with no lines succeeds with no items and total 0 |
| Orders.SmokeOrderTotal | dev/smoke_test.py:110-131 | menu at 2.50 with an add-on at 0.50, quantity 2: the order total is 6.00 |
| Orders.UnknownMenuReported | app/crud.py:297-300 | menu id 999 is reported and nothing is written; a quantity of 0 is stored as 1 |
| Orders.MissingCustomerReportedFirst | app/crud.py:290-293 | a missing customer 42 is reported even when a line's menu is also missing |

## Findings

| source | as written | input that shows it | evidently intended | confidence | as-written member | corrected member |
|---|---|---|---|---|---|---|
| app/crud.py:249-263 | every sent key of the update body is `setattr` on the Payment row; the body's `method` key (app/schemas.py:132) names no field of Payment, whose column is `payment_method`, so the model layer raises and nothing is committed | updating an existing payment with the body `{"method": "card"}` | the payment's `payment_method` becomes "card" | medium (depends on the model layer refusing unknown attributes), not executed | Crud.UpdatePaymentAsWritten | Crud.UpdatePayment |

`Crud.PaymentMethodUpdateLost` exhibits the discrepancy for every existing payment.

## Left out

- Database sessions, the engine and `app/database.py` (engine choice, URL and SSL parsing) are I/O configuration. The store is an abstract value.
- Orders.CreateOrder: the two commits of `create_order` (app/crud.py:323 and 332) are modelled as one transition. A crash between them would leave an order without items, and the model has no crash or rollback semantics.
- Orders.CreateOrder: concurrent requests are not modelled. The lookups run in one session (app/crud.py:288-313) and the writes in another (app/crud.py:321-333). A catalog or customer change committed between the two is not represented: the model prices and writes against one and the same store.
- Crud.CreateMenu, Crud.UpdateMenu, Crud.UpdateOrder, Crud.DeleteMenu, Crud.DeleteCustomer, Crud.DeleteCategory: foreign-key constraints are not modelled.
  - The model stores a `category_id` (menus) or `customer_id` (orders) that names no row, and the write succeeds.
  - It deletes a menu, customer or category that other rows still reference, and the delete succeeds.
  - On a backend that enforces foreign keys, such as PostgreSQL, those commits raise and nothing is committed.
- Floating-point prices, amounts and ratings are exact integers (cents) or reals. Rounding is not modelled.
- Timestamps (`created_at`, `paid_at`) are opaque. Ids are modelled only as fresh and increasing; their exact values are not fixed.
- The branch of `create_order` that takes a ready-made Order and item list is left out. No route calls it; the order route always passes an order body.
- The `update_*` functions also accept a plain dict of arbitrary keys. Only the typed update bodies are modelled.
- An explicit `null` for a non-nullable column (a name, a price, a status) is left out. That write fails at the database.
- Crud.DeleteMenu, Crud.DeleteOrder, Crud.DeleteCustomer, Crud.DeleteCategory: the ORM's handling of child rows on delete is not modelled. By default it nulls their foreign keys, and that fails on NOT NULL columns such as `order_items.order_id`. The model removes only the row itself.
- Crud.UpdatePayment, Crud.UpdatePaymentAsWritten: writing a string into the datetime `paid_at` column, which some backends reject, is not modelled. Both store the string as sent.
- The read operations (`get_categories`, `get_menus` with its category filter, `get_menu`, `get_addons_by_menu`, `get_addon`, `get_customers`, `get_customer`, `get_payment`, `get_order`) change nothing and are not modelled beyond `Tables.Get`.
- The HTTP routes (including their `ValueError` → 400/404 mapping), `app/main.py`, authentication (`app/utils` is not part of this model), the seed script and the dev scripts are left out. The scripts serve only as sources of expected values. The smoke test reads a `total` key from the order response, but the order's field is `total_after_discount`. That response shape belongs to the HTTP layer and is not modelled.
