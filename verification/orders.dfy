/** `create_order` (app/crud.py): the validation and pricing phase of module
    Pricing, then the write phase that inserts the order header, attaches
    every priced line to the new order, and stores the sum of the line
    subtotals as the order's total. Success is one state transition. */
module Orders {
  import opened Wrappers
  import opened Tables
  import opened Records
  import opened Store
  import opened Pricing
  import Crud

  /** What a successful call wrote: the order and its items, with the
      identifiers the store gave them. */
  datatype Placed = Placed(orderId: int, order: Order, itemIds: seq<int>, items: seq<OrderItem>)

  /** `item.order_id = order.id` for every priced line, in order. */
  function Attach(drafts: seq<Draft>, orderId: int): seq<OrderItem>
  {
    seq(|drafts|, i requires 0 <= i < |drafts| => OrderItem(orderId, drafts[i].menuId, drafts[i].quantity, drafts[i].subtotal))
  }

  /** The sum of the items' subtotals. */
  function Total(items: seq<OrderItem>): int {
    Sum(seq(|items|, i requires 0 <= i < |items| => items[i].subtotal))
  }

  /** The second session: a new pending order, then its items, then the
      total written back onto the order. */
  function Persist(db: Db, customerId: Option<int>, drafts: seq<Draft>): (r: Step<Placed>)
    requires ValidDb(db)
  {
    var (oid, orders1) := Insert(db.orders, NewOrder(customerId));
    var items := Attach(drafts, oid);
    var (ids, itemTable) := InsertAll(db.items, items);
    var order := NewOrder(customerId).(totalAfterDiscount := Total(items));
    Step(db.(orders := orders1.(rows := orders1.rows[oid := order]), items := itemTable),
         Placed(oid, order, ids, items))
  }

  /** Exactly one order was added, under a fresh id, with status "pending",
      the request's customer, and the items' subtotals as its total. */
  ghost predicate OrderWritten(db: Db, req: OrderRequest, db2: Db, p: Placed) {
    && p.orderId !in db.orders.rows
    && p.orderId in db2.orders.rows && db2.orders.rows[p.orderId] == p.order
    && db2.orders.rows.Keys == db.orders.rows.Keys + {p.orderId}
    && SameExcept(db.orders, db2.orders, p.orderId)
    && p.order.currentStatus == PendingStatus
    && p.order.customerId == req.customerId
    && p.order.discountId.None? && p.order.userId.None?
    && p.order.totalAfterDiscount == Total(p.items)
  }

  /** One item per request line, in line order under increasing fresh ids,
      each pointing at the new order with the clamped quantity and the
      catalog-priced subtotal; no other item row changed. */
  ghost predicate ItemsWritten(db: Db, req: OrderRequest, db2: Db, p: Placed) {
    && |p.itemIds| == |p.items| == |req.items|
    && (forall i, j :: 0 <= i < j < |p.itemIds| ==> p.itemIds[i] < p.itemIds[j])
    && (forall i :: 0 <= i < |p.itemIds| ==>
          p.itemIds[i] !in db.items.rows && p.itemIds[i] in db2.items.rows
          && db2.items.rows[p.itemIds[i]] == p.items[i])
    && (forall k :: k !in p.itemIds ==> Agree(db.items, db2.items, k))
    && (forall i :: 0 <= i < |p.items| ==>
          && LineResolves(db.menus.rows, db.addons.rows, req.items[i])
          && p.items[i].orderId == p.orderId
          && p.items[i].menuId == req.items[i].menuId
          && p.items[i].quantity == Clamp(req.items[i].quantity)
          && p.items[i].subtotal == ExpectedSubtotal(db.menus.rows, db.addons.rows, req.items[i]))
  }

  function CreateOrder(db: Db, req: OrderRequest): (r: Step<Result<Placed, Error>>)
    requires ValidDb(db)
    ensures ValidDb(r.db)
    ensures r.ret.Success? <==> Resolves(db, req)
    ensures r.ret.Failure? ==> r.db == db
    ensures !CustomerResolves(db, req) ==> r.ret == Failure(CustomerNotFound(req.customerId.value))
    ensures r.ret.Success? ==> OrderWritten(db, req, r.db, r.ret.value)
    ensures r.ret.Success? ==> ItemsWritten(db, req, r.db, r.ret.value)
    ensures OnlyTouched(db, r.db, {Orders, Items})
  {
    match PriceRequest(db, req)
    case Failure(e) => Step(db, Failure(e))
    case Success(drafts) =>
      var s := Persist(db, req.customerId, drafts);
      Step(s.db, Success(s.ret))
  }

  // ----- error precedence -----

  /** With the customer resolved and every earlier line resolved, a line
      whose menu item is missing decides the error, and nothing is written. */
  lemma FirstMissingMenuDecides(db: Db, req: OrderRequest, i: int)
    requires ValidDb(db)
    requires CustomerResolves(db, req)
    requires 0 <= i < |req.items|
    requires forall j :: 0 <= j < i ==> LineResolves(db.menus.rows, db.addons.rows, req.items[j])
    requires req.items[i].menuId !in db.menus.rows
    ensures CreateOrder(db, req) == Step(db, Failure(MenuNotFound(req.items[i].menuId)))
  {
    PriceLinesFirstFailure(db.menus.rows, db.addons.rows, req.items, i);
  }

  /** With everything before it resolved, including the menu item of its own
      line, the first missing add-on of a line decides the error. */
  lemma FirstMissingAddonDecides(db: Db, req: OrderRequest, i: int, k: int)
    requires ValidDb(db)
    requires CustomerResolves(db, req)
    requires 0 <= i < |req.items|
    requires forall j :: 0 <= j < i ==> LineResolves(db.menus.rows, db.addons.rows, req.items[j])
    requires req.items[i].menuId in db.menus.rows
    requires 0 <= k < |AddonIds(req.items[i])|
    requires AllListed(db.addons.rows, AddonIds(req.items[i])[..k])
    requires AddonIds(req.items[i])[k] !in db.addons.rows
    ensures CreateOrder(db, req) == Step(db, Failure(AddonNotFound(AddonIds(req.items[i])[k])))
  {
    AddonTotalFirstMissing(db.addons.rows, AddonIds(req.items[i]), k);
    PriceLinesFirstFailure(db.menus.rows, db.addons.rows, req.items, i);
  }

  // ----- what the request cannot influence -----

  /** The client-sent subtotals and the payment-method hint do not change
      anything that is written or returned. */
  lemma ClientHintsIgnored(db: Db, req: OrderRequest, req2: OrderRequest)
    requires ValidDb(db)
    requires req.customerId == req2.customerId
    requires SameButSubtotals(req.items, req2.items)
    ensures CreateOrder(db, req) == CreateOrder(db, req2)
  {
    PriceRequestIgnoresHints(db, req, req2);
  }

  /** Orders are not deduplicated: the same request placed twice creates two
      distinct orders, and the first is left as it was. */
  lemma RepeatedRequestPlacesTwoOrders(db: Db, req: OrderRequest)
    requires ValidDb(db)
    requires Resolves(db, req)
    ensures var first := CreateOrder(db, req);
            var second := CreateOrder(first.db, req);
            && first.ret.Success? && second.ret.Success?
            && second.ret.value.orderId != first.ret.value.orderId
            && first.ret.value.orderId in second.db.orders.rows
            && second.db.orders.rows[first.ret.value.orderId] == first.ret.value.order
  {
  }

  /** Prices are a snapshot: a later change to a menu item or an add-on
      leaves the stored items of every order as they were. */
  lemma SnapshotPricing(db: Db, req: OrderRequest, menuId: int, u: MenuUpdate, addonId: int, v: AddonUpdate)
    requires ValidDb(db)
    ensures var placed := CreateOrder(db, req);
            Crud.UpdateMenu(placed.db, menuId, u).db.items == placed.db.items
    ensures var placed := CreateOrder(db, req);
            Crud.UpdateAddon(placed.db, addonId, v).db.items == placed.db.items
  {
  }

  /** An order body that lists one menu item and nothing else is priced at
      that item's catalog price: no customer, quantity 1, no add-ons. */
  lemma DefaultRequestPricesMenu(db: Db, m: int)
    requires ValidDb(db)
    requires m in db.menus.rows
    ensures var r := CreateOrder(db, DefaultOrderRequest([DefaultLine(m)]));
            && r.ret.Success?
            && r.ret.value.order.customerId.None?
            && r.ret.value.order.currentStatus == PendingStatus
            && |r.ret.value.items| == 1
            && r.ret.value.items[0].quantity == 1
            && r.ret.value.order.totalAfterDiscount == db.menus.rows[m].price
  {
    var line := DefaultLine(m);
    assert AddonPrices(db.addons.rows, AddonIds(line)) == [];
    var r := CreateOrder(db, DefaultOrderRequest([line]));
    assert Total(r.ret.value.items) == Total(r.ret.value.items[..0]) + r.ret.value.items[0].subtotal;
  }

  /** An order with no lines is accepted, with no items and total 0. */
  lemma EmptyOrderAccepted(db: Db, customerId: Option<int>, payMethod: Option<string>)
    requires ValidDb(db)
    requires customerId.None? || customerId.value in db.customers.rows
    ensures var r := CreateOrder(db, OrderRequest(customerId, payMethod, []));
            && r.ret.Success? && r.ret.value.items == []
            && r.ret.value.order.totalAfterDiscount == 0
            && r.db.items == db.items
  {
  }

  // ----- concrete scenarios -----

  /** The smoke test's seed data: menu 1 "Espresso" at 250 cents with add-on
      1 "Extra Shot" at 50 cents, and customer 1. */
  function SmokeCatalog(): (db: Db)
    ensures ValidDb(db)
    ensures 1 in db.menus.rows && db.menus.rows[1].price == 250
    ensures 1 in db.addons.rows && db.addons.rows[1].price == 50
    ensures db.customers.rows.Keys == {1}
  {
    Db(Table(map[1 := Category("Beverages")], 2),
       Table(map[1 := Menu("Espresso", 250, Some(1), None, Some("Strong coffee"), true, 0.0)], 2),
       Table(map[1 := Addon(1, "Extra Shot", 50)], 2),
       Table(map[1 := Customer("Dev User", None, None)], 2),
       Empty(), Empty(), Empty())
  }

  /** The smoke test's order: two espressos with an extra shot each cost
      (250 + 50) * 2 = 600. */
  lemma SmokeOrderTotal()
    ensures var req := OrderRequest(Some(1), Some("cash"), [LineRequest(1, 2, None, Some([1]))]);
            var r := CreateOrder(SmokeCatalog(), req);
            && r.ret.Success?
            && r.ret.value.order.totalAfterDiscount == 600
            && |r.ret.value.items| == 1 && r.ret.value.items[0].quantity == 2
  {
  }

  // The remaining scenarios use the same catalog but are not part of the
  // smoke test.

  /** An unknown menu item 999 is reported and nothing is written; a quantity
      of 0 is accepted as 1. */
  lemma UnknownMenuReported()
    ensures var db := SmokeCatalog();
            CreateOrder(db, OrderRequest(None, Some("cash"), [DefaultLine(1), DefaultLine(999)]))
              == Step(db, Failure(MenuNotFound(999)))
    ensures var r := CreateOrder(SmokeCatalog(), OrderRequest(None, None, [LineRequest(1, 0, Some(0), None)]));
            r.ret.Success? && r.ret.value.items[0].quantity == 1 && r.ret.value.order.totalAfterDiscount == 250
  {
  }

  /** A missing customer 42 is reported before any line is looked at, even
      when a line is wrong too. */
  lemma MissingCustomerReportedFirst()
    ensures var db := SmokeCatalog();
            CreateOrder(db, OrderRequest(Some(42), Some("cash"), [DefaultLine(999)]))
              == Step(db, Failure(CustomerNotFound(42)))
  {
  }
}
