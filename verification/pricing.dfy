/** The validation and pricing phase of `create_order` (the first session of
    app/crud.py): every reference is looked up before anything is written,
    and each line is priced from the live catalog. `PriceRequest` is the
    reference definition; `ValidateAndPrice` follows the source's loops and
    accumulation step by step and is proved to compute the same thing. */
module Pricing {
  import opened Wrappers
  import opened Records
  import opened Store

  /** `max(1, quantity)`. */
  function Clamp(q: int): (r: int)
    ensures r >= 1
    ensures q >= 1 ==> r == q
    ensures q < 1 ==> r == 1
  {
    if q < 1 then 1 else q
  }

  /** `if i.addon_ids:` treats a missing list and an empty list alike. */
  function AddonIds(line: LineRequest): seq<int> {
    if line.addonIds.Some? then line.addonIds.value else []
  }

  function Sum(xs: seq<int>): int
    decreases |xs|
  {
    if |xs| == 0 then 0 else Sum(xs[..|xs| - 1]) + xs[|xs| - 1]
  }

  predicate AllListed(addons: map<int, Addon>, ids: seq<int>) {
    forall k :: 0 <= k < |ids| ==> ids[k] in addons
  }

  /** The catalog prices of the listed add-ons, in list order. */
  function AddonPrices(addons: map<int, Addon>, ids: seq<int>): seq<int>
    requires AllListed(addons, ids)
  {
    seq(|ids|, k requires 0 <= k < |ids| => addons[ids[k]].price)
  }

  /** The add-on lookups of one line, in list order: the first id that is
      not in the catalog is reported; otherwise the prices add up. */
  function AddonTotal(addons: map<int, Addon>, ids: seq<int>): (r: Result<int, Error>)
    ensures r.Success? <==> AllListed(addons, ids)
    ensures r.Failure? ==> r.error.AddonNotFound? && r.error.addonId !in addons
    ensures r.Success? ==> r.value == Sum(AddonPrices(addons, ids))
    decreases |ids|
  {
    if |ids| == 0 then Success(0)
    else
      var init := ids[..|ids| - 1];
      var last := ids[|ids| - 1];
      match AddonTotal(addons, init)
      case Failure(e) => Failure(e)
      case Success(s) =>
        if last !in addons then Failure(AddonNotFound(last))
        else
          assert AddonPrices(addons, ids)[..|ids| - 1] == AddonPrices(addons, init);
          Success(s + addons[last].price)
  }

  /** When the add-on at position `k` is the first one missing, it is the
      one reported, whatever follows it. */
  lemma {:induction false} AddonTotalFirstMissing(addons: map<int, Addon>, ids: seq<int>, k: int)
    requires 0 <= k < |ids|
    requires AllListed(addons, ids[..k])
    requires ids[k] !in addons
    ensures AddonTotal(addons, ids) == Failure(AddonNotFound(ids[k]))
    decreases |ids|
  {
    var init := ids[..|ids| - 1];
    if k == |ids| - 1 {
      assert init == ids[..k];
    } else {
      assert init[..k] == ids[..k];
      AddonTotalFirstMissing(addons, init, k);
    }
  }

  /** Every reference of one line exists: its menu item and each add-on. */
  predicate LineResolves(menus: map<int, Menu>, addons: map<int, Addon>, line: LineRequest) {
    line.menuId in menus && AllListed(addons, AddonIds(line))
  }

  /** (menu price + sum of add-on prices) * clamped quantity: the formula the
      smoke test checks with (2.50 + 0.50) * 2 = 6.00. */
  function ExpectedSubtotal(menus: map<int, Menu>, addons: map<int, Addon>, line: LineRequest): int
    requires LineResolves(menus, addons, line)
  {
    (menus[line.menuId].price + Sum(AddonPrices(addons, AddonIds(line)))) * Clamp(line.quantity)
  }

  /** A priced line, before the order it belongs to has an identifier. */
  datatype Draft = Draft(menuId: int, quantity: int, subtotal: int)

  /** One line: the menu item is looked up first, then its add-ons. Whether
      an add-on belongs to that menu item is not checked. */
  function PriceLine(menus: map<int, Menu>, addons: map<int, Addon>, line: LineRequest): (r: Result<Draft, Error>)
    ensures r.Success? <==> LineResolves(menus, addons, line)
    ensures line.menuId !in menus ==> r == Failure(MenuNotFound(line.menuId))
    ensures r.Success? ==> r.value == Draft(line.menuId, Clamp(line.quantity), ExpectedSubtotal(menus, addons, line))
  {
    if line.menuId !in menus then Failure(MenuNotFound(line.menuId))
    else
      match AddonTotal(addons, AddonIds(line))
      case Failure(e) => Failure(e)
      case Success(s) =>
        Success(Draft(line.menuId, Clamp(line.quantity), (menus[line.menuId].price + s) * Clamp(line.quantity)))
  }

  /** All lines in list order; the first line that fails decides the error. */
  function PriceLines(menus: map<int, Menu>, addons: map<int, Addon>, lines: seq<LineRequest>): (r: Result<seq<Draft>, Error>)
    ensures r.Success? <==> forall i :: 0 <= i < |lines| ==> LineResolves(menus, addons, lines[i])
    ensures r.Success? ==> |r.value| == |lines|
    ensures r.Success? ==> forall i :: 0 <= i < |lines| ==>
              PriceLine(menus, addons, lines[i]).Success? && r.value[i] == PriceLine(menus, addons, lines[i]).value
    decreases |lines|
  {
    if |lines| == 0 then Success([])
    else
      var init := lines[..|lines| - 1];
      match PriceLines(menus, addons, init)
      case Failure(e) => Failure(e)
      case Success(ds) =>
        match PriceLine(menus, addons, lines[|lines| - 1])
        case Failure(e) => Failure(e)
        case Success(d) =>
          assert forall i :: 0 <= i < |init| ==> lines[i] == init[i];
          Success(ds + [d])
  }

  /** When line `i` is the first that does not resolve, its own error is
      the result, whatever the later lines hold. */
  lemma {:induction false} PriceLinesFirstFailure(menus: map<int, Menu>, addons: map<int, Addon>, lines: seq<LineRequest>, i: int)
    requires 0 <= i < |lines|
    requires forall j :: 0 <= j < i ==> LineResolves(menus, addons, lines[j])
    requires !LineResolves(menus, addons, lines[i])
    ensures PriceLine(menus, addons, lines[i]).Failure?
    ensures PriceLines(menus, addons, lines) == Failure(PriceLine(menus, addons, lines[i]).error)
    decreases |lines|
  {
    var init := lines[..|lines| - 1];
    if i == |lines| - 1 {
      assert forall j :: 0 <= j < |init| ==> init[j] == lines[j];
    } else {
      assert init[i] == lines[i];
      assert forall j :: 0 <= j < i ==> init[j] == lines[j];
      PriceLinesFirstFailure(menus, addons, init, i);
    }
  }

  /** Two line lists that differ at most in the client-sent subtotals. */
  ghost predicate SameButSubtotals(a: seq<LineRequest>, b: seq<LineRequest>) {
    |a| == |b| && forall i :: 0 <= i < |a| ==> a[i].(clientSubtotal := None) == b[i].(clientSubtotal := None)
  }

  /** A client-sent subtotal never reaches the price. */
  lemma {:induction false} PriceLinesIgnoreSubtotals(menus: map<int, Menu>, addons: map<int, Addon>, a: seq<LineRequest>, b: seq<LineRequest>)
    requires SameButSubtotals(a, b)
    ensures PriceLines(menus, addons, a) == PriceLines(menus, addons, b)
    decreases |a|
  {
    if |a| > 0 {
      var n := |a| - 1;
      assert a[n].(clientSubtotal := None) == b[n].(clientSubtotal := None);
      assert a[n].menuId == b[n].menuId && a[n].quantity == b[n].quantity && a[n].addonIds == b[n].addonIds;
      assert PriceLine(menus, addons, a[n]) == PriceLine(menus, addons, b[n]);
      assert forall i :: 0 <= i < n ==> a[..n][i] == a[i] && b[..n][i] == b[i];
      PriceLinesIgnoreSubtotals(menus, addons, a[..n], b[..n]);
    }
  }

  /** The optional customer reference resolves (or is absent). */
  predicate CustomerResolves(db: Db, req: OrderRequest) {
    req.customerId.None? || req.customerId.value in db.customers.rows
  }

  /** Every reference of the request exists. */
  predicate Resolves(db: Db, req: OrderRequest) {
    && CustomerResolves(db, req)
    && forall i :: 0 <= i < |req.items| ==> LineResolves(db.menus.rows, db.addons.rows, req.items[i])
  }

  /** The whole first session: the customer first, then the lines. */
  function PriceRequest(db: Db, req: OrderRequest): (r: Result<seq<Draft>, Error>)
    ensures r.Success? <==> Resolves(db, req)
    ensures !CustomerResolves(db, req) ==> r == Failure(CustomerNotFound(req.customerId.value))
    ensures r.Success? ==> |r.value| == |req.items|
    ensures r.Success? ==> forall i :: 0 <= i < |req.items| ==>
              && LineResolves(db.menus.rows, db.addons.rows, req.items[i])
              && r.value[i] == Draft(req.items[i].menuId, Clamp(req.items[i].quantity),
                                     ExpectedSubtotal(db.menus.rows, db.addons.rows, req.items[i]))
  {
    if !CustomerResolves(db, req) then Failure(CustomerNotFound(req.customerId.value))
    else PriceLines(db.menus.rows, db.addons.rows, req.items)
  }

  lemma AddOnePrice(base: int, s: int, a: int, qty: int)
    ensures (base + s) * qty + a * qty == (base + (s + a)) * qty
  {
  }

  /** The add-on loop of one line as written: `subtotal` starts at
      `menu.price * qty` and each add-on adds `addon.price * qty`; the first
      missing add-on raises. */
  method AccumulateAddons(addons: map<int, Addon>, ids: seq<int>, price: int, qty: int) returns (r: Result<int, Error>)
    ensures r.Success? <==> AddonTotal(addons, ids).Success?
    ensures r.Failure? ==> r.error == AddonTotal(addons, ids).error
    ensures r.Success? ==> r.value == (price + AddonTotal(addons, ids).value) * qty
  {
    var subtotal := price * qty;
    var k := 0;
    while k < |ids|
      invariant 0 <= k <= |ids|
      invariant AllListed(addons, ids[..k])
      invariant subtotal == (price + AddonTotal(addons, ids[..k]).value) * qty
    {
      var aid := ids[k];
      if aid !in addons {
        AddonTotalFirstMissing(addons, ids, k);
        return Failure(AddonNotFound(aid));
      }
      assert ids[..k + 1][..k] == ids[..k];
      AddOnePrice(price, AddonTotal(addons, ids[..k]).value, addons[aid].price, qty);
      subtotal := subtotal + addons[aid].price * qty;
      k := k + 1;
    }
    assert ids[..k] == ids;
    return Success(subtotal);
  }

  /** The body of the line loop as written: menu lookup, `max(1, qty)`,
      then the add-on loop. */
  method PriceLineAsWritten(menus: map<int, Menu>, addons: map<int, Addon>, line: LineRequest) returns (r: Result<Draft, Error>)
    ensures r == PriceLine(menus, addons, line)
  {
    if line.menuId !in menus {
      return Failure(MenuNotFound(line.menuId));
    }
    var qty := if line.quantity < 1 then 1 else line.quantity;
    var subtotal := AccumulateAddons(addons, AddonIds(line), menus[line.menuId].price, qty);
    if subtotal.Failure? {
      return Failure(subtotal.error);
    }
    return Success(Draft(line.menuId, qty, subtotal.value));
  }

  /** Validation and pricing read neither the client-sent subtotals nor
      the payment-method hint. */
  lemma PriceRequestIgnoresHints(db: Db, req: OrderRequest, req2: OrderRequest)
    requires req.customerId == req2.customerId
    requires SameButSubtotals(req.items, req2.items)
    ensures PriceRequest(db, req) == PriceRequest(db, req2)
  {
    PriceLinesIgnoreSubtotals(db.menus.rows, db.addons.rows, req.items, req2.items);
  }

  /** The first session as the source writes it: the customer check, then
      one pass over the lines, raising at the first missing reference. */
  method ValidateAndPrice(db: Db, req: OrderRequest) returns (r: Result<seq<Draft>, Error>)
    ensures r == PriceRequest(db, req)
  {
    if req.customerId.Some? && req.customerId.value !in db.customers.rows {
      return Failure(CustomerNotFound(req.customerId.value));
    }
    var menus := db.menus.rows;
    var addons := db.addons.rows;
    var drafts: seq<Draft> := [];
    var i := 0;
    while i < |req.items|
      invariant 0 <= i <= |req.items|
      invariant PriceLines(menus, addons, req.items[..i]) == Success(drafts)
    {
      assert forall j :: 0 <= j < i ==> req.items[..i][j] == req.items[j];
      var d := PriceLineAsWritten(menus, addons, req.items[i]);
      if d.Failure? {
        PriceLinesFirstFailure(menus, addons, req.items, i);
        return Failure(d.error);
      }
      assert req.items[..i + 1][..i] == req.items[..i];
      drafts := drafts + [d.value];
      i := i + 1;
    }
    assert req.items[..i] == req.items;
    return Success(drafts);
  }
}
