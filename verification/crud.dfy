/** The keyed-store operations of app/crud.py other than order creation:
    partial updates, deletions, and the creations that check a parent row.
    Each returns the store after the commit together with what the Python
    function returns; a raised ValueError is a `Failure`, and then nothing
    was committed. */
module Crud {
  import opened Wrappers
  import opened Tables
  import opened Records
  import opened Store

  // ----- field-wise patches (the `setattr` loop over the sent keys) -----

  ghost predicate CategoryPatched(c: Category, u: CategoryUpdate, c2: Category) {
    Patched(u.name, c.name, c2.name)
  }

  function ApplyCategoryUpdate(c: Category, u: CategoryUpdate): (c2: Category)
    ensures CategoryPatched(c, u, c2)
  {
    Category(Apply(u.name, c.name))
  }

  /** Sent fields are written; `averageRating` is not updatable. */
  ghost predicate MenuPatched(m: Menu, u: MenuUpdate, m2: Menu) {
    && Patched(u.name, m.name, m2.name)
    && Patched(u.price, m.price, m2.price)
    && Patched(u.categoryId, m.categoryId, m2.categoryId)
    && Patched(u.imageUrl, m.imageUrl, m2.imageUrl)
    && Patched(u.isAvailable, m.isAvailable, m2.isAvailable)
    && Patched(u.description, m.description, m2.description)
    && m2.averageRating == m.averageRating
  }

  function ApplyMenuUpdate(m: Menu, u: MenuUpdate): (m2: Menu)
    ensures MenuPatched(m, u, m2)
  {
    Menu(Apply(u.name, m.name), Apply(u.price, m.price), Apply(u.categoryId, m.categoryId),
         Apply(u.imageUrl, m.imageUrl), Apply(u.description, m.description),
         Apply(u.isAvailable, m.isAvailable), m.averageRating)
  }

  /** The owning menu of an add-on is not updatable. */
  ghost predicate AddonPatched(a: Addon, u: AddonUpdate, a2: Addon) {
    && Patched(u.name, a.name, a2.name)
    && Patched(u.price, a.price, a2.price)
    && a2.menuId == a.menuId
  }

  function ApplyAddonUpdate(a: Addon, u: AddonUpdate): (a2: Addon)
    ensures AddonPatched(a, u, a2)
  {
    a.(name := Apply(u.name, a.name), price := Apply(u.price, a.price))
  }

  ghost predicate CustomerPatched(c: Customer, u: CustomerUpdate, c2: Customer) {
    && Patched(u.name, c.name, c2.name)
    && Patched(u.phoneNumber, c.phoneNumber, c2.phoneNumber)
    && Patched(u.email, c.email, c2.email)
  }

  function ApplyCustomerUpdate(c: Customer, u: CustomerUpdate): (c2: Customer)
    ensures CustomerPatched(c, u, c2)
  {
    Customer(Apply(u.name, c.name), Apply(u.phoneNumber, c.phoneNumber), Apply(u.email, c.email))
  }

  /** The payment-method key is handled by the caller; the total, discount
      and user of an order are not updatable. */
  ghost predicate OrderPatched(o: Order, u: OrderUpdate, o2: Order) {
    && Patched(u.customerId, o.customerId, o2.customerId)
    && Patched(u.currentStatus, o.currentStatus, o2.currentStatus)
    && o2.totalAfterDiscount == o.totalAfterDiscount
    && o2.discountId == o.discountId
    && o2.userId == o.userId
  }

  function ApplyOrderUpdate(o: Order, u: OrderUpdate): (o2: Order)
    ensures OrderPatched(o, u, o2)
  {
    o.(customerId := Apply(u.customerId, o.customerId),
       currentStatus := Apply(u.currentStatus, o.currentStatus))
  }

  /** The owning order of a payment is not updatable. */
  ghost predicate PaymentPatched(p: Payment, u: PaymentUpdate, p2: Payment) {
    && Patched(u.amount, p.amount, p2.amount)
    && Patched(u.payMethod, p.paymentMethod, p2.paymentMethod)
    && Patched(u.paymentStatus, p.paymentStatus, p2.paymentStatus)
    && Patched(u.paidAt, p.paidAt, p2.paidAt)
    && p2.orderId == p.orderId
  }

  function ApplyPaymentUpdate(p: Payment, u: PaymentUpdate): (p2: Payment)
    ensures PaymentPatched(p, u, p2)
  {
    p.(amount := Apply(u.amount, p.amount), paymentMethod := Apply(u.payMethod, p.paymentMethod),
       paymentStatus := Apply(u.paymentStatus, p.paymentStatus), paidAt := Apply(u.paidAt, p.paidAt))
  }

  // ----- CATEGORY -----

  function UpdateCategory(db: Db, id: int, u: CategoryUpdate): (r: Step<Option<Category>>)
    ensures r.ret.None? <==> id !in db.categories.rows
    ensures r.ret.None? ==> r.db == db
    ensures r.ret.Some? ==> id in r.db.categories.rows && r.db.categories.rows[id] == r.ret.value
                            && CategoryPatched(db.categories.rows[id], u, r.ret.value)
    ensures r.db.categories.rows.Keys == db.categories.rows.Keys
    ensures SameExcept(db.categories, r.db.categories, id)
    ensures OnlyTouched(db, r.db, {Categories})
    ensures ValidDb(db) ==> ValidDb(r.db)
  {
    var (ret, t) := Update(db.categories, id, c => ApplyCategoryUpdate(c, u));
    Step(db.(categories := t), ret)
  }

  function DeleteCategory(db: Db, id: int): (r: Step<bool>)
    ensures r.ret <==> id in db.categories.rows
    ensures !r.ret ==> r.db == db
    ensures id !in r.db.categories.rows
    ensures SameExcept(db.categories, r.db.categories, id)
    ensures OnlyTouched(db, r.db, {Categories})
    ensures ValidDb(db) ==> ValidDb(r.db)
  {
    var (ret, t) := Delete(db.categories, id);
    Step(db.(categories := t), ret)
  }

  // ----- MENU -----

  /** `Menu(**menu.dict())`: the average rating starts at 0. */
  function CreateMenu(db: Db, m: MenuCreate): (r: Step<int>)
    requires ValidDb(db)
    ensures r.ret !in db.menus.rows && r.ret in r.db.menus.rows
    ensures r.db.menus.rows[r.ret] == Menu(m.name, m.price, m.categoryId, m.imageUrl, m.description, m.isAvailable, 0.0)
    ensures r.db.menus.rows.Keys == db.menus.rows.Keys + {r.ret}
    ensures SameExcept(db.menus, r.db.menus, r.ret)
    ensures OnlyTouched(db, r.db, {Menus})
    ensures ValidDb(r.db)
  {
    var (id, t) := Insert(db.menus, Menu(m.name, m.price, m.categoryId, m.imageUrl, m.description, m.isAvailable, 0.0));
    Step(db.(menus := t), id)
  }

  function UpdateMenu(db: Db, id: int, u: MenuUpdate): (r: Step<Option<Menu>>)
    ensures r.ret.None? <==> id !in db.menus.rows
    ensures r.ret.None? ==> r.db == db
    ensures r.ret.Some? ==> id in r.db.menus.rows && r.db.menus.rows[id] == r.ret.value
                            && MenuPatched(db.menus.rows[id], u, r.ret.value)
    ensures r.db.menus.rows.Keys == db.menus.rows.Keys
    ensures SameExcept(db.menus, r.db.menus, id)
    ensures OnlyTouched(db, r.db, {Menus})
    ensures ValidDb(db) ==> ValidDb(r.db)
  {
    var (ret, t) := Update(db.menus, id, m => ApplyMenuUpdate(m, u));
    Step(db.(menus := t), ret)
  }

  function DeleteMenu(db: Db, id: int): (r: Step<bool>)
    ensures r.ret <==> id in db.menus.rows
    ensures !r.ret ==> r.db == db
    ensures id !in r.db.menus.rows
    ensures SameExcept(db.menus, r.db.menus, id)
    ensures OnlyTouched(db, r.db, {Menus})
    ensures ValidDb(db) ==> ValidDb(r.db)
  {
    var (ret, t) := Delete(db.menus, id);
    Step(db.(menus := t), ret)
  }

  // ----- ADDONS -----

  /** An add-on needs an existing parent menu; otherwise "Menu not found"
      and nothing is written. */
  function CreateAddon(db: Db, menuId: int, a: AddonCreate): (r: Step<Result<int, Error>>)
    requires ValidDb(db)
    ensures r.ret.Failure? <==> menuId !in db.menus.rows
    ensures r.ret.Failure? ==> r.ret.error == MenuNotFound(menuId) && r.db == db
    ensures r.ret.Success? ==> && r.ret.value !in db.addons.rows
                               && r.ret.value in r.db.addons.rows
                               && r.db.addons.rows[r.ret.value] == Addon(menuId, a.name, a.price)
                               && r.db.addons.rows.Keys == db.addons.rows.Keys + {r.ret.value}
                               && SameExcept(db.addons, r.db.addons, r.ret.value)
    ensures OnlyTouched(db, r.db, {Addons})
    ensures ValidDb(r.db)
  {
    if menuId !in db.menus.rows then Step(db, Failure(MenuNotFound(menuId)))
    else
      var (id, t) := Insert(db.addons, Addon(menuId, a.name, a.price));
      Step(db.(addons := t), Success(id))
  }

  function UpdateAddon(db: Db, id: int, u: AddonUpdate): (r: Step<Option<Addon>>)
    ensures r.ret.None? <==> id !in db.addons.rows
    ensures r.ret.None? ==> r.db == db
    ensures r.ret.Some? ==> id in r.db.addons.rows && r.db.addons.rows[id] == r.ret.value
                            && AddonPatched(db.addons.rows[id], u, r.ret.value)
    ensures r.db.addons.rows.Keys == db.addons.rows.Keys
    ensures SameExcept(db.addons, r.db.addons, id)
    ensures OnlyTouched(db, r.db, {Addons})
    ensures ValidDb(db) ==> ValidDb(r.db)
  {
    var (ret, t) := Update(db.addons, id, a => ApplyAddonUpdate(a, u));
    Step(db.(addons := t), ret)
  }

  function DeleteAddon(db: Db, id: int): (r: Step<bool>)
    ensures r.ret <==> id in db.addons.rows
    ensures !r.ret ==> r.db == db
    ensures id !in r.db.addons.rows
    ensures SameExcept(db.addons, r.db.addons, id)
    ensures OnlyTouched(db, r.db, {Addons})
    ensures ValidDb(db) ==> ValidDb(r.db)
  {
    var (ret, t) := Delete(db.addons, id);
    Step(db.(addons := t), ret)
  }

  /** Deleting the add-on just created restores the add-on rows. */
  lemma CreateAddonThenDelete(db: Db, menuId: int, a: AddonCreate)
    requires ValidDb(db)
    requires menuId in db.menus.rows
    ensures var c := CreateAddon(db, menuId, a);
            c.ret.Success? && DeleteAddon(c.db, c.ret.value).db.addons.rows == db.addons.rows
  {
  }

  // ----- CUSTOMERS -----

  /** The phone is `phone_number or phone`: the create body has no `phone`
      field (a `phone` key a client sends is dropped), and an empty phone
      number is falsy, so it is stored as None. */
  function CreateCustomer(db: Db, c: CustomerCreate): (r: Step<int>)
    requires ValidDb(db)
    ensures r.ret !in db.customers.rows && r.ret in r.db.customers.rows
    ensures var row := r.db.customers.rows[r.ret];
            && row.name == c.name && row.email == c.email
            && (row.phoneNumber.Some? <==> c.phoneNumber.Some? && c.phoneNumber.value != "")
            && (row.phoneNumber.Some? ==> row.phoneNumber == c.phoneNumber)
    ensures r.db.customers.rows.Keys == db.customers.rows.Keys + {r.ret}
    ensures SameExcept(db.customers, r.db.customers, r.ret)
    ensures OnlyTouched(db, r.db, {Customers})
    ensures ValidDb(r.db)
  {
    var phone := if c.phoneNumber.Some? && c.phoneNumber.value != "" then c.phoneNumber else None;
    var (id, t) := Insert(db.customers, Customer(c.name, phone, c.email));
    Step(db.(customers := t), id)
  }

  function UpdateCustomer(db: Db, id: int, u: CustomerUpdate): (r: Step<Option<Customer>>)
    ensures r.ret.None? <==> id !in db.customers.rows
    ensures r.ret.None? ==> r.db == db
    ensures r.ret.Some? ==> id in r.db.customers.rows && r.db.customers.rows[id] == r.ret.value
                            && CustomerPatched(db.customers.rows[id], u, r.ret.value)
    ensures r.db.customers.rows.Keys == db.customers.rows.Keys
    ensures SameExcept(db.customers, r.db.customers, id)
    ensures OnlyTouched(db, r.db, {Customers})
    ensures ValidDb(db) ==> ValidDb(r.db)
  {
    var (ret, t) := Update(db.customers, id, c => ApplyCustomerUpdate(c, u));
    Step(db.(customers := t), ret)
  }

  function DeleteCustomer(db: Db, id: int): (r: Step<bool>)
    ensures r.ret <==> id in db.customers.rows
    ensures !r.ret ==> r.db == db
    ensures id !in r.db.customers.rows
    ensures SameExcept(db.customers, r.db.customers, id)
    ensures OnlyTouched(db, r.db, {Customers})
    ensures ValidDb(db) ==> ValidDb(r.db)
  {
    var (ret, t) := Delete(db.customers, id);
    Step(db.(customers := t), ret)
  }

  // ----- PAYMENTS -----

  /** A payment needs an existing order ("Order not found" otherwise, and
      nothing is written). The payment is stored as paid, with no paid-at
      time, and the same commit marks its order completed. The amount is
      not compared with the order's total. */
  function CreatePayment(db: Db, p: PaymentCreate): (r: Step<Result<int, Error>>)
    requires ValidDb(db)
    ensures r.ret.Failure? <==> p.orderId !in db.orders.rows
    ensures r.ret.Failure? ==> r.ret.error == OrderNotFound(p.orderId) && r.db == db
    ensures r.ret.Success? ==>
              && r.ret.value !in db.payments.rows
              && r.ret.value in r.db.payments.rows
              && r.db.payments.rows[r.ret.value] == Payment(p.orderId, p.amount, p.payMethod, PaidStatus, None)
              && r.db.payments.rows.Keys == db.payments.rows.Keys + {r.ret.value}
              && SameExcept(db.payments, r.db.payments, r.ret.value)
              && p.orderId in r.db.orders.rows
              && r.db.orders.rows[p.orderId] == db.orders.rows[p.orderId].(currentStatus := CompletedStatus)
              && r.db.orders.rows.Keys == db.orders.rows.Keys
              && SameExcept(db.orders, r.db.orders, p.orderId)
    ensures OnlyTouched(db, r.db, {Payments, Orders})
    ensures ValidDb(r.db)
  {
    if p.orderId !in db.orders.rows then Step(db, Failure(OrderNotFound(p.orderId)))
    else
      var (id, pays) := Insert(db.payments, Payment(p.orderId, p.amount, p.payMethod, PaidStatus, None));
      var (_, ords) := Update(db.orders, p.orderId, (o: Order) => o.(currentStatus := CompletedStatus));
      Step(db.(payments := pays, orders := ords), Success(id))
  }

  /** `update_payment` as written: the update body's `method` key has no
      matching column, so writing it raises before the commit. */
  function UpdatePaymentAsWritten(db: Db, id: int, u: PaymentUpdate): (r: Step<Result<Option<Payment>, Error>>)
    ensures id !in db.payments.rows ==> r == Step(db, Success(None))
    ensures id in db.payments.rows && u.payMethod.Set? ==> r == Step(db, Failure(NoSuchField("method")))
    ensures id in db.payments.rows && u.payMethod.Keep? ==> r.ret.Success? && r.ret.value.Some?
    ensures r.ret.Success? && r.ret.value.Some? ==>
              id in r.db.payments.rows && r.db.payments.rows[id] == r.ret.value.value
              && PaymentPatched(db.payments.rows[id], u, r.ret.value.value)
    ensures r.db.payments.rows.Keys == db.payments.rows.Keys
    ensures SameExcept(db.payments, r.db.payments, id)
    ensures OnlyTouched(db, r.db, {Payments})
    ensures ValidDb(db) ==> ValidDb(r.db)
  {
    if id !in db.payments.rows then Step(db, Success(None))
    else if u.payMethod.Set? then Step(db, Failure(NoSuchField("method")))
    else
      var (ret, t) := Update(db.payments, id, p => ApplyPaymentUpdate(p, u));
      Step(db.(payments := t), Success(ret))
  }

  /** `update_payment` as evidently intended: the `method` key writes the
      `payment_method` column like every other sent key. */
  function UpdatePayment(db: Db, id: int, u: PaymentUpdate): (r: Step<Option<Payment>>)
    ensures r.ret.None? <==> id !in db.payments.rows
    ensures r.ret.None? ==> r.db == db
    ensures r.ret.Some? ==> id in r.db.payments.rows && r.db.payments.rows[id] == r.ret.value
                            && PaymentPatched(db.payments.rows[id], u, r.ret.value)
    ensures r.db.payments.rows.Keys == db.payments.rows.Keys
    ensures SameExcept(db.payments, r.db.payments, id)
    ensures OnlyTouched(db, r.db, {Payments})
    ensures ValidDb(db) ==> ValidDb(r.db)
  {
    var (ret, t) := Update(db.payments, id, p => ApplyPaymentUpdate(p, u));
    Step(db.(payments := t), ret)
  }

  /** A request that only changes the payment method of an existing payment
      fails as written and leaves the method as it was; the corrected update
      stores the new method. */
  lemma PaymentMethodUpdateLost(db: Db, id: int, m: string)
    requires id in db.payments.rows
    ensures var u := PaymentUpdate(Keep, Set(m), Keep, Keep);
            && UpdatePaymentAsWritten(db, id, u).ret.Failure?
            && UpdatePaymentAsWritten(db, id, u).db.payments.rows[id].paymentMethod == db.payments.rows[id].paymentMethod
            && UpdatePayment(db, id, u).db.payments.rows[id].paymentMethod == m
  {
  }

  function DeletePayment(db: Db, id: int): (r: Step<bool>)
    ensures r.ret <==> id in db.payments.rows
    ensures !r.ret ==> r.db == db
    ensures id !in r.db.payments.rows
    ensures SameExcept(db.payments, r.db.payments, id)
    ensures OnlyTouched(db, r.db, {Payments})
    ensures ValidDb(db) ==> ValidDb(r.db)
  {
    var (ret, t) := Delete(db.payments, id);
    Step(db.(payments := t), ret)
  }

  // ----- ORDER -----

  /** `update_order`: an absent order yields None before any key is looked
      at; the `payment_method` key names no column of Order, so sending it
      for an existing order raises before the commit. */
  function UpdateOrder(db: Db, id: int, u: OrderUpdate): (r: Step<Result<Option<Order>, Error>>)
    ensures id !in db.orders.rows ==> r == Step(db, Success(None))
    ensures id in db.orders.rows && u.paymentMethod.Set? ==> r == Step(db, Failure(NoSuchField("payment_method")))
    ensures id in db.orders.rows && u.paymentMethod.Keep? ==>
              && r.ret.Success? && r.ret.value.Some?
              && id in r.db.orders.rows && r.db.orders.rows[id] == r.ret.value.value
              && OrderPatched(db.orders.rows[id], u, r.ret.value.value)
    ensures r.db.orders.rows.Keys == db.orders.rows.Keys
    ensures SameExcept(db.orders, r.db.orders, id)
    ensures OnlyTouched(db, r.db, {Orders})
    ensures ValidDb(db) ==> ValidDb(r.db)
  {
    if id !in db.orders.rows then Step(db, Success(None))
    else if u.paymentMethod.Set? then Step(db, Failure(NoSuchField("payment_method")))
    else
      var (ret, t) := Update(db.orders, id, o => ApplyOrderUpdate(o, u));
      Step(db.(orders := t), Success(ret))
  }

  function DeleteOrder(db: Db, id: int): (r: Step<bool>)
    ensures r.ret <==> id in db.orders.rows
    ensures !r.ret ==> r.db == db
    ensures id !in r.db.orders.rows
    ensures SameExcept(db.orders, r.db.orders, id)
    ensures OnlyTouched(db, r.db, {Orders})
    ensures ValidDb(db) ==> ValidDb(r.db)
  {
    var (ret, t) := Delete(db.orders, id);
    Step(db.(orders := t), ret)
  }

  /** Sending the same update twice has the effect of sending it once. */
  lemma UpdateMenuIdempotent(db: Db, id: int, u: MenuUpdate)
    ensures UpdateMenu(UpdateMenu(db, id, u).db, id, u) == UpdateMenu(db, id, u)
  {
    UpdateIdempotent(db.menus, id, m => ApplyMenuUpdate(m, u));
  }

  /** A second delete of the same id finds nothing and changes nothing. */
  lemma DeleteOrderTwice(db: Db, id: int)
    ensures var d := DeleteOrder(db, id).db;
            !DeleteOrder(d, id).ret && DeleteOrder(d, id).db == d
  {
  }
}
