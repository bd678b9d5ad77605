/** The persisted entities of app/models.py and the request shapes of
    app/schemas.py. Prices and amounts are exact integers (cents) where the
    source uses floating point; timestamps are opaque strings. */
module Records {
  import opened Wrappers

  // Literal values the source writes into status columns and defaults.
  const PendingStatus: string := "pending"
  const CompletedStatus: string := "completed"
  const PaidStatus: string := "paid"
  const DefaultPaymentMethod: string := "cash"
  const DefaultQuantity: int := 1

  datatype Category = Category(name: string)

  datatype Menu = Menu(
    name: string,
    price: int,
    categoryId: Option<int>,
    imageUrl: Option<string>,
    description: Option<string>,
    isAvailable: bool,
    averageRating: real)

  datatype Addon = Addon(menuId: int, name: string, price: int)

  datatype Customer = Customer(name: string, phoneNumber: Option<string>, email: Option<string>)

  /** An order header. The table has no payment-method column. */
  datatype Order = Order(
    customerId: Option<int>,
    discountId: Option<int>,
    totalAfterDiscount: int,
    currentStatus: string,
    userId: Option<int>)

  datatype OrderItem = OrderItem(orderId: int, menuId: int, quantity: int, subtotal: int)

  datatype Payment = Payment(
    orderId: int,
    amount: int,
    paymentMethod: string,
    paymentStatus: string,
    paidAt: Option<string>)

  /** A freshly constructed Order row: status "pending", total 0. */
  function NewOrder(customerId: Option<int>): Order
  {
    Order(customerId, None, 0, PendingStatus, None)
  }

  // ----- request bodies -----

  /** One requested line. `clientSubtotal` is accepted and never read. */
  datatype LineRequest = LineRequest(
    menuId: int,
    quantity: int,
    clientSubtotal: Option<int>,
    addonIds: Option<seq<int>>)

  datatype OrderRequest = OrderRequest(
    customerId: Option<int>,
    paymentMethod: Option<string>,
    items: seq<LineRequest>)

  /** A line that names only its menu item: quantity 1, no add-ons. */
  function DefaultLine(menuId: int): LineRequest
  {
    LineRequest(menuId, DefaultQuantity, None, None)
  }

  /** An order request that only lists its lines: no customer, paying cash. */
  function DefaultOrderRequest(items: seq<LineRequest>): OrderRequest
  {
    OrderRequest(None, Some(DefaultPaymentMethod), items)
  }

  datatype MenuCreate = MenuCreate(
    name: string,
    price: int,
    categoryId: Option<int>,
    imageUrl: Option<string>,
    isAvailable: bool,
    description: Option<string>)

  datatype AddonCreate = AddonCreate(name: string, price: int)

  datatype CustomerCreate = CustomerCreate(name: string, phoneNumber: Option<string>, email: Option<string>)

  /** `payMethod` is the body key `method` (default "cash"). */
  datatype PaymentCreate = PaymentCreate(orderId: int, amount: int, payMethod: string)

  // ----- partial updates -----

  /** One field of an update body: left out by the client (`Keep`), or sent
      with a value (`Set`). Only sent fields are written. */
  datatype Patch<T> = Keep | Set(value: T)

  /** `written` is what a write of `p` over `current` leaves in the column:
      the sent value, or the old one when the field was not sent. */
  ghost predicate Patched<T>(p: Patch<T>, current: T, written: T) {
    match p
    case Keep => written == current
    case Set(v) => written == v
  }

  function Apply<T>(p: Patch<T>, current: T): T
  {
    match p
    case Keep => current
    case Set(v) => v
  }

  datatype CategoryUpdate = CategoryUpdate(name: Patch<string>)

  datatype MenuUpdate = MenuUpdate(
    name: Patch<string>,
    price: Patch<int>,
    categoryId: Patch<Option<int>>,
    imageUrl: Patch<Option<string>>,
    isAvailable: Patch<bool>,
    description: Patch<Option<string>>)

  datatype AddonUpdate = AddonUpdate(name: Patch<string>, price: Patch<int>)

  datatype CustomerUpdate = CustomerUpdate(
    name: Patch<string>,
    phoneNumber: Patch<Option<string>>,
    email: Patch<Option<string>>)

  /** `paymentMethod` names no column of Order. */
  datatype OrderUpdate = OrderUpdate(
    customerId: Patch<Option<int>>,
    paymentMethod: Patch<Option<string>>,
    currentStatus: Patch<string>)

  /** `payMethod` is the body key `method`, which names no column of Payment
      (the column is `payment_method`). */
  datatype PaymentUpdate = PaymentUpdate(
    amount: Patch<int>,
    payMethod: Patch<string>,
    paymentStatus: Patch<string>,
    paidAt: Patch<Option<string>>)

  // ----- errors -----

  /** The ValueErrors the CRUD layer raises, and the one the model layer
      raises when an update names a field the row does not have. */
  datatype Error =
    | CustomerNotFound(customerId: int)
    | MenuNotFound(menuId: int)
    | AddonNotFound(addonId: int)
    | OrderNotFound(orderId: int)
    | NoSuchField(field: string)
}
