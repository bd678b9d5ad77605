/** The whole database the CRUD layer talks to through its sessions: one
    table per persisted entity. Every operation of the model maps a store to
    a new store together with what the source function returns. */
module Store {
  import opened Tables
  import opened Records

  datatype Db = Db(
    categories: Table<Category>,
    menus: Table<Menu>,
    addons: Table<Addon>,
    customers: Table<Customer>,
    orders: Table<Order>,
    items: Table<OrderItem>,
    payments: Table<Payment>)

  /** The store after an operation, and what the operation returned. */
  datatype Step<R> = Step(db: Db, ret: R)

  /** An empty database. */
  function EmptyDb(): (db: Db)
    ensures ValidDb(db)
  {
    Db(Empty(), Empty(), Empty(), Empty(), Empty(), Empty(), Empty())
  }

  /** Every table can hand out a fresh identifier. */
  predicate ValidDb(db: Db) {
    && Valid(db.categories) && Valid(db.menus) && Valid(db.addons)
    && Valid(db.customers) && Valid(db.orders) && Valid(db.items)
    && Valid(db.payments)
  }

  datatype Kind = Categories | Menus | Addons | Customers | Orders | Items | Payments

  /** Every table not named in `touched` is identical in `db` and `db2`. */
  ghost predicate OnlyTouched(db: Db, db2: Db, touched: set<Kind>) {
    && (Categories !in touched ==> db2.categories == db.categories)
    && (Menus !in touched ==> db2.menus == db.menus)
    && (Addons !in touched ==> db2.addons == db.addons)
    && (Customers !in touched ==> db2.customers == db.customers)
    && (Orders !in touched ==> db2.orders == db.orders)
    && (Items !in touched ==> db2.items == db.items)
    && (Payments !in touched ==> db2.payments == db.payments)
  }
}
