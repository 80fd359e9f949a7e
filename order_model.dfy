/** The order schema: required table number and tip, an untyped item list, defaults for the rest. */
module OrderModel {
  import opened Common

  /**
   * A modifier as the client submits it inside an item: a snapshot of its name and price.
   * `changePrice` is `None` when the client leaves it out.
   */
  datatype OrderChange = OrderChange(changeName: string, changePrice: Option<real>)

  /**
   * An ordered item as submitted: a snapshot of the dish's name and price and its modifiers.
   * `items` is an untyped list, so nothing guarantees that an item carries a `dishPrice` or a
   * `changeList`; a missing one is `None`.
   */
  datatype OrderItem = OrderItem(dishName: string, dishPrice: Option<real>, changeList: Option<seq<OrderChange>>)

  /**
   * A stored order, keyed by the URL parameter it was posted under. `status` false means open;
   * `date` is the insertion time in ms.
   */
  datatype Order = Order(
    user: Id,
    tableNumber: int,
    date: int,
    status: bool,
    items: seq<OrderItem>,
    tip: real,
    totalPrice: real)

  const DefaultStatus: bool := false

  /** An order inserted by an upsert: open, dated now, with the fields the request sets. */
  function NewOrder(key: Id, tableNumber: int, items: seq<OrderItem>, tip: real, totalPrice: real, now: int): (o: Order)
    ensures !o.status && o.date == now
    ensures o.user == key && o.tableNumber == tableNumber && o.items == items
    ensures o.tip == tip && o.totalPrice == totalPrice
  {
    Order(key, tableNumber, now, DefaultStatus, items, tip, totalPrice)
  }
}
