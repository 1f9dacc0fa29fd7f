/**
 * The backend's order tables (Orders, OrderItems, UserRewards) as immutable
 * values. Order ids come from an auto-increment counter.
 */
module OrderDb {
  import opened Common

  /** The three values the backend ever writes into `order_status`. */
  datatype Status = Pending | InProgress | Completed

  /** The text stored in the `order_status` column. */
  function StatusName(s: Status): string {
    match s
    case Pending => "Pending"
    case InProgress => "In Progress"
    case Completed => "Completed"
  }

  /** Position of a status in the lifecycle Pending -> In Progress -> Completed. */
  function Rank(s: Status): nat {
    match s
    case Pending => 0
    case InProgress => 1
    case Completed => 2
  }

  /** A row of `Orders`; `day` is the calendar day of `order_time`. */
  datatype Order = Order(tableNumber: int, customerId: int, status: Status,
                         chefId: Option<int>, totalPrice: int, day: int)

  /** A row of `OrderItems`. */
  datatype ItemRow = ItemRow(orderId: int, menuId: int, quantity: int, subtotal: int)

  /** The tables: orders by id, the order items in insertion order, the
      `orders` counter of `UserRewards` by user id, and the next auto-increment id. */
  datatype Db = Db(orders: map<int, Order>, items: seq<ItemRow>,
                   rewards: map<int, int>, nextOrderId: int)

  /** The auto-increment counter is above every id in use. */
  predicate Valid(db: Db) {
    forall id :: id in db.orders ==> id < db.nextOrderId
  }

  /** An HTTP status code together with the tables after the request. */
  datatype Reply = Reply(status: int, db: Db)

  /** Every order still present was already there, and its status did not move
      backwards in the lifecycle. */
  predicate Advances(before: Db, after: Db) {
    forall id :: id in after.orders ==>
      id in before.orders && Rank(before.orders[id].status) <= Rank(after.orders[id].status)
  }
}
