/**
 * Order creation on the backend (Backend/placeOrder.py): request validation,
 * the order row with its total, the customer's reward counter and one
 * OrderItems row per cart item.
 */
module PlaceOrder {
  import opened Common
  import opened OrderDb

  /** One element of `cart_items` in the request. */
  datatype CartItem = CartItem(menuId: int, quantity: int, subtotal: int)

  /** Python `sum(item['subtotal'] for item in items)`. */
  function SumSubtotals(items: seq<CartItem>): int {
    if |items| == 0 then 0 else items[0].subtotal + SumSubtotals(items[1..])
  }

  function ItemRows(orderId: int, items: seq<CartItem>): (rows: seq<ItemRow>)
    ensures |rows| == |items|
    ensures forall k :: 0 <= k < |items| ==>
      rows[k] == ItemRow(orderId, items[k].menuId, items[k].quantity, items[k].subtotal)
  {
    seq(|items|, k requires 0 <= k < |items| =>
      ItemRow(orderId, items[k].menuId, items[k].quantity, items[k].subtotal))
  }

  /** The reply of POST /place-order: status, tables, and the new order id. */
  datatype Placed = Placed(status: int, db: Db, orderId: Option<int>)

  /** The request is refused when `table_number` or `customer_id` is missing
      or 0, or `cart_items` is missing or empty. */
  predicate Refused(table: Option<int>, customer: Option<int>, items: Option<seq<CartItem>>) {
    !IsTruthyInt(table) || !IsTruthyInt(customer) || items.None? || items.value == []
  }

  /** POST /place-order; `today` is the date the database stamps on the order. */
  function Place(db: Db, table: Option<int>, customer: Option<int>,
                 items: Option<seq<CartItem>>, today: int): (r: Placed)
    ensures r.status == 400 <==> Refused(table, customer, items)
    ensures r.status == 400 ==> r.db == db && r.orderId.None?
    ensures r.status != 400 ==> r.status == 201 && r.orderId == Some(db.nextOrderId)
  {
    if Refused(table, customer, items) then Placed(400, db, None)
    else
      var id := db.nextOrderId;
      var c := customer.value;
      var order := Order(table.value, c, Pending, None, SumSubtotals(items.value), today);
      var rewards := if c in db.rewards then db.rewards[c := db.rewards[c] + 1] else db.rewards;
      Placed(201, Db(db.orders[id := order], db.items + ItemRows(id, items.value), rewards, id + 1), Some(id))
  }

  /** A placed order is new, Pending, for that table and customer, and its total
      is the sum of the items' subtotals; exactly one item row per cart item is
      appended, carrying its menu id, quantity and subtotal; the customer's
      rewards row, when there is one, counts one more order and no other row
      changes; no existing order changes and the id counter stays ahead of
      every id. */
  lemma PlacedOrderShape(db: Db, table: Option<int>, customer: Option<int>,
                         items: Option<seq<CartItem>>, today: int)
    requires Valid(db)
    requires !Refused(table, customer, items)
    ensures var r := Place(db, table, customer, items, today);
      var id := r.orderId.value;
      && id !in db.orders
      && r.db.orders.Keys == db.orders.Keys + {id}
      && (forall o :: o in db.orders ==> r.db.orders[o] == db.orders[o])
      && r.db.orders[id].status == Pending
      && r.db.orders[id].tableNumber == table.value
      && r.db.orders[id].customerId == customer.value
      && r.db.orders[id].totalPrice == SumSubtotals(items.value)
      && |r.db.items| == |db.items| + |items.value|
      && r.db.items[..|db.items|] == db.items
      && (forall k :: 0 <= k < |items.value| ==>
            var row := r.db.items[|db.items| + k];
            row.orderId == id && row.menuId == items.value[k].menuId
            && row.quantity == items.value[k].quantity && row.subtotal == items.value[k].subtotal)
      && r.db.rewards == (if customer.value in db.rewards
                          then db.rewards[customer.value := db.rewards[customer.value] + 1]
                          else db.rewards)
      && Valid(r.db)
  {
  }
}
