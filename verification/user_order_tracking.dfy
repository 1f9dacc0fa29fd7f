/**
 * The customer's order listing on the backend (Backend/userOrderTracking.py):
 * the customer's Pending orders if there are any, otherwise the In Progress
 * ones, otherwise the Completed ones placed today (the day of `order_time`,
 * not of completion).
 */
module UserOrderTracking {
  import opened Common
  import opened OrderDb

  /** The customer's orders with the given status. */
  function OrdersWith(db: Db, customer: int, s: Status): set<int> {
    set id | id in db.orders && db.orders[id].customerId == customer && db.orders[id].status == s
  }

  /** The customer's Completed orders placed on `today`. */
  function CompletedOn(db: Db, customer: int, today: int): set<int> {
    set id | id in db.orders && db.orders[id].customerId == customer
             && db.orders[id].status == Completed && db.orders[id].day == today
  }

  datatype Listing = Listing(status: int, ids: set<int>)

  /** POST /pendingorders. `userId` is `None` when the form field is missing or
      empty; `today` is the server's current date. */
  function CustomerOrders(db: Db, userId: Option<int>, today: int): (r: Listing)
    ensures r.status == 400 <==> userId.None?
    ensures r.status == 400 ==> r.ids == {}
    ensures userId.Some? ==> r.status == 200
    ensures userId.Some? ==> forall id :: id in r.ids ==>
      id in db.orders && db.orders[id].customerId == userId.value
  {
    if userId.None? then Listing(400, {})
    else
      var c := userId.value;
      var pending := OrdersWith(db, c, Pending);
      if pending != {} then Listing(200, pending)
      else
        var inProgress := OrdersWith(db, c, InProgress);
        if inProgress != {} then Listing(200, inProgress)
        else Listing(200, CompletedOn(db, c, today))
  }

  /** POST /pendingorders as the screen sends it: `userId` is the text of the
      `user_id` form field (`None` when missing). The guard refuses only a
      missing or empty text, so "0" passes. The queries bind the text itself;
      `asCustomer` stands for MySQL's comparison of that text with the integer
      `customer_id` column: the customer id it compares equal to, or `None`
      when it equals no integer. */
  function CustomerOrdersForm(db: Db, userId: Option<string>, asCustomer: string -> Option<int>,
                              today: int): (r: Listing)
    ensures r.status == 400 <==> !IsTruthyText(userId)
    ensures r.status == 400 ==> r.ids == {}
    ensures IsTruthyText(userId) && asCustomer(userId.value).None? ==> r == Listing(200, {})
    ensures IsTruthyText(userId) && asCustomer(userId.value).Some? ==>
      r == CustomerOrders(db, asCustomer(userId.value), today)
  {
    if !IsTruthyText(userId) then Listing(400, {})
    else
      var c := asCustomer(userId.value);
      if c.None? then Listing(200, {}) else CustomerOrders(db, c, today)
  }

  /** The numeral of a customer id, "0" included, lists that customer's
      orders. */
  lemma NumeralListsCustomer(db: Db, c: nat, asCustomer: string -> Option<int>, today: int)
    requires asCustomer(DecimalText(c)) == Some(c)
    ensures var r := CustomerOrdersForm(db, Some(DecimalText(c)), asCustomer, today);
      r.status == 200 && r == CustomerOrders(db, Some(c), today)
  {
  }

  /** The fallback chain: Pending orders win; In Progress ones are listed only
      when there is no Pending order; Completed orders placed today only when
      there is neither. */
  lemma FallbackChain(db: Db, c: int, today: int)
    ensures OrdersWith(db, c, Pending) != {} ==>
      CustomerOrders(db, Some(c), today).ids == OrdersWith(db, c, Pending)
    ensures OrdersWith(db, c, Pending) == {} && OrdersWith(db, c, InProgress) != {} ==>
      CustomerOrders(db, Some(c), today).ids == OrdersWith(db, c, InProgress)
    ensures OrdersWith(db, c, Pending) == {} && OrdersWith(db, c, InProgress) == {} ==>
      CustomerOrders(db, Some(c), today).ids == CompletedOn(db, c, today)
  {
  }

  /** Every listed order belongs to the customer, and all listed orders share
      one status; an In Progress one is listed only if no order is Pending, a
      Completed one only if it was placed today and nothing is open. */
  lemma ListingIsUniform(db: Db, c: int, today: int)
    ensures var ids := CustomerOrders(db, Some(c), today).ids;
      && (forall a, b :: a in ids && b in ids ==> db.orders[a].status == db.orders[b].status)
      && (forall id :: id in ids && db.orders[id].status == InProgress ==> OrdersWith(db, c, Pending) == {})
      && (forall id :: id in ids && db.orders[id].status == Completed ==>
            db.orders[id].day == today && OrdersWith(db, c, Pending) == {} && OrdersWith(db, c, InProgress) == {})
  {
  }
}
