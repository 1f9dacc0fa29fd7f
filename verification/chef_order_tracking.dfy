/**
 * The chef endpoints of the backend (Backend/ChefOrderTracking.py): the queue
 * of open orders and the accept / reject / complete transitions, each a
 * conditional UPDATE or DELETE whose affected-row count decides between 200
 * and 404.
 */
module ChefOrderTracking {
  import opened Common
  import opened OrderDb

  /** GET /pending-orders: the ids of the orders whose status is Pending or In Progress. */
  function PendingQueue(db: Db): (q: set<int>)
    ensures forall id :: id in q <==>
      id in db.orders && (db.orders[id].status == Pending || db.orders[id].status == InProgress)
    ensures q <= db.orders.Keys
  {
    set id | id in db.orders && db.orders[id].status != Completed
  }

  /** POST /accept-order. */
  function Accept(db: Db, orderId: Option<int>, chefId: Option<int>): (r: Reply)
    ensures r.status == 400 <==> !IsTruthyInt(orderId) || !IsTruthyInt(chefId)
    ensures r.status == 200 <==>
      IsTruthyInt(orderId) && IsTruthyInt(chefId)
      && orderId.value in db.orders && db.orders[orderId.value].status == Pending
    ensures r.status == 200 || r.status == 400 || r.status == 404
    ensures r.status != 200 ==> r.db == db
    ensures r.status == 200 ==>
      r.db == db.(orders := db.orders[orderId.value := db.orders[orderId.value].(status := InProgress, chefId := chefId)])
  {
    if !IsTruthyInt(orderId) || !IsTruthyInt(chefId) then Reply(400, db)
    else
      var id := orderId.value;
      if id in db.orders && db.orders[id].status == Pending
      then Reply(200, db.(orders := db.orders[id := db.orders[id].(status := InProgress, chefId := chefId)]))
      else Reply(404, db)
  }

  /** POST /reject-order: only a Pending order is deleted. */
  function Reject(db: Db, orderId: Option<int>): (r: Reply)
    ensures r.status == 400 <==> !IsTruthyInt(orderId)
    ensures r.status == 200 <==>
      IsTruthyInt(orderId) && orderId.value in db.orders && db.orders[orderId.value].status == Pending
    ensures r.status == 200 || r.status == 400 || r.status == 404
    ensures r.status != 200 ==> r.db == db
    ensures r.status == 200 ==> r.db == db.(orders := db.orders - {orderId.value})
  {
    if !IsTruthyInt(orderId) then Reply(400, db)
    else
      var id := orderId.value;
      if id in db.orders && db.orders[id].status == Pending
      then Reply(200, db.(orders := db.orders - {id}))
      else Reply(404, db)
  }

  /** POST /complete-order: only an In Progress order becomes Completed. */
  function Complete(db: Db, orderId: Option<int>): (r: Reply)
    ensures r.status == 400 <==> !IsTruthyInt(orderId)
    ensures r.status == 200 <==>
      IsTruthyInt(orderId) && orderId.value in db.orders && db.orders[orderId.value].status == InProgress
    ensures r.status == 200 || r.status == 400 || r.status == 404
    ensures r.status != 200 ==> r.db == db
    ensures r.status == 200 ==>
      r.db == db.(orders := db.orders[orderId.value := db.orders[orderId.value].(status := Completed)])
  {
    if !IsTruthyInt(orderId) then Reply(400, db)
    else
      var id := orderId.value;
      if id in db.orders && db.orders[id].status == InProgress
      then Reply(200, db.(orders := db.orders[id := db.orders[id].(status := Completed)]))
      else Reply(404, db)
  }

  /** Statuses only move forward: none of the three transitions brings an order
      back to an earlier status or creates one. */
  lemma TransitionsOnlyAdvance(db: Db, orderId: Option<int>, chefId: Option<int>)
    ensures Advances(db, Accept(db, orderId, chefId).db)
    ensures Advances(db, Reject(db, orderId).db)
    ensures Advances(db, Complete(db, orderId).db)
  {
  }

  /** 'Completed' is terminal: no transition, whatever its arguments, changes or
      removes a Completed order. */
  lemma CompletedIsTerminal(db: Db, id: int, orderId: Option<int>, chefId: Option<int>)
    requires id in db.orders && db.orders[id].status == Completed
    ensures var a := Accept(db, orderId, chefId).db;
      id in a.orders && a.orders[id] == db.orders[id]
    ensures var j := Reject(db, orderId).db;
      id in j.orders && j.orders[id] == db.orders[id]
    ensures var c := Complete(db, orderId).db;
      id in c.orders && c.orders[id] == db.orders[id]
  {
  }

  /** How a successful transition moves an order with respect to the chef's
      queue: accepting keeps it there (now In Progress), completing takes it
      out, rejecting deletes it. */
  lemma QueueAfterTransitions(db: Db, orderId: Option<int>, chefId: Option<int>)
    ensures Accept(db, orderId, chefId).status == 200 ==>
      orderId.value in PendingQueue(db) && orderId.value in PendingQueue(Accept(db, orderId, chefId).db)
    ensures Complete(db, orderId).status == 200 ==>
      orderId.value in PendingQueue(db) && orderId.value !in PendingQueue(Complete(db, orderId).db)
    ensures Reject(db, orderId).status == 200 ==>
      orderId.value !in Reject(db, orderId).db.orders
  {
  }

  /** A Pending order reaches Completed only through In Progress: completing it
      directly is refused, accepting then completing succeeds. */
  lemma LifecycleOrder(db: Db, id: int, chef: int)
    requires id != 0 && chef != 0
    requires id in db.orders && db.orders[id].status == Pending
    ensures Complete(db, Some(id)).status == 404
    ensures var a := Accept(db, Some(id), Some(chef));
      a.status == 200 && Complete(a.db, Some(id)).status == 200
      && Complete(a.db, Some(id)).db.orders[id].status == Completed
      && Complete(a.db, Some(id)).db.orders[id].chefId == Some(chef)
  {
  }
}
