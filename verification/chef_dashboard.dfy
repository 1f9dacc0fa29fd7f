/**
 * The chef's order queue on the client (SmartHotel/src/Screens/ChefDashboard.js):
 * the poll that replaces the list with the server's pending orders, the
 * one-second countdown, and the list updates after accept, reject and complete.
 * Every React state update is a pure function from the previous list to the
 * next one; timers and HTTP calls become explicit arguments.
 */
module ChefDashboard {
  import opened Common

  /** The countdown a new order starts with when its record has no `timeLeft`. */
  const DefaultTimeLeft := 10

  datatype FoodLine = FoodLine(foodName: string, quantity: int, subtotal: int)

  /** One order as the pending-orders endpoint sends it; `timeLeft` is the
      record's own timer field, which the backend never fills in. */
  datatype ServerOrder = ServerOrder(orderId: int, tableNumber: int, status: string,
                                     items: seq<FoodLine>, timeLeft: Option<int>)

  /** One entry of the dashboard list: the server record plus the client-only
      countdown and the locally set accepted/completed flags. */
  datatype OrderView = OrderView(orderId: int, tableNumber: int, status: string,
                                 items: seq<FoodLine>, timeLeft: Option<int>,
                                 accepted: bool, completed: bool)

  /** How a POST to the backend ended: with a 2xx body (whose `message` may be
      missing), or with an exception (transport failure or a non-2xx status,
      which axios throws). */
  datatype PostOutcome = Replied(hasMessage: bool) | Threw

  /** How the GET of the pending orders ended. */
  datatype FetchOutcome = Fetched(orders: seq<ServerOrder>) | FetchFailed

  // ---------------------------------------------------------------------------
  // Poll

  /** JavaScript `prevOrders.find(o => o.order_id === id)`: the first entry with that id. */
  function FindById(views: seq<OrderView>, id: int): (r: Option<OrderView>)
    ensures r.Some? ==> r.value in views && r.value.orderId == id
    ensures r.Some? ==> exists k :: 0 <= k < |views| && views[k] == r.value
                                    && forall j :: 0 <= j < k ==> views[j].orderId != id
    ensures r.None? <==> forall v :: v in views ==> v.orderId != id
  {
    if |views| == 0 then None
    else if views[0].orderId == id then Some(views[0])
    else FindById(views[1..], id)
  }

  /** The list entry a fetched server order becomes (lines 40-45). */
  function Adopt(o: ServerOrder, prev: seq<OrderView>): OrderView {
    var prior := FindById(prev, o.orderId);
    OrderView(o.orderId, o.tableNumber, o.status, o.items,
              if o.timeLeft.Some? then o.timeLeft else Some(DefaultTimeLeft),
              prior.Some? && prior.value.accepted,
              prior.Some? && prior.value.completed)
  }

  function AdoptAll(incoming: seq<ServerOrder>, prev: seq<OrderView>): (r: seq<OrderView>)
    ensures |r| == |incoming|
    ensures forall i :: 0 <= i < |incoming| ==> r[i] == Adopt(incoming[i], prev)
  {
    seq(|incoming|, i requires 0 <= i < |incoming| => Adopt(incoming[i], prev))
  }

  /** `prevOrders.filter(order => order.accepted)`. */
  function KeepAccepted(views: seq<OrderView>): seq<OrderView> {
    if |views| == 0 then []
    else (if views[0].accepted then [views[0]] else []) + KeepAccepted(views[1..])
  }

  /** The functional update applied when the GET returns (lines 35-52): on a
      non-empty response the previously accepted entries followed by every
      incoming order, on an empty one only the previously accepted entries. */
  function Reconcile(prev: seq<OrderView>, incoming: seq<ServerOrder>): (r: seq<OrderView>)
    ensures |r| == |KeepAccepted(prev)| + |incoming|
    ensures r[..|KeepAccepted(prev)|] == KeepAccepted(prev)
    ensures forall i :: 0 <= i < |incoming| ==> r[|KeepAccepted(prev)| + i] == Adopt(incoming[i], prev)
  {
    if |incoming| > 0 then KeepAccepted(prev) + AdoptAll(incoming, prev)
    else KeepAccepted(prev)
  }

  /** `setOrders([])` at the start of every poll (line 31). */
  function Clear(views: seq<OrderView>): seq<OrderView> {
    []
  }

  /** One whole poll: the list is cleared, then the response (if any) is
      reconciled against the cleared list. */
  function Poll(views: seq<OrderView>, outcome: FetchOutcome): seq<OrderView> {
    match outcome
    case Fetched(incoming) => Reconcile(Clear(views), incoming)
    case FetchFailed => Clear(views)
  }

  // ---------------------------------------------------------------------------
  // Countdown

  /** One second of countdown for one entry (lines 73-76). */
  function TickOne(v: OrderView): OrderView {
    if !v.accepted && v.timeLeft.Some? && v.timeLeft.value > 0
    then v.(timeLeft := Some(v.timeLeft.value - 1))
    else v
  }

  /** The one-second interval's update of the whole list. */
  function Tick(views: seq<OrderView>): (r: seq<OrderView>)
    ensures |r| == |views|
    ensures forall i :: 0 <= i < |views| ==> r[i] == TickOne(views[i])
  {
    seq(|views|, i requires 0 <= i < |views| => TickOne(views[i]))
  }

  /** `n` successive ticks. */
  function TickN(views: seq<OrderView>, n: nat): (r: seq<OrderView>)
    ensures |r| == |views|
  {
    if n == 0 then views else Tick(TickN(views, n - 1))
  }

  function TickOneN(v: OrderView, n: nat): OrderView {
    if n == 0 then v else TickOne(TickOneN(v, n - 1))
  }

  // ---------------------------------------------------------------------------
  // Accept, reject, complete

  /** `handleAccept` (lines 95-111): the list changes only when the backend
      replied with a message. */
  function HandleAccept(views: seq<OrderView>, id: int, outcome: PostOutcome): (r: seq<OrderView>)
    ensures |r| == |views|
    ensures outcome != Replied(true) ==> r == views
    ensures outcome == Replied(true) ==>
      forall i :: 0 <= i < |views| ==>
        if views[i].orderId == id
        then r[i] == views[i].(timeLeft := None, accepted := true, completed := false)
        else r[i] == views[i]
  {
    if outcome == Replied(true)
    then seq(|views|, i requires 0 <= i < |views| =>
           if views[i].orderId == id
           then views[i].(timeLeft := None, accepted := true, completed := false)
           else views[i])
    else views
  }

  /** `prevOrders.filter(order => order.order_id !== id)`. */
  function DropId(views: seq<OrderView>, id: int): seq<OrderView> {
    if |views| == 0 then []
    else (if views[0].orderId != id then [views[0]] else []) + DropId(views[1..], id)
  }

  /** `handleReject` (lines 116-127): any 2xx reply removes the entries with
      that id, whatever the body says; an exception leaves the list alone. */
  function HandleReject(views: seq<OrderView>, id: int, outcome: PostOutcome): seq<OrderView> {
    if outcome.Replied? then DropId(views, id) else views
  }

  /** `handleComplete` (lines 130-145). */
  function HandleComplete(views: seq<OrderView>, id: int, outcome: PostOutcome): (r: seq<OrderView>)
    ensures |r| == |views|
    ensures outcome.Threw? ==> r == views
    ensures outcome.Replied? ==>
      forall i :: 0 <= i < |views| ==>
        r[i] == if views[i].orderId == id then views[i].(completed := true) else views[i]
  {
    if outcome.Replied?
    then seq(|views|, i requires 0 <= i < |views| =>
           if views[i].orderId == id then views[i].(completed := true) else views[i])
    else views
  }

  // ---------------------------------------------------------------------------
  // What a card shows (lines 184-217)

  datatype Controls = Controls(countdown: bool, acceptReject: bool, complete: bool, completedLabel: bool)

  function ControlsOf(v: OrderView): Controls {
    Controls(v.status == "Pending" && v.timeLeft.Some?,
             v.status == "Pending",
             v.status == "In Progress",
             v.status == "Completed")
  }

  // ---------------------------------------------------------------------------
  // Properties

  /** The accepted entries are kept in order: filtering distributes over concatenation. */
  lemma {:induction false} KeepAcceptedAppend(a: seq<OrderView>, b: seq<OrderView>)
    ensures KeepAccepted(a + b) == KeepAccepted(a) + KeepAccepted(b)
    decreases |a|
  {
    if |a| > 0 {
      var head := if a[0].accepted then [a[0]] else [];
      assert (a + b)[0] == a[0];
      assert (a + b)[1..] == a[1..] + b;
      KeepAcceptedAppend(a[1..], b);
      assert KeepAccepted(a + b) == head + KeepAccepted(a[1..] + b);
    } else {
      assert a + b == b;
    }
  }

  /** An entry survives `KeepAccepted` exactly when it was there and accepted. */
  lemma {:induction false} KeepAcceptedMembers(views: seq<OrderView>)
    ensures forall v :: v in KeepAccepted(views) <==> v in views && v.accepted
    ensures |KeepAccepted(views)| <= |views|
    decreases |views|
  {
    if |views| > 0 {
      KeepAcceptedMembers(views[1..]);
      assert views == [views[0]] + views[1..];
    }
  }

  /** Reconciliation: all previously accepted entries in their old order, then
      every fetched order in server order, each fetched one carrying the server's
      `timeLeft` (10 if it has none) and the flags of the first previous entry
      with its id. */
  lemma ReconcileShape(prev: seq<OrderView>, incoming: seq<ServerOrder>)
    ensures var r := Reconcile(prev, incoming);
      && |r| == |KeepAccepted(prev)| + |incoming|
      && (forall v :: v in r[..|KeepAccepted(prev)|] <==> v in prev && v.accepted)
      && (forall i :: 0 <= i < |incoming| ==>
            var v := r[|KeepAccepted(prev)| + i];
            && v.orderId == incoming[i].orderId && v.status == incoming[i].status
            && v.items == incoming[i].items && v.tableNumber == incoming[i].tableNumber
            && v.timeLeft == (if incoming[i].timeLeft.Some? then incoming[i].timeLeft else Some(10))
            && (v.accepted <==> FindById(prev, incoming[i].orderId).Some? && FindById(prev, incoming[i].orderId).value.accepted)
            && (v.completed <==> FindById(prev, incoming[i].orderId).Some? && FindById(prev, incoming[i].orderId).value.completed))
  {
    KeepAcceptedMembers(prev);
  }

  /** An empty response keeps exactly the previously accepted entries, in order. */
  lemma EmptyFetchKeepsAccepted(prev: seq<OrderView>)
    ensures Reconcile(prev, []) == KeepAccepted(prev)
    ensures forall v :: v in Reconcile(prev, []) <==> v in prev && v.accepted
  {
    KeepAcceptedMembers(prev);
  }

  /** Accepted entries are not de-duplicated: an accepted order the server still
      lists (as In Progress) appears twice after the merge. */
  lemma MergeDuplicatesAccepted(v: OrderView, o: ServerOrder)
    requires v.accepted && v.orderId == o.orderId
    ensures var r := Reconcile([v], [o]);
      |r| == 2 && r[0] == v && r[1].orderId == v.orderId && r[1].accepted
  {
    assert KeepAccepted([v]) == [v];
  }

  /** As written, the clear at the start of the poll means the merge always
      sees an empty previous list: whatever was accepted or completed locally is
      forgotten and every fetched order restarts with the default flags. */
  lemma PollForgetsLocalFlags(views: seq<OrderView>, incoming: seq<ServerOrder>)
    ensures var r := Poll(views, Fetched(incoming));
      && |r| == |incoming|
      && forall i :: 0 <= i < |incoming| ==> !r[i].accepted && !r[i].completed && r[i].orderId == incoming[i].orderId
  {
  }

  /** A failed poll leaves the list empty (the clear already happened). */
  lemma FailedPollEmptiesList(views: seq<OrderView>)
    ensures Poll(views, FetchFailed) == []
  {
  }

  /** Ticking changes nothing but `timeLeft`, and only on entries that are not
      accepted and have a positive countdown, which drops by exactly one. */
  lemma TickOnlyCountsDown(views: seq<OrderView>)
    ensures var r := Tick(views);
      && |r| == |views|
      && forall i :: 0 <= i < |views| ==>
           && r[i].(timeLeft := views[i].timeLeft) == views[i]
           && (if !views[i].accepted && views[i].timeLeft.Some? && views[i].timeLeft.value > 0
               then r[i].timeLeft == Some(views[i].timeLeft.value - 1)
               else r[i] == views[i])
  {
  }

  lemma {:induction false} TickNPointwise(views: seq<OrderView>, n: nat)
    ensures |TickN(views, n)| == |views|
    ensures forall i :: 0 <= i < |views| ==> TickN(views, n)[i] == TickOneN(views[i], n)
  {
    if n > 0 {
      TickNPointwise(views, n - 1);
    }
  }

  lemma {:induction false} TickOneNValue(v: OrderView, n: nat)
    ensures !v.accepted && v.timeLeft.Some? && v.timeLeft.value >= 0 ==>
      TickOneN(v, n) == v.(timeLeft := Some(if v.timeLeft.value >= n then v.timeLeft.value - n else 0))
    ensures v.accepted ==> TickOneN(v, n) == v
  {
    if n > 0 {
      TickOneNValue(v, n - 1);
    }
  }

  /** Countdown: `n` ticks take a non-negative countdown of an entry that is not
      accepted down by exactly `n`, flooring at 0; an accepted entry (whose
      countdown is cleared) never changes. */
  lemma TickNCountdown(views: seq<OrderView>, n: nat)
    ensures |TickN(views, n)| == |views|
    ensures forall i :: 0 <= i < |views| && !views[i].accepted && views[i].timeLeft.Some? && views[i].timeLeft.value >= 0 ==>
      TickN(views, n)[i].timeLeft == Some(if views[i].timeLeft.value >= n then views[i].timeLeft.value - n else 0)
    ensures forall i :: 0 <= i < |views| && views[i].accepted ==> TickN(views, n)[i] == views[i]
  {
    TickNPointwise(views, n);
    forall i | 0 <= i < |views|
      ensures !views[i].accepted && views[i].timeLeft.Some? && views[i].timeLeft.value >= 0 ==>
        TickN(views, n)[i].timeLeft == Some(if views[i].timeLeft.value >= n then views[i].timeLeft.value - n else 0)
      ensures views[i].accepted ==> TickN(views, n)[i] == views[i]
    {
      TickOneNValue(views[i], n);
    }
  }

  /** After a successful accept the entries with that id show no countdown,
      and later ticks never touch them. */
  lemma AcceptStopsCountdown(views: seq<OrderView>, id: int, n: nat)
    ensures var r := HandleAccept(views, id, Replied(true));
      forall i :: 0 <= i < |r| && views[i].orderId == id ==>
        && r[i].timeLeft.None? && r[i].accepted && !r[i].completed
        && !ControlsOf(r[i]).countdown
        && TickN(r, n)[i] == r[i]
  {
    var r := HandleAccept(views, id, Replied(true));
    TickNCountdown(r, n);
  }

  /** Reject removes every entry with that id and keeps the others in order,
      whatever the reply's body holds. */
  lemma {:induction false} RejectRemovesId(views: seq<OrderView>, id: int, hasMessage: bool)
    ensures var r := HandleReject(views, id, Replied(hasMessage));
      && (forall v :: v in r <==> v in views && v.orderId != id)
      && |r| <= |views|
    decreases |views|
  {
    if |views| > 0 {
      RejectRemovesId(views[1..], id, hasMessage);
      assert views == [views[0]] + views[1..];
    }
  }

  lemma {:induction false} RejectKeepsOrder(a: seq<OrderView>, b: seq<OrderView>, id: int)
    ensures DropId(a + b, id) == DropId(a, id) + DropId(b, id)
    decreases |a|
  {
    if |a| > 0 {
      var head := if a[0].orderId != id then [a[0]] else [];
      assert (a + b)[0] == a[0];
      assert (a + b)[1..] == a[1..] + b;
      RejectKeepsOrder(a[1..], b, id);
      assert DropId(a + b, id) == head + DropId(a[1..] + b, id);
    } else {
      assert a + b == b;
    }
  }

  /** A failed accept, reject or complete leaves the list as it was. */
  lemma FailedActionsChangeNothing(views: seq<OrderView>, id: int)
    ensures HandleAccept(views, id, Threw) == views
    ensures HandleAccept(views, id, Replied(false)) == views
    ensures HandleReject(views, id, Threw) == views
    ensures HandleComplete(views, id, Threw) == views
  {
  }

  /** Completing sets only the local `completed` flag, which no card displays:
      the controls of every entry stay the same, and completing twice is
      completing once. */
  lemma CompleteInvisible(views: seq<OrderView>, id: int)
    ensures var r := HandleComplete(views, id, Replied(true));
      && (forall i :: 0 <= i < |views| ==> ControlsOf(r[i]) == ControlsOf(views[i]))
      && HandleComplete(r, id, Replied(true)) == r
  {
  }

  /** A card shows at most one group of controls: accept/reject for Pending,
      complete for In Progress, the completed label for Completed; the
      countdown only alongside accept/reject. */
  lemma ControlsExclusive(v: OrderView)
    ensures var c := ControlsOf(v);
      && (c.countdown ==> c.acceptReject)
      && !(c.acceptReject && c.complete) && !(c.acceptReject && c.completedLabel)
      && !(c.complete && c.completedLabel)
  {
  }
}
