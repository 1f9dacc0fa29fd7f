/**
 * The customer's "My Orders" screen (SmartHotel/src/Screens/OrderItemScreen.js):
 * when it polls, how it reads the reply, which status tab it selects, which
 * orders the selected tab shows, and the style of a status. Related to the
 * listing in module UserOrderTracking.
 */
module OrderItemScreen {
  import opened Common
  import opened OrderDb
  import UserOrderTracking

  /** An order as the reply lists it. */
  datatype OrderCard = OrderCard(orderId: int, tableNumber: int, status: string)

  /** The outcome of the POST: a 2xx reply whose body is an array, a 2xx
      reply with another body, a non-2xx reply, or an exception. */
  datatype OrdersReply = OkArray(cards: seq<OrderCard>) | OkOther | NotOk | Threw

  datatype ScreenState = ScreenState(orders: seq<OrderCard>, activeTab: string, error: Option<string>)

  const Tabs: seq<string> := ["Pending", "In Progress", "Completed"]

  const Initial: ScreenState := ScreenState([], "Pending", None)

  /** The orders of the reply; anything but an array counts as none. */
  function FetchedOrders(reply: OrdersReply): (cards: seq<OrderCard>)
    requires reply.OkArray? || reply.OkOther?
    ensures reply.OkOther? ==> cards == []
  {
    if reply.OkArray? then reply.cards else []
  }

  /** The tab after a reply: the first order's status when it is one of the
      three tabs, otherwise the tab stays. */
  function NextTab(tab: string, cards: seq<OrderCard>): (t: string)
    ensures |cards| > 0 && cards[0].status in Tabs ==> t == cards[0].status
    ensures |cards| == 0 || cards[0].status !in Tabs ==> t == tab
    ensures tab in Tabs ==> t in Tabs
  {
    if |cards| > 0 && cards[0].status in Tabs then cards[0].status else tab
  }

  /** One run of `fetchOrders`. Nothing happens without a customer id. */
  function Poll(st: ScreenState, customerId: string, reply: OrdersReply): (r: ScreenState)
    ensures customerId == "" ==> r == st
    ensures customerId != "" && (reply.OkArray? || reply.OkOther?) ==>
      r == ScreenState(FetchedOrders(reply), NextTab(st.activeTab, FetchedOrders(reply)), None)
    ensures customerId != "" && reply.NotOk? ==> r == st.(error := None)
    ensures customerId != "" && reply.Threw? ==>
      r == st.(error := Some("Error fetching orders. Please try again."))
  {
    if customerId == "" then st
    else
      match reply
      case OkArray(cards) => ScreenState(cards, NextTab(st.activeTab, cards), None)
      case OkOther => ScreenState([], st.activeTab, None)
      case NotOk => st.(error := None)
      case Threw => st.(error := Some("Error fetching orders. Please try again."))
  }

  /** `orders.filter(order => order.status === activeTab)` */
  function Shown(orders: seq<OrderCard>, tab: string): (r: seq<OrderCard>)
    ensures |r| <= |orders|
    ensures forall c :: c in r <==> c in orders && c.status == tab
    decreases |orders|
  {
    if |orders| == 0 then []
    else
      var rest := Shown(orders[1..], tab);
      assert forall c :: c in orders <==> c == orders[0] || c in orders[1..];
      if orders[0].status == tab then [orders[0]] + rest else rest
  }

  datatype StatusStyle = StatusStyle(colour: string, icon: string)

  const PendingStyle: StatusStyle := StatusStyle("#FFA500", "hourglass-empty")

  /** The names an empty object literal inherits from `Object.prototype`
      (section 20.1.3 of ECMAScript 2024 and the accessors of its Annex B).
      Looking one of them up in the style table finds a truthy member. */
  const InheritedKeys: set<string> := {
    "constructor", "hasOwnProperty", "isPrototypeOf", "propertyIsEnumerable",
    "toLocaleString", "toString", "valueOf", "__proto__",
    "__defineGetter__", "__defineSetter__", "__lookupGetter__", "__lookupSetter__"}

  /** The style of a status: `statusStyles[status] || statusStyles.Pending`.
      `None` is an inherited member found in place of a style, whose `icon`
      and `color` are undefined. */
  function StyleOf(status: string): (s: Option<StatusStyle>)
    ensures s.None? <==> status in InheritedKeys
    ensures status !in Tabs && status !in InheritedKeys ==> s == Some(PendingStyle)
    ensures status == "In Progress" ==> s.value.icon == "autorenew"
    ensures status == "Completed" ==> s.value.icon == "check-circle"
    ensures s == Some(PendingStyle) <==> status != "In Progress" && status != "Completed" && status !in InheritedKeys
  {
    if status == "In Progress" then Some(StatusStyle("#1E90FF", "autorenew"))
    else if status == "Completed" then Some(StatusStyle("#008000", "check-circle"))
    else if status in InheritedKeys then None
    else Some(PendingStyle)
  }

  // ---------------------------------------------------------------------------
  // Properties

  /** The filter keeps the order of the list: filtering a concatenation
      concatenates the filtered parts. */
  lemma {:induction false} ShownAppend(a: seq<OrderCard>, b: seq<OrderCard>, tab: string)
    ensures Shown(a + b, tab) == Shown(a, tab) + Shown(b, tab)
    decreases |a|
  {
    if |a| > 0 {
      assert (a + b)[1..] == a[1..] + b;
      ShownAppend(a[1..], b, tab);
    } else {
      assert a + b == b;
    }
  }

  /** When every order has the tab's status, the tab shows the whole list. */
  lemma {:induction false} ShownAll(orders: seq<OrderCard>, tab: string)
    requires forall k :: 0 <= k < |orders| ==> orders[k].status == tab
    ensures Shown(orders, tab) == orders
    decreases |orders|
  {
    if |orders| > 0 {
      assert forall k :: 0 <= k < |orders[1..]| ==> orders[1..][k] == orders[k + 1];
      ShownAll(orders[1..], tab);
      assert [orders[0]] + orders[1..] == orders;
    }
  }

  /** The cards the listing endpoint sends for the given order ids. */
  function CardsOf(db: Db, ids: seq<int>): (cards: seq<OrderCard>)
    requires forall k :: 0 <= k < |ids| ==> ids[k] in db.orders
    ensures |cards| == |ids|
    ensures forall k :: 0 <= k < |ids| ==> cards[k].orderId == ids[k] && cards[k].status == StatusName(db.orders[ids[k]].status)
  {
    seq(|ids|, k requires 0 <= k < |ids| =>
      OrderCard(ids[k], db.orders[ids[k]].tableNumber, StatusName(db.orders[ids[k]].status)))
  }

  /** The backend lists orders of a single status, and the screen switches to
      the first order's tab, so after a poll the selected tab shows every
      order the backend sent. */
  lemma PollShowsEverything(db: Db, customer: int, today: int, ids: seq<int>, st: ScreenState, customerId: string)
    requires customerId != ""
    requires forall k :: 0 <= k < |ids| ==> ids[k] in UserOrderTracking.CustomerOrders(db, Some(customer), today).ids
    ensures forall k :: 0 <= k < |ids| ==> ids[k] in db.orders
    ensures var cards := CardsOf(db, ids);
      var r := Poll(st, customerId, OkArray(cards));
      r.orders == cards && (|cards| > 0 ==> Shown(r.orders, r.activeTab) == cards)
  {
    var cards := CardsOf(db, ids);
    if |cards| > 0 {
      UserOrderTracking.ListingIsUniform(db, customer, today);
      var tab := cards[0].status;
      assert tab in Tabs by {
        match db.orders[ids[0]].status
        case Pending =>
        case InProgress =>
        case Completed =>
      }
      forall k | 0 <= k < |cards| ensures cards[k].status == tab {
        assert db.orders[ids[k]].status == db.orders[ids[0]].status;
      }
      ShownAll(cards, tab);
    }
  }
}
