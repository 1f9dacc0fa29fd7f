/**
 * The customer's cart (SmartHotel/src/Screens/HomeScreen.js and
 * SmartHotel/src/Screens/CartScreen.js): adding dishes, changing quantities,
 * the total, the menu search, and the checkout that turns the cart into a
 * place-order request. Prices are integers in minor currency units.
 */
module Cart {
  import opened Common
  import PlaceOrder

  datatype MenuItem = MenuItem(menuId: int, name: string, price: int, category: string)

  /** A cart entry: the dish as it was added, and how many of it. */
  datatype CartLine = CartLine(item: MenuItem, quantity: int)

  function LineTotal(l: CartLine): int {
    l.item.price * l.quantity
  }

  /** `cart.reduce((total, item) => total + item.price * item.quantity, 0)`. */
  function Total(cart: seq<CartLine>): int {
    if |cart| == 0 then 0 else LineTotal(cart[0]) + Total(cart[1..])
  }

  /** The set of menu ids that have a line in the cart. */
  function IdsOf(cart: seq<CartLine>): (ids: set<int>)
    ensures forall id :: id in ids <==> exists k :: 0 <= k < |cart| && cart[k].item.menuId == id
  {
    if |cart| == 0 then {}
    else
      var rest := IdsOf(cart[1..]);
      assert forall id :: id in rest ==> exists k :: 0 <= k < |cart| && cart[k].item.menuId == id by {
        forall id | id in rest ensures exists k :: 0 <= k < |cart| && cart[k].item.menuId == id {
          var j :| 0 <= j < |cart[1..]| && cart[1..][j].item.menuId == id;
          assert cart[j + 1].item.menuId == id;
        }
      }
      assert forall k :: 1 <= k < |cart| ==> cart[k].item.menuId in rest by {
        forall k | 1 <= k < |cart| ensures cart[k].item.menuId in rest {
          assert cart[1..][k - 1] == cart[k];
        }
      }
      {cart[0].item.menuId} + rest
  }

  /** No two lines carry the same menu id. */
  predicate DistinctIds(cart: seq<CartLine>) {
    forall i, j :: 0 <= i < j < |cart| ==> cart[i].item.menuId != cart[j].item.menuId
  }

  /** Every line has a positive quantity. */
  predicate AllPositive(cart: seq<CartLine>) {
    forall k :: 0 <= k < |cart| ==> cart[k].quantity > 0
  }

  /** `findIndex` on the menu id: the first matching line, or -1. */
  function FindIndex(cart: seq<CartLine>, id: int): (i: int)
    ensures -1 <= i < |cart|
    ensures i == -1 <==> forall k :: 0 <= k < |cart| ==> cart[k].item.menuId != id
    ensures i >= 0 ==> cart[i].item.menuId == id && forall k :: 0 <= k < i ==> cart[k].item.menuId != id
  {
    if |cart| == 0 then -1
    else if cart[0].item.menuId == id then 0
    else
      var j := FindIndex(cart[1..], id);
      assert forall k :: 1 <= k < |cart| ==> cart[k] == cart[1..][k - 1];
      if j == -1 then -1 else j + 1
  }

  // ---------------------------------------------------------------------------
  // HomeScreen.js

  /** `addToCart`: one more of the first line with the dish's menu id, or a new
      line with quantity 1 at the end. */
  function AddToCart(cart: seq<CartLine>, food: MenuItem): (r: seq<CartLine>)
    ensures var i := FindIndex(cart, food.menuId);
      if i >= 0 then
        |r| == |cart| && r[i].quantity == cart[i].quantity + 1 && r[i].item == cart[i].item
        && forall k :: 0 <= k < |cart| && k != i ==> r[k] == cart[k]
      else
        r == cart + [CartLine(food, 1)]
    ensures IdsOf(r) == IdsOf(cart) + {food.menuId}
    ensures DistinctIds(cart) ==> DistinctIds(r)
    ensures AllPositive(cart) ==> AllPositive(r)
  {
    var i := FindIndex(cart, food.menuId);
    if i > -1 then
      var r := cart[i := cart[i].(quantity := cart[i].quantity + 1)];
      SameItemsSameIds(cart, r);
      r
    else
      var r := cart + [CartLine(food, 1)];
      AppendIds(cart, CartLine(food, 1));
      AppendDistinct(cart, CartLine(food, 1));
      r
  }

  /** A line for a dish not yet in the cart, appended, keeps ids distinct. */
  lemma AppendDistinct(cart: seq<CartLine>, l: CartLine)
    requires DistinctIds(cart) ==> forall k :: 0 <= k < |cart| ==> cart[k].item.menuId != l.item.menuId
    ensures DistinctIds(cart) ==> DistinctIds(cart + [l])
  {
    var r := cart + [l];
    if DistinctIds(cart) {
      forall a, b | 0 <= a < b < |r| ensures r[a].item.menuId != r[b].item.menuId {
        assert r[a] == cart[a];
        if b < |cart| {
          assert r[b] == cart[b];
        }
      }
    }
  }

  /** Carts that agree on every line's dish have the same menu ids. */
  lemma SameItemsSameIds(a: seq<CartLine>, b: seq<CartLine>)
    requires |a| == |b| && forall k :: 0 <= k < |a| ==> a[k].item == b[k].item
    ensures IdsOf(a) == IdsOf(b)
  {
    forall id ensures id in IdsOf(a) <==> id in IdsOf(b) {
      if id in IdsOf(a) {
        var k :| 0 <= k < |a| && a[k].item.menuId == id;
        assert b[k].item.menuId == id;
      }
      if id in IdsOf(b) {
        var k :| 0 <= k < |b| && b[k].item.menuId == id;
        assert a[k].item.menuId == id;
      }
    }
  }

  /** A line appended to a cart adds its menu id. */
  lemma AppendIds(cart: seq<CartLine>, l: CartLine)
    ensures IdsOf(cart + [l]) == IdsOf(cart) + {l.item.menuId}
  {
    var r := cart + [l];
    assert r[|cart|] == l;
    forall id ensures id in IdsOf(r) <==> id in IdsOf(cart) || id == l.item.menuId {
      if id in IdsOf(r) {
        var k :| 0 <= k < |r| && r[k].item.menuId == id;
        if k < |cart| {
          assert cart[k] == r[k];
        }
      }
      if id in IdsOf(cart) {
        var k :| 0 <= k < |cart| && cart[k].item.menuId == id;
        assert r[k] == cart[k];
      }
    }
  }

  /** `clearCart`. */
  function ClearCart(cart: seq<CartLine>): (r: seq<CartLine>)
    ensures Total(r) == 0 && IdsOf(r) == {}
  {
    []
  }

  /** The number on the cart badge: `cart.length`. */
  function CartBadge(cart: seq<CartLine>): nat {
    |cart|
  }

  /** The lines whose lower-cased name contains `q`, in menu order. */
  function Matching(items: seq<MenuItem>, q: string): seq<MenuItem> {
    if |items| == 0 then []
    else (if Includes(Lower(items[0].name), q) then [items[0]] else []) + Matching(items[1..], q)
  }

  /** The search effect: a blank query shows the whole menu; otherwise the
      dishes whose lower-cased name contains the lower-cased query. */
  function SearchFilter(items: seq<MenuItem>, query: string): (r: seq<MenuItem>)
    ensures |r| <= |items|
    ensures JsTrim(query) == "" ==> r == items
  {
    if JsTrim(query) == "" then items
    else
      MatchingShape(items, Lower(query));
      Matching(items, Lower(query))
  }

  // ---------------------------------------------------------------------------
  // CartScreen.js

  /** Adds `delta` to the quantity of every line with menu id `id`. */
  function Bump(cart: seq<CartLine>, id: int, delta: int): (r: seq<CartLine>)
    ensures |r| == |cart|
    ensures forall k :: 0 <= k < |cart| ==>
      r[k].item == cart[k].item
      && r[k].quantity == (if cart[k].item.menuId == id then cart[k].quantity + delta else cart[k].quantity)
  {
    seq(|cart|, k requires 0 <= k < |cart| =>
      if cart[k].item.menuId == id then cart[k].(quantity := cart[k].quantity + delta) else cart[k])
  }

  /** `filter((item) => item.quantity > 0)`. */
  function KeepPositive(cart: seq<CartLine>): (r: seq<CartLine>)
    ensures AllPositive(r)
    ensures |r| <= |cart|
  {
    if |cart| == 0 then []
    else (if cart[0].quantity > 0 then [cart[0]] else []) + KeepPositive(cart[1..])
  }

  /** `updateQuantity(menu_id, type)`. */
  function UpdateQuantity(cart: seq<CartLine>, id: int, action: string): (r: seq<CartLine>)
    ensures action == "decrease" ==> AllPositive(r)
    ensures action == "increase" ==> |r| == |cart| && IdsOf(r) == IdsOf(cart)
    ensures action != "increase" && action != "decrease" ==> r == cart
  {
    if action == "increase" then Bump(cart, id, 1)
    else if action == "decrease" then KeepPositive(Bump(cart, id, -1))
    else cart
  }

  // ---------------------------------------------------------------------------
  // Properties of the cart operations

  /** `a` is `b` with some elements left out, order kept. */
  predicate Subsequence<T(==)>(a: seq<T>, b: seq<T>)
    decreases |b|
  {
    if |a| == 0 then true
    else if |b| == 0 then false
    else (a[0] == b[0] && Subsequence(a[1..], b[1..])) || Subsequence(a, b[1..])
  }

  /** The search result keeps menu order and holds exactly the dishes whose
      lower-cased name contains `q`. */
  lemma {:induction false} MatchingShape(items: seq<MenuItem>, q: string)
    ensures Subsequence(Matching(items, q), items)
    ensures forall x :: x in Matching(items, q) <==> x in items && Includes(Lower(x.name), q)
    ensures |Matching(items, q)| <= |items|
  {
    if |items| > 0 {
      MatchingShape(items[1..], q);
      var rest := Matching(items[1..], q);
      if Includes(Lower(items[0].name), q) {
        assert Matching(items, q) == [items[0]] + rest;
        assert ([items[0]] + rest)[1..] == rest;
      } else {
        assert Matching(items, q) == rest;
      }
      assert items == [items[0]] + items[1..];
    }
  }

  /** The search, stated against the definition of the filter. */
  lemma SearchFilterSpec(items: seq<MenuItem>, query: string)
    ensures Subsequence(SearchFilter(items, query), items)
    ensures JsTrim(query) != "" ==>
      forall x :: x in SearchFilter(items, query) <==> x in items && Includes(Lower(x.name), Lower(query))
  {
    MatchingShape(items, Lower(query));
    if JsTrim(query) == "" {
      SubsequenceRefl(items);
    }
  }

  lemma {:induction false} SubsequenceRefl<T>(a: seq<T>)
    ensures Subsequence(a, a)
  {
    if |a| > 0 {
      SubsequenceRefl(a[1..]);
    }
  }

  /** The total over a cart with one more line at the end. */
  lemma {:induction false} TotalAppend(cart: seq<CartLine>, l: CartLine)
    ensures Total(cart + [l]) == Total(cart) + LineTotal(l)
  {
    if |cart| > 0 {
      assert (cart + [l])[1..] == cart[1..] + [l];
      TotalAppend(cart[1..], l);
    } else {
      assert [] + [l] == [l];
    }
  }

  /** The total after one line is replaced. */
  lemma {:induction false} TotalUpdate(cart: seq<CartLine>, i: int, l: CartLine)
    requires 0 <= i < |cart|
    ensures Total(cart[i := l]) == Total(cart) - LineTotal(cart[i]) + LineTotal(l)
  {
    if i > 0 {
      assert cart[i := l][1..] == cart[1..][i - 1 := l];
      TotalUpdate(cart[1..], i - 1, l);
    }
  }

  /** Adding a dish raises the total by one unit price: the existing line's
      price when the dish is already in the cart, the dish's price otherwise. */
  lemma TotalAfterAdd(cart: seq<CartLine>, food: MenuItem)
    ensures var i := FindIndex(cart, food.menuId);
      Total(AddToCart(cart, food)) == Total(cart) + (if i >= 0 then cart[i].item.price else food.price)
  {
    var i := FindIndex(cart, food.menuId);
    var r := AddToCart(cart, food);
    if i >= 0 {
      var l := cart[i].(quantity := cart[i].quantity + 1);
      assert r == cart[i := l];
      TotalUpdate(cart, i, l);
      assert LineTotal(l) == LineTotal(cart[i]) + cart[i].item.price;
    } else {
      TotalAppend(cart, CartLine(food, 1));
    }
  }

  /** Adding a dish already in the cart keeps the number of lines, so the
      badge counts dishes, not portions; a new dish adds one line. */
  lemma BadgeAfterAdd(cart: seq<CartLine>, food: MenuItem)
    ensures food.menuId in IdsOf(cart) ==> CartBadge(AddToCart(cart, food)) == CartBadge(cart)
    ensures food.menuId !in IdsOf(cart) ==> CartBadge(AddToCart(cart, food)) == CartBadge(cart) + 1
  {
  }

  /** With distinct menu ids the badge equals the number of different dishes. */
  lemma {:induction false} BadgeCountsDishes(cart: seq<CartLine>)
    requires DistinctIds(cart)
    ensures CartBadge(cart) == |IdsOf(cart)|
  {
    if |cart| > 0 {
      var rest := cart[1..];
      assert DistinctIds(rest) by {
        forall i, j | 0 <= i < j < |rest| ensures rest[i].item.menuId != rest[j].item.menuId {
          assert rest[i] == cart[i + 1] && rest[j] == cart[j + 1];
        }
      }
      BadgeCountsDishes(rest);
      forall k | 0 <= k < |rest| ensures rest[k].item.menuId != cart[0].item.menuId {
        assert rest[k] == cart[k + 1];
      }
      assert cart[0].item.menuId !in IdsOf(rest);
      assert IdsOf(cart) == {cart[0].item.menuId} + IdsOf(rest);
    }
  }

  /** The sum of the prices of the lines with menu id `id`. */
  function MatchingPrice(cart: seq<CartLine>, id: int): int {
    if |cart| == 0 then 0
    else (if cart[0].item.menuId == id then cart[0].item.price else 0) + MatchingPrice(cart[1..], id)
  }

  /** Changing the quantity of the matching lines by `delta` changes the total
      by `delta` times their prices. */
  lemma {:induction false} TotalAfterBump(cart: seq<CartLine>, id: int, delta: int)
    ensures Total(Bump(cart, id, delta)) == Total(cart) + delta * MatchingPrice(cart, id)
  {
    if |cart| > 0 {
      assert Bump(cart, id, delta)[1..] == Bump(cart[1..], id, delta);
      TotalAfterBump(cart[1..], id, delta);
      var b := Bump(cart, id, delta)[0];
      assert LineTotal(b) == LineTotal(cart[0]) + (if cart[0].item.menuId == id then delta * cart[0].item.price else 0);
    }
  }

  /** Dropping lines with quantity 0 does not change the total. */
  lemma {:induction false} TotalKeepPositive(cart: seq<CartLine>)
    requires forall k :: 0 <= k < |cart| ==> cart[k].quantity >= 0
    ensures Total(KeepPositive(cart)) == Total(cart)
  {
    if |cart| > 0 {
      TotalKeepPositive(cart[1..]);
      if cart[0].quantity > 0 {
        assert KeepPositive(cart) == [cart[0]] + KeepPositive(cart[1..]);
        assert ([cart[0]] + KeepPositive(cart[1..]))[1..] == KeepPositive(cart[1..]);
      } else {
        assert KeepPositive(cart) == KeepPositive(cart[1..]);
      }
    }
  }

  /** With distinct ids the matching price is the price of that one line. */
  lemma {:induction false} MatchingPriceOfDistinct(cart: seq<CartLine>, i: int)
    requires DistinctIds(cart) && 0 <= i < |cart|
    ensures MatchingPrice(cart, cart[i].item.menuId) == cart[i].item.price
    ensures forall id :: id !in IdsOf(cart) ==> MatchingPrice(cart, id) == 0
  {
    NoMatchNoPrice(cart);
    var id := cart[i].item.menuId;
    var rest := cart[1..];
    if i == 0 {
      NoMatchNoPrice(rest);
      forall k | 0 <= k < |rest| ensures rest[k].item.menuId != id {
        assert rest[k] == cart[k + 1];
      }
      assert id !in IdsOf(rest);
    } else {
      assert DistinctIds(rest) by {
        forall a, b | 0 <= a < b < |rest| ensures rest[a].item.menuId != rest[b].item.menuId {
          assert rest[a] == cart[a + 1] && rest[b] == cart[b + 1];
        }
      }
      assert rest[i - 1] == cart[i];
      assert cart[0].item.menuId != id;
      MatchingPriceOfDistinct(rest, i - 1);
    }
  }

  lemma {:induction false} NoMatchNoPrice(cart: seq<CartLine>)
    ensures forall id :: id !in IdsOf(cart) ==> MatchingPrice(cart, id) == 0
  {
    if |cart| > 0 {
      NoMatchNoPrice(cart[1..]);
      assert IdsOf(cart) == {cart[0].item.menuId} + IdsOf(cart[1..]);
    }
  }

  /** 'increase' raises the total by the dish's price, 'decrease' lowers it by
      the same amount (a line that reaches 0 is dropped, contributing nothing
      either way), provided all quantities were positive and ids distinct. */
  lemma TotalAfterUpdate(cart: seq<CartLine>, i: int)
    requires DistinctIds(cart) && AllPositive(cart) && 0 <= i < |cart|
    ensures var id := cart[i].item.menuId;
      && Total(UpdateQuantity(cart, id, "increase")) == Total(cart) + cart[i].item.price
      && Total(UpdateQuantity(cart, id, "decrease")) == Total(cart) - cart[i].item.price
  {
    var id := cart[i].item.menuId;
    MatchingPriceOfDistinct(cart, i);
    TotalAfterBump(cart, id, 1);
    TotalAfterBump(cart, id, -1);
    TotalKeepPositive(Bump(cart, id, -1));
  }

  /** Filtering a cart whose quantities are all positive changes nothing. */
  lemma {:induction false} KeepPositiveOfPositive(cart: seq<CartLine>)
    requires AllPositive(cart)
    ensures KeepPositive(cart) == cart
  {
    if |cart| > 0 {
      KeepPositiveOfPositive(cart[1..]);
      assert cart == [cart[0]] + cart[1..];
    }
  }

  /** 'decrease' undoes 'increase' on a cart whose quantities are positive. */
  lemma DecreaseUndoesIncrease(cart: seq<CartLine>, id: int)
    requires AllPositive(cart)
    ensures UpdateQuantity(UpdateQuantity(cart, id, "increase"), id, "decrease") == cart
  {
    var up := Bump(cart, id, 1);
    var down := Bump(up, id, -1);
    assert down == cart;
    KeepPositiveOfPositive(cart);
  }

  /** 'decrease' keeps the other lines in order and drops exactly the lines that
      reach quantity 0. */
  lemma {:induction false} KeepPositiveShape(cart: seq<CartLine>)
    ensures Subsequence(KeepPositive(cart), cart)
    ensures forall l :: l in KeepPositive(cart) <==> l in cart && l.quantity > 0
  {
    if |cart| > 0 {
      KeepPositiveShape(cart[1..]);
      var rest := KeepPositive(cart[1..]);
      if cart[0].quantity > 0 {
        assert KeepPositive(cart) == [cart[0]] + rest;
        assert ([cart[0]] + rest)[0] == cart[0];
        assert ([cart[0]] + rest)[1..] == rest;
      } else {
        assert KeepPositive(cart) == rest;
      }
      assert cart == [cart[0]] + cart[1..];
    }
  }

  /** A cart operation as the screens issue them. */
  datatype CartOp = Add(food: MenuItem) | Change(id: int, action: string)

  function Apply(cart: seq<CartLine>, op: CartOp): seq<CartLine> {
    match op
    case Add(food) => AddToCart(cart, food)
    case Change(id, action) => UpdateQuantity(cart, id, action)
  }

  function ApplyAll(cart: seq<CartLine>, ops: seq<CartOp>): seq<CartLine>
    decreases |ops|
  {
    if |ops| == 0 then cart else ApplyAll(Apply(cart, ops[0]), ops[1..])
  }

  /** Starting from an empty cart, no sequence of additions and quantity
      changes produces a line with quantity 0 or less, nor two lines for the
      same dish. */
  lemma {:induction false} CartInvariant(cart: seq<CartLine>, ops: seq<CartOp>)
    requires AllPositive(cart) && DistinctIds(cart)
    ensures AllPositive(ApplyAll(cart, ops)) && DistinctIds(ApplyAll(cart, ops))
    decreases |ops|
  {
    if |ops| > 0 {
      var next := Apply(cart, ops[0]);
      if ops[0].Change? && ops[0].action == "increase" {
        assert forall k :: 0 <= k < |next| ==> next[k].item == cart[k].item;
      } else if ops[0].Change? && ops[0].action == "decrease" {
        KeepPositiveDistinct(Bump(cart, ops[0].id, -1));
      }
      CartInvariant(next, ops[1..]);
    }
  }

  /** Filtering lines keeps menu ids distinct. */
  lemma {:induction false} KeepPositiveDistinct(cart: seq<CartLine>)
    requires DistinctIds(cart)
    ensures DistinctIds(KeepPositive(cart))
  {
    if |cart| > 0 {
      var rest := cart[1..];
      assert DistinctIds(rest) by {
        forall a, b | 0 <= a < b < |rest| ensures rest[a].item.menuId != rest[b].item.menuId {
          assert rest[a] == cart[a + 1] && rest[b] == cart[b + 1];
        }
      }
      KeepPositiveDistinct(rest);
      if cart[0].quantity > 0 {
        var kr := KeepPositive(rest);
        KeepPositiveShape(rest);
        forall l | l in kr ensures l.item.menuId != cart[0].item.menuId {
          var m :| 0 <= m < |rest| && rest[m] == l;
          assert rest[m] == cart[m + 1];
        }
        DistinctCons(cart[0], kr);
        assert KeepPositive(cart) == [cart[0]] + kr;
      } else {
        assert KeepPositive(cart) == KeepPositive(rest);
      }
    }
  }

  /** A line put in front of a cart it shares no menu id with keeps ids distinct. */
  lemma DistinctCons(x: CartLine, cart: seq<CartLine>)
    requires DistinctIds(cart)
    requires forall l :: l in cart ==> l.item.menuId != x.item.menuId
    ensures DistinctIds([x] + cart)
  {
    var r := [x] + cart;
    forall a, b | 0 <= a < b < |r| ensures r[a].item.menuId != r[b].item.menuId {
      assert r[b] == cart[b - 1];
      if a > 0 {
        assert r[a] == cart[a - 1];
      }
    }
  }

  /** A dish priced 5.00 added twice is one line of quantity 2 costing 10.00;
      two decreases empty the cart again. */
  lemma AddTwiceThenDecreaseTwice(a: MenuItem)
    requires a.price == 500
    ensures var c := AddToCart(AddToCart([], a), a);
      && c == [CartLine(a, 2)] && Total(c) == 1000
      && var d := UpdateQuantity(UpdateQuantity(c, a.menuId, "decrease"), a.menuId, "decrease");
         d == [] && Total(d) == 0
  {
    AddToEmpty(a);
    AddToSingle(CartLine(a, 1));
    var c := [CartLine(a, 2)];
    assert Total(c) == 1000 by {
      assert c[1..] == [];
    }
    DecreaseSingle(CartLine(a, 2));
    DecreaseSingle(CartLine(a, 1));
  }

  lemma AddToEmpty(a: MenuItem)
    ensures AddToCart([], a) == [CartLine(a, 1)]
  {
    assert [] + [CartLine(a, 1)] == [CartLine(a, 1)];
  }

  /** Adding the dish of a one-line cart raises that line's quantity. */
  lemma AddToSingle(l: CartLine)
    ensures AddToCart([l], l.item) == [l.(quantity := l.quantity + 1)]
  {
    var r := AddToCart([l], l.item);
    assert FindIndex([l], l.item.menuId) == 0;
    assert |r| == 1 && r[0] == l.(quantity := l.quantity + 1);
  }

  /** 'decrease' on a one-line cart for that line's dish. */
  lemma DecreaseSingle(l: CartLine)
    ensures UpdateQuantity([l], l.item.menuId, "decrease")
         == if l.quantity > 1 then [l.(quantity := l.quantity - 1)] else []
  {
    var b := Bump([l], l.item.menuId, -1);
    assert b == [l.(quantity := l.quantity - 1)] by {
      assert |b| == 1 && b[0] == l.(quantity := l.quantity - 1);
    }
    assert b[1..] == [];
  }

  // ---------------------------------------------------------------------------
  // Checkout

  /** The body of the place-order request; `tableNumber` is `None` when
      `parseInt` gives NaN, which JSON encodes as null. */
  datatype Payload = Payload(tableNumber: Option<int>, customerId: int, items: seq<PlaceOrder.CartItem>)

  function PayloadItems(cart: seq<CartLine>): (r: seq<PlaceOrder.CartItem>)
    ensures |r| == |cart|
  {
    seq(|cart|, k requires 0 <= k < |cart| =>
      PlaceOrder.CartItem(cart[k].item.menuId, cart[k].quantity, LineTotal(cart[k])))
  }

  /** `placeOrder` up to the request: `None` when the table number is blank,
      which the screen refuses with an alert and no request. */
  function OrderPayload(cart: seq<CartLine>, tableText: string): (r: Option<Payload>)
    ensures r.None? <==> forall k :: 0 <= k < |tableText| ==> IsJsSpace(tableText[k])
    ensures r.Some? ==> r.value.customerId == 1 && r.value.tableNumber == JsParseInt(tableText)
    ensures r.Some? ==> |r.value.items| == |cart| && forall k :: 0 <= k < |cart| ==>
      r.value.items[k].menuId == cart[k].item.menuId
      && r.value.items[k].quantity == cart[k].quantity
      && r.value.items[k].subtotal == cart[k].item.price * cart[k].quantity
  {
    TrimEmptyIff(tableText, IsJsSpace);
    if JsTrim(tableText) == "" then None
    else Some(Payload(JsParseInt(tableText), 1, PayloadItems(cart)))
  }

  /** The payload's subtotals add up to the cart total. */
  lemma {:induction false} PayloadTotal(cart: seq<CartLine>)
    ensures PlaceOrder.SumSubtotals(PayloadItems(cart)) == Total(cart)
  {
    if |cart| > 0 {
      assert PayloadItems(cart)[1..] == PayloadItems(cart[1..]);
      PayloadTotal(cart[1..]);
    }
  }

  /** How the request ended, as `placeOrder` sees it; a reply without an
      order id still counts as success and shows `undefined`. */
  datatype PlaceOutcome = Ok(orderId: Option<int>) | ErrorReply | Threw

  /** The outcome of a reply: `response.ok` (a status of 200 to 299) alone
      decides success. */
  function OutcomeOf(status: int, orderId: Option<int>): (o: PlaceOutcome)
    ensures o.Ok? <==> 200 <= status < 300
    ensures o.Ok? ==> o.orderId == orderId
    ensures !o.Threw?
  {
    if 200 <= status < 300 then Ok(orderId) else ErrorReply
  }

  /** The cart screen's state around a checkout. */
  datatype CheckoutState = CheckoutState(cart: seq<CartLine>, tableText: string)

  /** The screen after the request. */
  function AfterPlace(s: CheckoutState, outcome: PlaceOutcome): (r: CheckoutState)
    ensures outcome.Ok? ==> r.cart == [] && r.tableText == ""
    ensures !outcome.Ok? ==> r == s
  {
    match outcome
    case Ok(_) => CheckoutState([], "")
    case _ => s
  }

  /** The whole checkout against the backend: a nonblank table number that
      parses to a nonzero integer and a nonempty cart create a Pending order
      whose total is the cart total, and the screen empties the cart. A table
      number that does not parse, or parses to 0, or an empty cart, is refused
      by the server with 400 and the cart stays as it was. */
  lemma Checkout(db: PlaceOrder.OrderDb.Db, s: CheckoutState, today: int)
    requires PlaceOrder.OrderDb.Valid(db)
    requires OrderPayload(s.cart, s.tableText).Some?
    ensures var p := OrderPayload(s.cart, s.tableText).value;
      var reply := PlaceOrder.Place(db, p.tableNumber, Some(p.customerId), Some(p.items), today);
      var after := AfterPlace(s, OutcomeOf(reply.status, reply.orderId));
      && (reply.status == 201 <==> JsParseInt(s.tableText).Some? && JsParseInt(s.tableText).value != 0 && s.cart != [])
      && (reply.status == 201 ==>
            reply.db.orders[reply.orderId.value].totalPrice == Total(s.cart)
            && reply.db.orders[reply.orderId.value].status == PlaceOrder.OrderDb.Pending
            && after.cart == [])
      && (reply.status != 201 ==> reply.db == db && after == s)
  {
    var p := OrderPayload(s.cart, s.tableText).value;
    PayloadTotal(s.cart);
    if !PlaceOrder.Refused(p.tableNumber, Some(p.customerId), Some(p.items)) {
      PlaceOrder.PlacedOrderShape(db, p.tableNumber, Some(p.customerId), Some(p.items), today);
    }
  }

  /** A nonblank table number's payload carries what `parseInt` reads. */
  lemma PayloadTable(cart: seq<CartLine>, t: string, v: int)
    requires |t| > 0 && !IsJsSpace(t[0]) && JsParseInt(t) == Some(v)
    ensures var p := OrderPayload(cart, t);
      p.Some? && p.value.tableNumber == Some(v)
  {
  }

  /** A table number typed with a `0x` prefix is read in base 16. */
  lemma HexTablePayload(cart: seq<CartLine>, h: string)
    requires AllHexDigits(h) && h != []
    ensures var p := OrderPayload(cart, "0x" + h);
      p.Some? && p.value.tableNumber == Some(HexValue(h) as int)
  {
    var t := "0x" + h;
    assert HexMarked(t) && t[2..] == h;
    ParseIntOfHex(t);
    PayloadTable(cart, t, HexValue(h) as int);
  }

  /** So `0x5` places the order for table 5, where a decimal reading would
      give table 0 and a refusal. */
  lemma HexTableNumberPlaced(db: PlaceOrder.OrderDb.Db, cart: seq<CartLine>, h: string, today: int)
    requires PlaceOrder.OrderDb.Valid(db) && cart != []
    requires AllHexDigits(h) && HexValue(h) != 0
    ensures var p := OrderPayload(cart, "0x" + h);
      && p.Some? && p.value.tableNumber == Some(HexValue(h) as int)
      && var reply := PlaceOrder.Place(db, p.value.tableNumber, Some(p.value.customerId), Some(p.value.items), today);
         reply.status == 201 && reply.db.orders[reply.orderId.value].tableNumber == HexValue(h)
  {
    assert h != [];
    HexTablePayload(cart, h);
    var p := OrderPayload(cart, "0x" + h).value;
    assert |p.items| == |cart|;
    PlaceOrder.PlacedOrderShape(db, p.tableNumber, Some(p.customerId), Some(p.items), today);
  }

  /** CartScreen's review guard: the rating field's text, the feedback and
      the selected dish must all be truthy. The rating is the raw text of a
      numeric-keyboard field, so only an empty one is stopped here. */
  function ReviewAllowed(rating: string, feedback: string, selectedMenuId: Option<int>): (ok: bool)
    ensures ok <==> |rating| > 0 && |feedback| > 0 && selectedMenuId.Some? && selectedMenuId.value != 0
  {
    !(rating == "" || feedback == "" || !IsTruthyInt(selectedMenuId))
  }

  /** The body of the cart's review request; `rating` is `None` when
      `parseInt` gives NaN, which JSON encodes as null. */
  datatype CartReview = CartReview(customerId: int, customerName: string, menuId: int,
                                   rating: Option<int>, feedback: string)

  /** `submitReview` up to the request: the fixed customer 1 named "Ariz",
      the selected dish, the parsed rating and the feedback as typed. */
  function ReviewRequest(rating: string, feedback: string, selectedMenuId: Option<int>): (r: Option<CartReview>)
    ensures r.Some? <==> ReviewAllowed(rating, feedback, selectedMenuId)
    ensures r.Some? ==>
      && r.value.customerId == 1 && r.value.customerName == "Ariz"
      && r.value.menuId == selectedMenuId.value
      && r.value.rating == JsParseInt(rating)
      && r.value.feedback == feedback
  {
    if !ReviewAllowed(rating, feedback, selectedMenuId) then None
    else Some(CartReview(1, "Ariz", selectedMenuId.value, JsParseInt(rating), feedback))
  }

  /** A rating typed as a plain numeral is sent as that number. */
  lemma RatingTextRoundTrip(n: nat, feedback: string, menuId: int)
    requires feedback != "" && menuId != 0
    ensures var r := ReviewRequest(DecimalText(n), feedback, Some(menuId));
      r.Some? && r.value.rating == Some(n)
  {
    ParseIntOfDecimal(n);
  }

  /** The guard only asks for some rating text: "abc" passes and is sent as
      null, and "9" passes and is sent as 9, out of the 1 to 5 range. */
  lemma GuardIgnoresRatingValue(feedback: string, menuId: int)
    requires feedback != "" && menuId != 0
    ensures var r := ReviewRequest("abc", feedback, Some(menuId));
      r.Some? && r.value.rating.None?
    ensures var r := ReviewRequest("9", feedback, Some(menuId));
      r.Some? && r.value.rating == Some(9)
  {
    var abc, nine := "abc", "9";
    ParseIntUntrimmed(abc);
    assert Unsigned(abc) == abc && !HexMarked(abc) && DigitPrefix(abc) == [];
    ParseIntOfDigits(nine);
  }
}
