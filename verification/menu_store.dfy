/**
 * The backend's menu administration (Backend/MenuManagement.py): add, get,
 * update and delete on the `Menu` table, kept here as a map from menu id to
 * row with an auto-increment counter. An UPDATE or DELETE that affects no row
 * answers 404.
 */
module MenuManagement {
  import opened Common
  import UpdateMenu

  /** The price as the `price` column holds it. The table's schema is not part
      of this model; the column is taken to be a number with two decimals, so
      the form text "10" of an add and the JSON number 10 of an update are one
      value (`Amount(1000)`, in hundredths). Form text that is not such a
      numeral is kept as it came. */
  datatype StoredPrice = Amount(cents: int) | Unread(text: string)

  /** The column value of a price sent as form text. */
  function StoreText(s: string): StoredPrice {
    if UpdateMenu.MatchesPrice(s) then Amount(UpdateMenu.PriceCents(s)) else Unread(s)
  }

  datatype MenuRow = MenuRow(name: string, description: Option<string>, price: StoredPrice,
                             category: Option<string>, imageUrl: Option<string>)

  datatype MenuTable = MenuTable(rows: map<int, MenuRow>, nextId: int)

  /** Ids in use are positive and below the auto-increment counter. */
  predicate Valid(t: MenuTable) {
    t.nextId >= 1 && forall id :: id in t.rows ==> 1 <= id < t.nextId
  }

  datatype Reply = Reply(status: int, table: MenuTable)

  /** POST /add_menu (form fields; `None` for a missing one). */
  function Add(t: MenuTable, name: Option<string>, description: Option<string>, price: Option<string>,
               category: Option<string>, imageUrl: Option<string>): (r: Reply)
    ensures r.status == 400 <==> !IsTruthyText(name) || !IsTruthyText(price)
    ensures r.status == 400 ==> r.table == t
    ensures r.status != 400 ==>
      r.status == 200 && r.table.nextId == t.nextId + 1
      && r.table.rows == t.rows[t.nextId := MenuRow(name.value, description, StoreText(price.value), category, imageUrl)]
    ensures Valid(t) ==> Valid(r.table)
  {
    if !IsTruthyText(name) || !IsTruthyText(price) then Reply(400, t)
    else Reply(200, MenuTable(t.rows[t.nextId := MenuRow(name.value, description, StoreText(price.value), category, imageUrl)],
                              t.nextId + 1))
  }

  /** GET /get_menu/<id>: the row, or 404. */
  function Get(t: MenuTable, id: int): (r: (int, Option<MenuRow>))
    ensures r.0 == 404 <==> id !in t.rows
    ensures r.0 == 200 <==> r.1.Some?
    ensures r.1.Some? ==> id in t.rows && r.1.value == t.rows[id]
  {
    if id in t.rows then (200, Some(t.rows[id])) else (404, None)
  }

  /** The handler of PUT /update_menu/<id> (JSON body). The affected-row count
      only counts rows whose stored values change, so writing the values a row
      already holds answers 404 like a missing id. */
  function Update(t: MenuTable, id: int, name: Option<string>, description: Option<string>, price: Option<int>,
                  category: Option<string>, imageUrl: Option<string>): (r: Reply)
    ensures r.status == 400 <==> !IsTruthyText(name) || !IsTruthyInt(price)
    ensures r.status != 200 ==> r.table == t
    ensures r.status == 200 ==>
      id in t.rows && r.table.nextId == t.nextId
      && r.table.rows == t.rows[id := MenuRow(name.value, description, Amount(price.value), category, imageUrl)]
      && t.rows[id] != r.table.rows[id]
    ensures r.status in {200, 400, 404}
    ensures IsTruthyText(name) && IsTruthyInt(price) && id !in t.rows ==> r.status == 404
  {
    if !IsTruthyText(name) || !IsTruthyInt(price) then Reply(400, t)
    else
      var row := MenuRow(name.value, description, Amount(price.value), category, imageUrl);
      if id !in t.rows || t.rows[id] == row then Reply(404, t)
      else Reply(200, t.(rows := t.rows[id := row]))
  }

  /** DELETE /delete_menu/<id>. */
  function Delete(t: MenuTable, id: int): (r: Reply)
    ensures r.status == 404 <==> id !in t.rows
    ensures r.status == 404 ==> r.table == t
    ensures r.status != 404 ==> r.status == 200 && r.table == t.(rows := t.rows - {id})
  {
    if id !in t.rows then Reply(404, t) else Reply(200, t.(rows := t.rows - {id}))
  }

  // ---------------------------------------------------------------------------
  // Properties

  /** An added item can be fetched under the id the counter handed out, and no
      other item changes. */
  lemma AddThenGet(t: MenuTable, name: string, description: Option<string>, price: string,
                   category: Option<string>, imageUrl: Option<string>)
    requires Valid(t) && name != "" && price != ""
    ensures var r := Add(t, Some(name), description, Some(price), category, imageUrl);
      && Get(r.table, t.nextId) == (200, Some(MenuRow(name, description, StoreText(price), category, imageUrl)))
      && t.nextId !in t.rows
      && (forall id :: id != t.nextId ==> Get(r.table, id) == Get(t, id))
  {
  }

  /** Deleting what was just added restores the rows; a second delete finds nothing. */
  lemma AddThenDelete(t: MenuTable, name: string, price: string)
    requires Valid(t) && name != "" && price != ""
    ensures var a := Add(t, Some(name), None, Some(price), None, None);
      var d := Delete(a.table, t.nextId);
      && d.status == 200 && d.table.rows == t.rows
      && Delete(d.table, t.nextId).status == 404
  {
    var a := Add(t, Some(name), None, Some(price), None, None);
    assert a.table.rows - {t.nextId} == t.rows;
  }

  /** An update that succeeds is read back by a get; repeating it answers 404
      because no row changes the second time. */
  lemma UpdateThenGetAndRepeat(t: MenuTable, id: int, name: string, description: Option<string>, cents: int,
                               category: Option<string>, imageUrl: Option<string>)
    requires Update(t, id, Some(name), description, Some(cents), category, imageUrl).status == 200
    ensures var u := Update(t, id, Some(name), description, Some(cents), category, imageUrl);
      && Get(u.table, id) == (200, Some(MenuRow(name, description, Amount(cents), category, imageUrl)))
      && Update(u.table, id, Some(name), description, Some(cents), category, imageUrl).status == 404
  {
  }

  /** A whole number written as form text and the same number sent as JSON
      are stored as one value. */
  lemma StoredTextMeetsNumber(n: nat)
    ensures StoreText(DecimalText(n)) == Amount(n * 100)
  {
    var s := DecimalText(n);
    DigitPrefixOf(s, []);
    assert s + [] == s;
    assert UpdateMenu.PriceShape(s);
  }

  /** Writing back exactly what an add stored changes no row, so the update
      answers 404 (400 for the falsy price 0). */
  lemma AddThenSameUpdate(t: MenuTable, name: string, description: Option<string>, n: nat,
                          category: Option<string>, imageUrl: Option<string>)
    requires name != ""
    ensures var a := Add(t, Some(name), description, Some(DecimalText(n)), category, imageUrl);
      var u := Update(a.table, t.nextId, Some(name), description, Some(n * 100), category, imageUrl);
      && a.status == 200
      && u.status == (if n == 0 then 400 else 404) && u.table == a.table
  {
    StoredTextMeetsNumber(n);
  }

  // ---------------------------------------------------------------------------
  // The route

  /** Werkzeug's `<int:menu_id>` converter: the path segment must be a
      nonempty run of digits, read as a decimal number. */
  function RouteId(segment: string): (id: Option<int>)
    ensures id.Some? <==> |segment| > 0 && AllDigits(segment)
    ensures id.Some? ==> id.value >= 0
  {
    if |segment| > 0 && AllDigits(segment) then Some(DigitsValue(segment)) else None
  }

  /** The numeral of an id reaches that id. */
  lemma RouteIdOfDecimal(n: nat)
    ensures RouteId(DecimalText(n)) == Some(n)
  {
  }

  /** PUT /update_menu/<segment>: a segment the converter refuses matches no
      route, and Flask answers 404 before the handler runs. */
  function UpdateAt(t: MenuTable, segment: string, name: Option<string>, description: Option<string>,
                    price: Option<int>, category: Option<string>, imageUrl: Option<string>): (r: Reply)
    ensures RouteId(segment).None? ==> r == Reply(404, t)
    ensures RouteId(segment).Some? ==> r == Update(t, RouteId(segment).value, name, description, price, category, imageUrl)
  {
    var id := RouteId(segment);
    if id.None? then Reply(404, t) else Update(t, id.value, name, description, price, category, imageUrl)
  }

  /** The blanks OkHttp removes from both ends of a URL before parsing it:
      tab, line feed, form feed, carriage return and space. */
  predicate IsUrlBlank(c: char) {
    c == '\t' || c == '\n' || c == '\U{C}' || c == '\r' || c == ' '
  }

  /** The path segment the server matches for the id text `s`. The id ends
      the URL the screen builds, and the Android client (OkHttp) drops the
      blanks at the end of a URL; any other white space is percent-encoded
      and decoded again by the server, so it stays in the segment. */
  function ReceivedSegment(s: string): (g: string)
    ensures |g| <= |s| && g == s[..|g|]
    ensures forall k :: |g| <= k < |s| ==> IsUrlBlank(s[k])
  {
    TrimRight(s, IsUrlBlank)
  }

  /** The request the update screen sends, at the server. */
  function SendUpdate(t: MenuTable, q: UpdateMenu.UpdateRequest): Reply {
    UpdateAt(t, ReceivedSegment(q.menuId), Some(q.name), Some(q.description), Some(q.price),
             Some(q.category), Some(q.imageUrl))
  }

  /** A request the update screen lets through is never refused with 400 by
      the server: its name is not blank and its price is positive. An id typed
      without surrounding white space reaches the item it names. */
  lemma ScreenRequestsPassServerCheck(t: MenuTable, form: UpdateMenu.Form)
    requires UpdateMenu.UpdateRequestOf(form).Some?
    ensures var q := UpdateMenu.UpdateRequestOf(form).value;
      var r := SendUpdate(t, q);
      && (r.status == 200 || r.status == 404)
      && (JsTrim(form.menuId) == form.menuId ==>
            r == Update(t, DigitsValue(form.menuId), Some(q.name), Some(q.description), Some(q.price),
                        Some(q.category), Some(q.imageUrl)))
  {
    UpdateMenu.RequestFieldsPresent(form);
    var q := UpdateMenu.UpdateRequestOf(form).value;
    UpdateStatusFor(t, q);
    if JsTrim(form.menuId) == form.menuId {
      assert |q.menuId| > 0 && AllDigits(q.menuId);
      DigitsReachItem(t, q);
    }
  }

  /** An id sent as bare digits reaches the handler with its value. */
  lemma DigitsReachItem(t: MenuTable, q: UpdateMenu.UpdateRequest)
    requires |q.menuId| > 0 && AllDigits(q.menuId)
    ensures SendUpdate(t, q) == Update(t, DigitsValue(q.menuId), Some(q.name), Some(q.description), Some(q.price),
                                       Some(q.category), Some(q.imageUrl))
  {
    TrimRightKeeps(q.menuId, IsUrlBlank);
  }

  lemma UpdateStatusFor(t: MenuTable, q: UpdateMenu.UpdateRequest)
    requires q.name != "" && q.price > 0
    ensures var r := SendUpdate(t, q);
      r.status == 200 || r.status == 404
  {
  }

  /** Where the id typed reaches: the handler for the trimmed id exactly when
      the client's dropping of trailing blanks leaves the trimmed id, and no
      route (404, nothing written) otherwise. */
  lemma IdAtServer(t: MenuTable, form: UpdateMenu.Form)
    requires UpdateMenu.UpdateRequestOf(form).Some?
    ensures var q := UpdateMenu.UpdateRequestOf(form).value;
      var r := SendUpdate(t, q);
      && (ReceivedSegment(form.menuId) == JsTrim(form.menuId) ==>
            r == Update(t, DigitsValue(JsTrim(form.menuId)), Some(q.name), Some(q.description), Some(q.price),
                        Some(q.category), Some(q.imageUrl)))
      && (ReceivedSegment(form.menuId) != JsTrim(form.menuId) ==> r == Reply(404, t))
  {
    var s := form.menuId;
    var g := ReceivedSegment(s);
    if g != JsTrim(s) && RouteId(g).Some? {
      DigitsSegmentIsTrim(s);
    }
  }

  /** A segment of digits left after the client is the trimmed id. */
  lemma DigitsSegmentIsTrim(s: string)
    requires |ReceivedSegment(s)| > 0 && AllDigits(ReceivedSegment(s))
    ensures ReceivedSegment(s) == JsTrim(s)
  {
    var g := ReceivedSegment(s);
    var w := s[|g|..];
    assert s == g + w;
    assert !IsJsSpace(s[0]) by {
      assert s[0] == g[0];
    }
    TrimLeftKeeps(s, IsJsSpace);
    TrimRightSkips(g, w, IsJsSpace);
  }

  /** An id typed with white space in front passes the screen, which trims
      only for its check, and reaches no route, so nothing is written. */
  lemma PaddedIdMissesRoute(t: MenuTable, form: UpdateMenu.Form)
    requires UpdateMenu.UpdateRequestOf(form).Some? && |form.menuId| > 0 && IsJsSpace(form.menuId[0])
    ensures SendUpdate(t, UpdateMenu.UpdateRequestOf(form).value) == Reply(404, t)
  {
    var g := ReceivedSegment(form.menuId);
    if |g| > 0 {
      assert !IsDigit(g[0]);
    }
  }

  /** A segment that trimming changes is not all digits. */
  lemma PaddedSegmentMisses(s: string)
    requires JsTrim(s) != s
    ensures RouteId(s).None?
  {
    TrimChangedHasSpace(s, IsJsSpace);
    if IsJsSpace(s[0]) {
      assert !IsDigit(s[0]);
    } else {
      assert !IsDigit(s[|s| - 1]);
    }
  }

  /** " 5" is such an id: it passes the screen's id check and misses the route. */
  lemma PaddedFive()
    ensures UpdateMenu.CheckMenuId(" 5").None? && RouteId(ReceivedSegment(" 5")).None?
  {
    var s := " 5";
    assert TrimLeft(s, IsJsSpace) == "5" by {
      assert s[1..] == "5";
    }
    assert TrimRight("5", IsJsSpace) == "5";
    TrimRightKeeps(s, IsUrlBlank);
    assert !IsDigit(s[0]);
  }

  /** "5 " passes the screen's id check too, but the client drops its blank,
      so it reaches item 5. */
  lemma TrailingFive()
    ensures UpdateMenu.CheckMenuId("5 ").None? && RouteId(ReceivedSegment("5 ")) == Some(5)
  {
    var s := "5 ";
    assert TrimLeft(s, IsJsSpace) == s;
    assert TrimRight(s, IsJsSpace) == "5" by {
      assert s[..1] == "5";
    }
    assert ReceivedSegment(s) == "5" by {
      assert s[..1] == "5";
    }
    assert DigitsValue("5") == 5;
  }
}
