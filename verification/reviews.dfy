/**
 * Reviews on the backend (Backend/sentiment.py): the checks on a submitted
 * review in their order, the sentiment label stored with it, and the review
 * list of one dish with its labels lower-cased. The JSON body is a map from
 * keys to JSON values; the sentiment model's answer is a parameter.
 */
module Reviews {
  import opened Common

  /** A JSON value as Python sees it after `get_json()`. Floats, lists and
      objects only matter through their truthiness here. */
  datatype Json = JNull | JBool(b: bool) | JInt(i: int) | JStr(s: string) | JOther(truthy: bool)

  /** Python truthiness. */
  predicate Truthy(j: Json) {
    match j
    case JNull => false
    case JBool(b) => b
    case JInt(i) => i != 0
    case JStr(s) => s != ""
    case JOther(t) => t
  }

  /** `isinstance(j, int)`, which holds for booleans too, with the value. */
  function AsInt(j: Json): (r: Option<int>)
    ensures r.Some? <==> j.JInt? || j.JBool?
    ensures j.JBool? ==> r == Some(if j.b then 1 else 0)
    ensures j.JInt? ==> r == Some(j.i)
  {
    match j
    case JInt(i) => Some(i)
    case JBool(b) => Some(if b then 1 else 0)
    case _ => None
  }

  /** `data.get(key)`: a missing key reads as `None`. */
  function Get(data: map<string, Json>, key: string): Json {
    if key in data then data[key] else JNull
  }

  /** `data.get('menu_id') or data.get('food_id')` */
  function ChosenMenuId(data: map<string, Json>): (j: Json)
    ensures Truthy(Get(data, "menu_id")) ==> j == Get(data, "menu_id")
    ensures !Truthy(Get(data, "menu_id")) ==> j == Get(data, "food_id")
  {
    if Truthy(Get(data, "menu_id")) then Get(data, "menu_id") else Get(data, "food_id")
  }

  /** The label stored with a review: "unknown" without a prediction (no
      model, or the model failed), else the prediction lower-cased. */
  function SentimentOf(prediction: Option<string>): (tag: string)
    ensures prediction.None? ==> tag == "unknown"
    ensures prediction.Some? ==> tag == Lower(prediction.value) && Lower(tag) == tag
  {
    if prediction.None? then "unknown"
    else
      LowerIdempotent(prediction.value);
      Lower(prediction.value)
  }

  /** A `Reviews` row. The sentiment column may hold NULL. */
  datatype ReviewRow = ReviewRow(reviewId: int, menuId: int, rating: int, feedback: Json,
                                 customerName: Json, sentiment: Option<string>)

  /** The rows in insertion order and the next `review_id`. */
  datatype ReviewTable = ReviewTable(rows: seq<ReviewRow>, nextId: int)

  /** Status, the table afterwards, and the new review on success. */
  datatype SubmitReply = SubmitReply(status: int, table: ReviewTable, review: Option<ReviewRow>)

  /** The request is refused before the database is consulted. */
  predicate Refused(data: map<string, Json>) {
    var menuId := ChosenMenuId(data);
    var rating := Get(data, "rating");
    menuId == JNull || AsInt(menuId).None? || rating == JNull || !Truthy(Get(data, "feedback"))
    || AsInt(rating).None? || AsInt(rating).value < 1 || AsInt(rating).value > 5
  }

  /** `customer_name or "Anonymous"` */
  function NameOrAnonymous(name: Json): (r: Json)
    ensures Truthy(r)
    ensures Truthy(name) ==> r == name
  {
    if Truthy(name) then name else JStr("Anonymous")
  }

  /** POST /reviews. `menus` holds the ids of the `Menu` rows. */
  function SubmitReview(t: ReviewTable, menus: set<int>, data: map<string, Json>, prediction: Option<string>)
    : (r: SubmitReply)
    ensures r.status in {201, 400, 404}
    ensures r.status == 400 <==> Refused(data)
    ensures r.status == 404 <==> !Refused(data) && AsInt(ChosenMenuId(data)).value !in menus
    ensures r.status != 201 ==> r.table == t && r.review.None?
    ensures r.status == 201 ==>
      var row := ReviewRow(t.nextId, AsInt(ChosenMenuId(data)).value, AsInt(Get(data, "rating")).value,
                           Get(data, "feedback"), NameOrAnonymous(Get(data, "customer_name")),
                           Some(SentimentOf(prediction)));
      r.table == ReviewTable(t.rows + [row], t.nextId + 1) && r.review == Some(row)
  {
    if Refused(data) then SubmitReply(400, t, None)
    else
      var menuId := AsInt(ChosenMenuId(data)).value;
      if menuId !in menus then SubmitReply(404, t, None)
      else
        var row := ReviewRow(t.nextId, menuId, AsInt(Get(data, "rating")).value, Get(data, "feedback"),
                             NameOrAnonymous(Get(data, "customer_name")), Some(SentimentOf(prediction)));
        SubmitReply(201, ReviewTable(t.rows + [row], t.nextId + 1), Some(row))
  }

  /** A fetched row: a non-empty sentiment is lower-cased. */
  function Fetched(row: ReviewRow): (out: ReviewRow)
    ensures out.reviewId == row.reviewId && out.menuId == row.menuId && out.rating == row.rating
    ensures out.feedback == row.feedback && out.customerName == row.customerName
    ensures IsTruthyText(row.sentiment) ==> out.sentiment == Some(Lower(row.sentiment.value))
    ensures !IsTruthyText(row.sentiment) ==> out.sentiment == row.sentiment
  {
    if IsTruthyText(row.sentiment) then row.(sentiment := Some(Lower(row.sentiment.value))) else row
  }

  /** A fetched label is lower-case: lower-casing it again changes nothing. */
  lemma FetchedIsLower(row: ReviewRow)
    ensures Fetched(row).sentiment.None? || Lower(Fetched(row).sentiment.value) == Fetched(row).sentiment.value
  {
    if IsTruthyText(row.sentiment) {
      LowerIdempotent(row.sentiment.value);
    }
  }

  /** GET /reviews/<menu_id>: the dish's reviews, newest first (the order
      `ORDER BY created_at DESC` gives when every review is stamped later
      than the one before), and none when the dish is gone (the query joins
      `Menu`). */
  function GetReviews(rows: seq<ReviewRow>, menus: set<int>, menuId: int): (out: seq<ReviewRow>)
    ensures menuId !in menus ==> out == []
    ensures |out| <= |rows|
    ensures forall k :: 0 <= k < |out| ==> out[k].menuId == menuId
    ensures forall k :: 0 <= k < |out| ==> out[k].sentiment.None? || Lower(out[k].sentiment.value) == out[k].sentiment.value
    decreases |rows|
  {
    if |rows| == 0 || menuId !in menus then []
    else
      var rest := GetReviews(rows[1..], menus, menuId);
      if rows[0].menuId == menuId then
        FetchedIsLower(rows[0]);
        rest + [Fetched(rows[0])]
      else rest
  }

  // ---------------------------------------------------------------------------
  // Properties

  /** A dish's list shows each of its reviews as fetched, and nothing else. */
  lemma {:induction false} GetReviewsMembers(rows: seq<ReviewRow>, menus: set<int>, menuId: int)
    requires menuId in menus
    ensures forall o :: o in GetReviews(rows, menus, menuId) <==>
      exists k :: 0 <= k < |rows| && rows[k].menuId == menuId && o == Fetched(rows[k])
    decreases |rows|
  {
    if |rows| > 0 {
      var rest := rows[1..];
      GetReviewsMembers(rest, menus, menuId);
      forall o ensures o in GetReviews(rows, menus, menuId) <==>
        exists k :: 0 <= k < |rows| && rows[k].menuId == menuId && o == Fetched(rows[k])
      {
        if exists k :: 0 <= k < |rows| && rows[k].menuId == menuId && o == Fetched(rows[k]) {
          var k :| 0 <= k < |rows| && rows[k].menuId == menuId && o == Fetched(rows[k]);
          if k > 0 {
            assert rest[k - 1] == rows[k];
          }
        }
        if o in GetReviews(rest, menus, menuId) {
          var k :| 0 <= k < |rest| && rest[k].menuId == menuId && o == Fetched(rest[k]);
          assert rows[k + 1] == rest[k];
        }
      }
    }
  }

  /** A review just submitted comes first in its dish's list, with the
      sentiment it was stored with. */
  lemma SubmittedComesFirst(t: ReviewTable, menus: set<int>, data: map<string, Json>, prediction: Option<string>)
    requires SubmitReview(t, menus, data, prediction).status == 201
    ensures var r := SubmitReview(t, menus, data, prediction);
      var list := GetReviews(r.table.rows, menus, r.review.value.menuId);
      |list| > 0 && list[0] == r.review.value
  {
    var r := SubmitReview(t, menus, data, prediction);
    var row := r.review.value;
    NewestFirst(t.rows, row, menus);
    var s := SentimentOf(prediction);
    if s != "" {
      assert Lower(s) == s;
    }
    assert Fetched(row) == row;
  }

  /** Appending a row of the listed dish puts it at the head of the list. */
  lemma {:induction false} NewestFirst(rows: seq<ReviewRow>, row: ReviewRow, menus: set<int>)
    requires row.menuId in menus
    ensures GetReviews(rows + [row], menus, row.menuId) == [Fetched(row)] + GetReviews(rows, menus, row.menuId)
    decreases |rows|
  {
    if |rows| == 0 {
      assert (rows + [row])[1..] == [];
    } else {
      assert (rows + [row])[1..] == rows[1..] + [row];
      NewestFirst(rows[1..], row, menus);
    }
  }

  /** The id comes from `menu_id` when it is truthy and from `food_id`
      otherwise; `true` counts as the integer 1, and a text id is refused. */
  lemma MenuIdChoice(feedback: string, rating: int)
    requires feedback != "" && 1 <= rating <= 5
    ensures var base := map["feedback" := JStr(feedback), "rating" := JInt(rating)];
      && ChosenMenuId(base["menu_id" := JInt(0)]["food_id" := JInt(7)]) == JInt(7)
      && AsInt(ChosenMenuId(base["menu_id" := JBool(true)])) == Some(1)
      && Refused(base["food_id" := JStr("7")])
      && Refused(base)
  {
  }

  /** The checks come in order: a missing rating or empty feedback is
      refused even when the rating would also be out of range, and a
      boolean `true` rating passes as 1. */
  lemma RatingChecks(menuId: int)
    ensures Refused(map["food_id" := JInt(menuId), "rating" := JInt(9)])
    ensures Refused(map["food_id" := JInt(menuId), "rating" := JInt(3), "feedback" := JStr("")])
    ensures !Refused(map["food_id" := JInt(menuId), "rating" := JBool(true), "feedback" := JStr("ok")])
    ensures Refused(map["food_id" := JInt(menuId), "rating" := JInt(6), "feedback" := JStr("ok")])
  {
  }
}
