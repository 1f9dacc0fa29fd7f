/**
 * The dish details screen's review panel (SmartHotel/src/Screens/DetailsScreen.js):
 * when reviews are fetched, the map from review id to sentiment label, the
 * checks before a review is posted, the state after a successful post, and
 * the star row. Related to the endpoints in module Reviews.
 */
module DetailsScreen {
  import opened Common
  import Reviews

  /** `item.id` as navigation passed it. */
  datatype ItemId = NumberId(n: int) | TextId(s: string) | NoId

  /** A user name other than the "Anonymous" placeholder. */
  predicate LoggedIn(userName: Option<string>) {
    IsTruthyText(userName) && userName.value != "Anonymous"
  }

  /** What `fetchReviews` does: stop with an error, or ask for a dish's reviews. */
  datatype FetchStart = Blocked(error: string) | Request(menuId: int)

  function StartFetch(userName: Option<string>, item: ItemId): (f: FetchStart)
    ensures f.Request? <==> LoggedIn(userName) && item.NumberId? && item.n != 0
    ensures f.Request? ==> f.menuId == item.n
    ensures !LoggedIn(userName) ==> f == Blocked("Please log in to view reviews")
    ensures LoggedIn(userName) && f.Blocked? ==> f.error == "Error: Invalid or missing item ID"
  {
    if !LoggedIn(userName) then Blocked("Please log in to view reviews")
    else if !(item.NumberId? && item.n != 0) then Blocked("Error: Invalid or missing item ID")
    else Request(item.n)
  }

  /** The label the screen keeps for a review: its sentiment lower-cased, or
      "unknown" when it has none. */
  function SentimentTag(sentiment: Option<string>): (tag: string)
    ensures Lower(tag) == tag
    ensures IsTruthyText(sentiment) ==> tag == Lower(sentiment.value)
    ensures !IsTruthyText(sentiment) ==> tag == "unknown"
  {
    if IsTruthyText(sentiment) then
      LowerIdempotent(sentiment.value);
      Lower(sentiment.value)
    else "unknown"
  }

  /** The `sentiments` object built by `reduce` over the fetched reviews:
      each review in turn sets its id's label. */
  function SentimentMap(reviews: seq<Reviews.ReviewRow>): (m: map<int, string>)
    ensures forall id :: id in m <==> exists k :: 0 <= k < |reviews| && reviews[k].reviewId == id
    ensures forall id :: id in m ==> Lower(m[id]) == m[id]
    decreases |reviews|
  {
    if |reviews| == 0 then map[]
    else
      var init := reviews[..|reviews| - 1];
      var last := reviews[|reviews| - 1];
      assert forall k :: 0 <= k < |init| ==> init[k] == reviews[k];
      SentimentMap(init)[last.reviewId := SentimentTag(last.sentiment)]
  }

  /** The label shown on a review card: `sentiments[id] || 'unknown'`. */
  function ShownSentiment(sentiments: map<int, string>, id: int): (tag: string)
    ensures tag != ""
    ensures id in sentiments && sentiments[id] != "" ==> tag == sentiments[id]
  {
    if id in sentiments && sentiments[id] != "" then sentiments[id] else "unknown"
  }

  datatype Colour = Green | Red | Grey

  function SentimentColour(tag: string): (c: Colour)
    ensures c == Green <==> tag == "positive"
    ensures c == Red <==> tag == "negative"
  {
    if tag == "positive" then Green else if tag == "negative" then Red else Grey
  }

  /** What pressing "Submit Review" does. */
  datatype SubmitStart = LoginFirst | NoRating | NoFeedback | Post(payload: map<string, Reviews.Json>)

  /** The JSON body: `food_id`, `rating`, `feedback`, `customer_name`; an
      undefined id is left out of the JSON. */
  function Payload(item: ItemId, rating: int, feedback: string, userName: string): (p: map<string, Reviews.Json>)
    ensures "menu_id" !in p
    ensures Reviews.Get(p, "rating") == Reviews.JInt(rating) && Reviews.Get(p, "feedback") == Reviews.JStr(feedback)
    ensures Reviews.Get(p, "customer_name") == Reviews.JStr(userName)
    ensures "food_id" in p <==> !item.NoId?
  {
    var base := map["rating" := Reviews.JInt(rating), "feedback" := Reviews.JStr(feedback),
                    "customer_name" := Reviews.JStr(userName)];
    match item
    case NumberId(n) => base["food_id" := Reviews.JInt(n)]
    case TextId(s) => base["food_id" := Reviews.JStr(s)]
    case NoId => base
  }

  /** `submitReview` up to the request: not logged in, then no rating, then
      blank feedback. */
  function StartSubmit(userName: Option<string>, rating: int, feedback: string, item: ItemId): (s: SubmitStart)
    ensures !LoggedIn(userName) ==> s == LoginFirst
    ensures LoggedIn(userName) && rating == 0 ==> s == NoRating
    ensures s.Post? <==> LoggedIn(userName) && rating != 0 && JsTrim(feedback) != []
    ensures s.Post? ==> s.payload == Payload(item, rating, feedback, userName.value)
  {
    if !LoggedIn(userName) then LoginFirst
    else if rating == 0 then NoRating
    else if JsTrim(feedback) == "" then NoFeedback
    else Post(Payload(item, rating, feedback, userName.value))
  }

  /** The review panel's state. */
  datatype PanelState = PanelState(reviews: seq<Reviews.ReviewRow>, sentiments: map<int, string>,
                                   rating: int, feedback: string)

  /** After a successful post: the new review goes first, its label is
      recorded, and the form is cleared. */
  function AfterSubmit(st: PanelState, review: Reviews.ReviewRow): (r: PanelState)
    ensures |r.reviews| == |st.reviews| + 1 && r.reviews[0] == review && r.reviews[1..] == st.reviews
    ensures r.sentiments.Keys == st.sentiments.Keys + {review.reviewId}
    ensures r.sentiments[review.reviewId] == SentimentTag(review.sentiment)
    ensures forall id :: id in st.sentiments && id != review.reviewId ==> r.sentiments[id] == st.sentiments[id]
    ensures r.rating == 0 && r.feedback == ""
  {
    PanelState([review] + st.reviews, st.sentiments[review.reviewId := SentimentTag(review.sentiment)], 0, "")
  }

  /** `renderStars`: five stars, the i-th (from 1) filled when i <= rating. */
  function RenderStars(rating: int): (stars: seq<bool>)
    ensures |stars| == 5
  {
    seq(5, k requires 0 <= k < 5 => k + 1 <= rating)
  }

  function CountFilled(stars: seq<bool>): nat
    decreases |stars|
  {
    if |stars| == 0 then 0 else CountFilled(stars[..|stars| - 1]) + (if stars[|stars| - 1] then 1 else 0)
  }

  // ---------------------------------------------------------------------------
  // Properties

  /** The filled stars of a row of n are the first min(rating, n) of them. */
  lemma {:induction false} FilledPrefix(n: nat, rating: int)
    ensures CountFilled(seq(n, k requires 0 <= k < n => k + 1 <= rating))
         == if rating < 0 then 0 else if rating > n then n else rating
    decreases n
  {
    if n > 0 {
      var s := seq(n, k requires 0 <= k < n => k + 1 <= rating);
      assert s[..n - 1] == seq(n - 1, k requires 0 <= k < n - 1 => k + 1 <= rating);
      FilledPrefix(n - 1, rating);
    }
  }

  /** `renderStars` shows as many filled stars as the rating, clamped to 0..5,
      and a filled star is never after an empty one. */
  lemma StarsShowRating(rating: int)
    ensures CountFilled(RenderStars(rating)) == if rating < 0 then 0 else if rating > 5 then 5 else rating
    ensures forall i, j :: 0 <= i < j < 5 && RenderStars(rating)[j] ==> RenderStars(rating)[i]
  {
    FilledPrefix(5, rating);
  }

  /** For distinct review ids, each id is labelled from its own review. */
  lemma {:induction false} SentimentMapLabels(reviews: seq<Reviews.ReviewRow>, i: int)
    requires 0 <= i < |reviews|
    requires forall j :: i < j < |reviews| ==> reviews[j].reviewId != reviews[i].reviewId
    ensures SentimentMap(reviews)[reviews[i].reviewId] == SentimentTag(reviews[i].sentiment)
    decreases |reviews|
  {
    if i < |reviews| - 1 {
      var init := reviews[..|reviews| - 1];
      assert init[i] == reviews[i];
      SentimentMapLabels(init, i);
    }
  }

  /** The server's lower-casing does not change the screen's labels: a review
      is labelled the same whether or not it was lower-cased on the way. */
  lemma LabelsIgnoreServerLowering(row: Reviews.ReviewRow)
    ensures SentimentTag(Reviews.Fetched(row).sentiment) == SentimentTag(row.sentiment)
  {
    if IsTruthyText(row.sentiment) {
      LowerIdempotent(row.sentiment.value);
      assert |Lower(row.sentiment.value)| == |row.sentiment.value|;
    }
  }

  /** A review the screen posts for a numeric dish id passes every check of
      the server (the star buttons only set ratings 1 to 5); it is stored when
      the dish exists and answered 404 otherwise. A text id is refused. */
  lemma PostedReviewAccepted(userName: Option<string>, rating: int, feedback: string, n: int,
                             t: Reviews.ReviewTable, menus: set<int>, prediction: Option<string>)
    requires 0 <= rating <= 5
    requires StartSubmit(userName, rating, feedback, NumberId(n)).Post?
    ensures var p := StartSubmit(userName, rating, feedback, NumberId(n)).payload;
      var r := Reviews.SubmitReview(t, menus, p, prediction);
      && (r.status == 201 <==> n in menus)
      && (r.status == 201 ==> r.review.value.menuId == n && r.review.value.rating == rating)
      && (r.status != 201 ==> r.status == 404)
  {
    TrimEmptyIff(feedback, IsJsSpace);
    NumericPayloadPasses(n, rating, feedback, userName.value);
  }

  /** The payload for a numeric dish id, a rating of 1 to 5 and non-empty
      feedback passes the server's checks and names that dish. */
  lemma NumericPayloadPasses(n: int, rating: int, feedback: string, userName: string)
    requires 1 <= rating <= 5 && feedback != ""
    ensures var p := Payload(NumberId(n), rating, feedback, userName);
      !Reviews.Refused(p) && Reviews.ChosenMenuId(p) == Reviews.JInt(n)
      && Reviews.AsInt(Reviews.Get(p, "rating")) == Some(rating)
  {
    var p := Payload(NumberId(n), rating, feedback, userName);
    assert Reviews.Get(p, "menu_id") == Reviews.JNull;
    assert Reviews.Get(p, "food_id") == Reviews.JInt(n);
  }

  /** A dish id that is text reaches the server as a string and is refused. */
  lemma TextIdRefused(userName: Option<string>, rating: int, feedback: string, s: string)
    requires StartSubmit(userName, rating, feedback, TextId(s)).Post?
    ensures Reviews.Refused(StartSubmit(userName, rating, feedback, TextId(s)).payload)
  {
    var p := StartSubmit(userName, rating, feedback, TextId(s)).payload;
    assert Reviews.Get(p, "menu_id") == Reviews.JNull;
  }
}
