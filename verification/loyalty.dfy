/**
 * Loyalty points, tiers and discounts on the backend
 * (Backend/customerLoyality.py). Points are 50 per completed order; the tier
 * and discount follow the points; a Silver customer can redeem the 15%
 * discount once, a Platinum customer redeems 50% by giving up all points.
 */
module Loyalty {
  import opened Common
  import opened OrderDb

  datatype Tier = Bronze | Silver | Gold | Platinum

  function TierName(t: Tier): string {
    match t
    case Bronze => "Bronze"
    case Silver => "Silver"
    case Gold => "Gold"
    case Platinum => "Platinum"
  }

  function TierRank(t: Tier): nat {
    match t
    case Bronze => 0
    case Silver => 1
    case Gold => 2
    case Platinum => 3
  }

  const PointsPerOrder := 50

  /** A row of `CustomerLoyalty`; the discount is a whole percentage. */
  datatype LoyaltyRow = LoyaltyRow(points: int, tier: Tier, discount: int, redeemed: bool)

  /** What a `LoyaltyActivities` row records. */
  datatype Activity =
    | TierChanged(tier: Tier, discount: int)
    | SilverRedeemed
    | PlatinumRedeemed(pointsChange: int)

  /** The user ids of `Users`, the `CustomerLoyalty` rows by user id, and the
      activity log as (user id, activity) in insertion order. */
  datatype LoyaltyDb = LoyaltyDb(users: set<int>, rows: map<int, LoyaltyRow>, log: seq<(int, Activity)>)

  /** The `user` object of a successful GET /loyalty. */
  datatype View = View(points: int, tier: Tier, discount: int, redeemed: bool, pointsToNext: int)

  datatype GetReply = GetReply(status: int, db: LoyaltyDb, view: Option<View>)

  datatype RedeemReply = RedeemReply(status: int, db: LoyaltyDb)

  /** The minimum points of each tier. */
  function Threshold(t: Tier): int {
    match t
    case Bronze => 0
    case Silver => 1000
    case Gold => 2000
    case Platinum => 3000
  }

  /** The discount percentage each tier grants. */
  function DiscountOf(t: Tier): int {
    match t
    case Bronze => 0
    case Silver => 15
    case Gold => 25
    case Platinum => 50
  }

  /** The tier a number of points earns. */
  function TierFor(points: int): (t: Tier)
    ensures t == Bronze || points >= Threshold(t)
    ensures t == Platinum || points < Threshold(NextTier(t))
  {
    if points >= 3000 then Platinum
    else if points >= 2000 then Gold
    else if points >= 1000 then Silver
    else Bronze
  }

  /** The tier after `t` (Platinum has none and maps to itself). */
  function NextTier(t: Tier): Tier {
    match t
    case Bronze => Silver
    case Silver => Gold
    case Gold => Platinum
    case Platinum => Platinum
  }

  /** The customer's completed orders in the `Orders` table. */
  function CompletedOrders(orders: map<int, Order>, user: int): set<int> {
    set id | id in orders && orders[id].customerId == user && orders[id].status == Completed
  }

  /** Points earned by completed orders. */
  function Earned(orders: map<int, Order>, user: int): (p: int)
    ensures p >= 0 && p % PointsPerOrder == 0
  {
    |CompletedOrders(orders, user)| * PointsPerOrder
  }

  /** The row after the recomputation at lines 45-62: replaced by a fresh Bronze
      row with the earned points when absent or behind them, kept otherwise. */
  function Refreshed(row: Option<LoyaltyRow>, earned: int): (r: LoyaltyRow)
    ensures row.Some? ==> r.points >= row.value.points
    ensures r.points >= earned
    ensures row.Some? && row.value.points >= earned ==> r == row.value
  {
    if row.None? || row.value.points < earned then LoyaltyRow(earned, Bronze, 0, false) else row.value
  }

  /** `points_to_next_reward` before the response clamps it. */
  function RawToNext(t: Tier, points: int): int {
    match t
    case Bronze => 1000 - points
    case Silver => 2000 - points
    case Gold => 3000 - points
    case Platinum => 0
  }

  /** GET /loyalty for the user in the session (`None` when there is none). */
  function GetLoyalty(db: LoyaltyDb, orders: map<int, Order>, session: Option<int>): (r: GetReply)
    ensures r.status == 401 <==> !IsTruthyInt(session)
    ensures r.status == 404 <==> IsTruthyInt(session) && session.value !in db.users
    ensures r.status == 200 <==> r.view.Some?
    ensures r.status != 200 ==> r.db == db
    ensures r.status == 200 ==>
      var u := session.value;
      var v := r.view.value;
      && v.points >= Earned(orders, u)
      && (u in db.rows ==> v.points >= db.rows[u].points)
      && v.tier == TierFor(v.points) && v.discount == DiscountOf(v.tier)
      && v.pointsToNext >= 0
      && u in r.db.rows && r.db.rows[u] == LoyaltyRow(v.points, v.tier, v.discount, v.redeemed)
      && r.db.users == db.users
      && (forall w :: w != u ==> (w in r.db.rows <==> w in db.rows) && (w in db.rows ==> r.db.rows[w] == db.rows[w]))
  {
    if !IsTruthyInt(session) then GetReply(401, db, None)
    else if session.value !in db.users then GetReply(404, db, None)
    else
      var u := session.value;
      var earned := Earned(orders, u);
      var row := Refreshed(if u in db.rows then Some(db.rows[u]) else None, earned);
      var oldTier := row.tier;
      var tier := TierFor(row.points);
      var discount := DiscountOf(tier);
      var log := if tier != oldTier then db.log + [(u, TierChanged(tier, discount))] else db.log;
      var stored := if tier != row.tier || discount != row.discount
                    then row.(tier := tier, discount := discount) else row;
      var toNext := RawToNext(tier, row.points);
      GetReply(200, LoyaltyDb(db.users, db.rows[u := stored], log),
               Some(View(row.points, tier, discount, stored.redeemed, if toNext < 0 then 0 else toNext)))
  }

  /** POST /loyalty/redeem/silver. */
  function RedeemSilver(db: LoyaltyDb, session: Option<int>): (r: RedeemReply)
    ensures r.status == 401 <==> !IsTruthyInt(session)
    ensures r.status == 404 <==> IsTruthyInt(session) && session.value !in db.rows
    ensures r.status == 200 <==>
      IsTruthyInt(session) && session.value in db.rows
      && db.rows[session.value].tier == Silver && db.rows[session.value].discount == 15
      && !db.rows[session.value].redeemed
    ensures r.status in {200, 401, 403, 404}
    ensures r.status != 200 ==> r.db == db
    ensures r.status == 200 ==>
      r.db == db.(rows := db.rows[session.value := db.rows[session.value].(redeemed := true)],
                  log := db.log + [(session.value, SilverRedeemed)])
  {
    if !IsTruthyInt(session) then RedeemReply(401, db)
    else
      var u := session.value;
      if u !in db.rows then RedeemReply(404, db)
      else
        var row := db.rows[u];
        if row.tier != Silver || row.discount != 15 then RedeemReply(403, db)
        else if row.redeemed then RedeemReply(403, db)
        else RedeemReply(200, db.(rows := db.rows[u := row.(redeemed := true)],
                                   log := db.log + [(u, SilverRedeemed)]))
  }

  /** POST /loyalty/redeem (the Platinum discount). */
  function RedeemPlatinum(db: LoyaltyDb, session: Option<int>): (r: RedeemReply)
    ensures r.status == 401 <==> !IsTruthyInt(session)
    ensures r.status == 404 <==> IsTruthyInt(session) && session.value !in db.rows
    ensures r.status == 200 <==>
      IsTruthyInt(session) && session.value in db.rows
      && db.rows[session.value].tier == Platinum && db.rows[session.value].discount == 50
    ensures r.status in {200, 401, 403, 404}
    ensures r.status != 200 ==> r.db == db
    ensures r.status == 200 ==>
      r.db == db.(rows := db.rows[session.value := LoyaltyRow(0, Bronze, 0, false)],
                  log := db.log + [(session.value, PlatinumRedeemed(-db.rows[session.value].points))])
  {
    if !IsTruthyInt(session) then RedeemReply(401, db)
    else
      var u := session.value;
      if u !in db.rows then RedeemReply(404, db)
      else
        var row := db.rows[u];
        if row.tier != Platinum || row.discount != 50 then RedeemReply(403, db)
        else RedeemReply(200, db.(rows := db.rows[u := LoyaltyRow(0, Bronze, 0, false)],
                                   log := db.log + [(u, PlatinumRedeemed(-row.points))]))
  }

  // ---------------------------------------------------------------------------
  // Properties

  /** More points never mean a lower tier or a smaller discount. */
  lemma TierMonotone(p: int, q: int)
    requires p <= q
    ensures TierRank(TierFor(p)) <= TierRank(TierFor(q))
    ensures DiscountOf(TierFor(p)) <= DiscountOf(TierFor(q))
  {
  }

  /** The tier boundaries: the tier of `p` is the highest one whose threshold
      `p` reaches. */
  lemma TierForIsHighestReached(p: int, t: Tier)
    ensures TierFor(p) == t <==>
      (t == Bronze || p >= Threshold(t)) && (t == Platinum || p < Threshold(NextTier(t)))
  {
  }

  /** The GET reports the stored points, or the earned points when the row is
      missing or behind: the larger of the two. */
  lemma GetPointsIsMax(db: LoyaltyDb, orders: map<int, Order>, u: int)
    requires u != 0 && u in db.users
    ensures var v := GetLoyalty(db, orders, Some(u)).view.value;
      v.points == if u in db.rows && db.rows[u].points >= Earned(orders, u) then db.rows[u].points
                  else Earned(orders, u)
  {
  }

  /** An activity is logged by a GET exactly when the tier the points earn
      differs from the tier on record (Bronze when the row is recomputed). */
  lemma GetLogsTierChange(db: LoyaltyDb, orders: map<int, Order>, u: int)
    requires u != 0 && u in db.users
    ensures var earned := Earned(orders, u);
      var recomputed := u !in db.rows || db.rows[u].points < earned;
      var oldTier := if recomputed then Bronze else db.rows[u].tier;
      var r := GetLoyalty(db, orders, Some(u));
      && r.db.log[..|db.log|] == db.log
      && (|r.db.log| == |db.log| + 1 <==> TierFor(r.view.value.points) != oldTier)
      && (|r.db.log| == |db.log| || |r.db.log| == |db.log| + 1)
      && (|r.db.log| == |db.log| + 1 ==> r.db.log[|db.log|] == (u, TierChanged(r.view.value.tier, r.view.value.discount)))
  {
  }

  /** `points_to_next_reward` is the exact distance to the next tier: the clamp
      at 0 never applies, adding it reaches the next tier and one point less
      does not. Platinum reports 0. */
  lemma ToNextIsDistance(db: LoyaltyDb, orders: map<int, Order>, u: int)
    requires u != 0 && u in db.users
    ensures var v := GetLoyalty(db, orders, Some(u)).view.value;
      && (v.tier == Platinum <==> v.pointsToNext == 0)
      && (v.tier != Platinum ==>
            v.pointsToNext == RawToNext(v.tier, v.points)
            && TierFor(v.points + v.pointsToNext) == NextTier(v.tier)
            && TierFor(v.points + v.pointsToNext - 1) == v.tier)
  {
  }

  /** A second Silver redemption is refused with 403 and changes nothing. */
  lemma SilverRedeemOnce(db: LoyaltyDb, u: int)
    requires RedeemSilver(db, Some(u)).status == 200
    ensures var db1 := RedeemSilver(db, Some(u)).db;
      RedeemSilver(db1, Some(u)).status == 403 && RedeemSilver(db1, Some(u)).db == db1
  {
  }

  /** A GET right after a Silver redemption shows it redeemed while no new
      order has completed, so the Silver button is gone. */
  lemma SilverRedeemedSurvivesGet(db: LoyaltyDb, orders: map<int, Order>, u: int)
    requires u in db.users
    requires RedeemSilver(db, Some(u)).status == 200
    requires db.rows[u].points >= Earned(orders, u)
    ensures GetLoyalty(RedeemSilver(db, Some(u)).db, orders, Some(u)).view.value.redeemed
  {
  }

  /** As written, a Platinum redemption only lasts until the next GET: the reset
      row (0 points) is behind the points the completed orders still earn, so
      the GET rebuilds it from those and the customer is Platinum again. */
  lemma PlatinumRedemptionUndoneByGet(db: LoyaltyDb, orders: map<int, Order>, u: int)
    requires u in db.users
    requires RedeemPlatinum(db, Some(u)).status == 200
    requires Earned(orders, u) >= 3000
    ensures var r := GetLoyalty(RedeemPlatinum(db, Some(u)).db, orders, Some(u));
      r.view.value.points == Earned(orders, u) && r.view.value.tier == Platinum
      && RedeemPlatinum(r.db, Some(u)).status == 200
  {
  }
}
