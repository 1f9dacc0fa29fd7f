/**
 * The loyalty screen (SmartHotel/src/Screens/LoyaltyScreen.js): which redeem
 * buttons it shows, the eligibility it checks before sending a redemption,
 * and the tier table it displays.
 */
module LoyaltyScreen {
  import opened Common
  import opened OrderDb
  import opened Loyalty

  /** The part of the screen's `user` state the redeem logic reads. */
  datatype UserState = UserState(tier: string, discount: int, redeemed: bool)

  /** The state before the first GET answers. */
  const Initial := UserState("Bronze", 0, false)

  /** The state after a GET: the fields of the response. */
  function FromView(v: View): UserState {
    UserState(TierName(v.tier), v.discount, v.redeemed)
  }

  /** `handleRedeemSilverDiscount` sends a request only when this holds. */
  function SilverEligible(s: UserState): (ok: bool)
    ensures ok ==> s.tier == "Silver" && s.discount == 15 && !s.redeemed
    ensures s.tier == "Silver" && s.discount == 15 && !s.redeemed ==> ok
  {
    !(s.tier != "Silver" || s.discount != 15 || s.redeemed)
  }

  /** `handleRedeemPlatinumDiscount` sends a request only when this holds. */
  function PlatinumEligible(s: UserState): (ok: bool)
    ensures ok <==> s.tier == "Platinum" && s.discount == 50
  {
    !(s.tier != "Platinum" || s.discount != 50)
  }

  /** The "Redeem 15% Discount" button is rendered. */
  predicate SilverButton(s: UserState) {
    s.tier == "Silver" && !s.redeemed
  }

  /** The "Redeem 50% Discount" button is rendered. */
  predicate PlatinumButton(s: UserState) {
    s.tier == "Platinum"
  }

  /** One entry of the displayed tier table. */
  datatype TierEntry = TierEntry(name: string, points: int, discount: int)

  const TierTable: seq<TierEntry> := [
    TierEntry("Bronze", 0, 0), TierEntry("Silver", 1000, 15),
    TierEntry("Gold", 2000, 25), TierEntry("Platinum", 3000, 50)]

  /** The displayed table agrees with the backend: entry `i` is the tier of
      every point count from its threshold up to the next entry's. */
  lemma TierTableAgrees(i: int, p: int)
    requires 0 <= i < |TierTable|
    requires TierTable[i].points <= p && (i == |TierTable| - 1 || p < TierTable[i + 1].points)
    ensures TierName(TierFor(p)) == TierTable[i].name
    ensures DiscountOf(TierFor(p)) == TierTable[i].discount
    ensures Threshold(TierFor(p)) == TierTable[i].points
  {
  }

  /** On a state from a GET, a visible button means the request will be sent:
      the discount always matches the tier there. */
  lemma ButtonsImplyEligible(v: View)
    requires v.discount == DiscountOf(v.tier)
    ensures SilverButton(FromView(v)) ==> SilverEligible(FromView(v))
    ensures PlatinumButton(FromView(v)) ==> PlatinumEligible(FromView(v))
  {
  }

  /** The client's checks agree with the server's: right after a GET, the Silver
      button is shown exactly when the Silver redemption would succeed, and the
      Platinum button exactly when the Platinum one would. */
  lemma ButtonsAgreeWithServer(db: LoyaltyDb, orders: map<int, Order>, u: int)
    requires u != 0 && u in db.users
    ensures var r := GetLoyalty(db, orders, Some(u));
      var s := FromView(r.view.value);
      && (SilverButton(s) <==> RedeemSilver(r.db, Some(u)).status == 200)
      && (PlatinumButton(s) <==> RedeemPlatinum(r.db, Some(u)).status == 200)
  {
  }

  /** The initial state offers no redemption. */
  lemma InitialOffersNothing()
    ensures !SilverButton(Initial) && !PlatinumButton(Initial)
    ensures !SilverEligible(Initial) && !PlatinumEligible(Initial)
  {
  }
}
