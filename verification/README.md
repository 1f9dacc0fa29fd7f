# SmartHotel order, cart, loyalty and account core in Dafny

SmartHotel is a restaurant app in two parts: a React Native client and a Flask backend over MySQL.
This project models the parts of both that decide what happens to an order, a cart, a loyalty account, a review, a menu item or a user account.

- **Orders.** A customer places an order from the cart. The chef's dashboard polls the open orders, counts down a new order's ten seconds, and accepts, rejects or completes it. The backend moves an order Pending → In Progress → Completed, or deletes it while it is Pending. The customer's "My Orders" screen lists their orders by status.
- **Cart.** The home screen adds dishes and filters the menu by a search text. The cart screen changes quantities, totals the cart and builds the order request.
- **Loyalty.** The backend recomputes points and tier from completed orders on every read. It grants a one-time Silver redemption and a Platinum redemption. The loyalty screen decides which redeem buttons to show.
- **Forms and accounts.** The model covers the client-side validators of the menu-update, sign-up, edit-profile and new-password screens and the backend checks that follow them. It also covers the profile update, the OTP password reset, and registration.
- **Reviews.** The backend checks a submitted review, stores a sentiment label with it and lists a dish's reviews newest first. The details screen maps reviews to labels, guards a submission and draws the star row.

## How the model is built

Every operation is a pure function over immutable datatypes, with one module per source file:

| module | models |
|---|---|
| `Common` | shared text helpers: JavaScript `trim`, Python `strip`, `parseInt`, `int()`, UTF-16 length, ASCII lower-casing |
| `OrderDb` | the `Orders`, `OrderItems` and `UserRewards` tables |
| `ChefOrderTracking`, `UserOrderTracking`, `PlaceOrder` | the order endpoints |
| `ChefDashboard`, `OrderItemScreen` | the order screens |
| `Cart` | `HomeScreen.js` (add to cart, search) and `CartScreen.js` (quantities, checkout) |
| `Loyalty`, `LoyaltyScreen` | the loyalty endpoints and screen |
| `UpdateMenu`, `MenuManagement` | the menu-update form and the menu endpoints |
| `Register`, `RegisterScreen` | registration on the backend and the sign-up form |
| `ProfileApi`, `EditProfile` | the profile endpoint and screen |
| `PasswordReset`, `SetNewPassword` | the reset endpoints and the new-password screen |
| `Reviews`, `DetailsScreen` | the review endpoints and the details screen |

How the model represents the real system:

- **Tables and requests.** A database table is a map from id to row, with an explicit auto-increment counter. An HTTP request is a function from the tables before to a status code and the tables after. A missing request field is `None`.
- **Screen state.** A React state update is a function from the old state to the new one.
- **Outside effects.** Results the code gets from outside become parameters: the bcrypt hash, whether the OTP email was sent, the five random OTP digits, the uuid of an upload, the sentiment model's prediction, today's date, and the HTTP outcome a screen sees.
- **Money.** Prices and totals are integers in hundredths of the currency unit.

## Model

| member | source | states |
|---|---|---|
| ChefOrderTracking.PendingQueue | Backend/ChefOrderTracking.py:12-21 | the chef's queue holds exactly the orders whose status is Pending or In Progress |
| ChefOrderTracking.Accept | Backend/ChefOrderTracking.py:61-89 | 400 exactly when order id or chef id is missing or 0; 200 exactly when the order exists and is Pending, and then it becomes In Progress with the chef recorded; otherwise 404 and nothing changes |
| ChefOrderTracking.Reject | Backend/ChefOrderTracking.py:91-117 | 400 when the id is missing; 200 exactly when the order exists and is Pending, and then only that order is deleted; otherwise 404 and nothing changes |
| ChefOrderTracking.Complete | Backend/ChefOrderTracking.py:119-146 | 400 when the id is missing; 200 exactly when the order is In Progress, and then it becomes Completed; otherwise 404 and nothing changes |
| ChefOrderTracking.TransitionsOnlyAdvance | Backend/ChefOrderTracking.py:75-79 | no transition creates an order or moves an order's status backwards in the lifecycle |
| ChefOrderTracking.CompletedIsTerminal | Backend/ChefOrderTracking.py:119-146 | a Completed order is never changed or deleted by accept, reject or complete, whatever their arguments |
| ChefOrderTracking.QueueAfterTransitions | Backend/ChefOrderTracking.py:12-21 | an accepted order was in the chef's queue and stays there; a completed one leaves it; a rejected one is gone from the table |
| ChefOrderTracking.LifecycleOrder | Backend/ChefOrderTracking.py:119-140 | a Pending order cannot be completed directly (404); after an accept it can, and it keeps the accepting chef |
| UserOrderTracking.CustomerOrders | Backend/userOrderTracking.py:12-53 | for a customer id: 400 with nothing listed exactly when there is none; otherwise 200 and every listed order belongs to the customer |
| UserOrderTracking.CustomerOrdersForm | Backend/userOrderTracking.py:10-53 | the `user_id` field is text: 400 with nothing listed exactly when it is missing or empty; text equal to no integer lists nothing with 200; otherwise the listing of the customer the database compares it equal to |
| UserOrderTracking.NumeralListsCustomer | Backend/userOrderTracking.py:10-24 | the numeral of a customer id, "0" included, passes the guard and lists that customer's orders |
| UserOrderTracking.FallbackChain | Backend/userOrderTracking.py:18-48 | the listing is the Pending orders when there are any, else the In Progress ones, else the Completed orders placed today |
| UserOrderTracking.ListingIsUniform | Backend/userOrderTracking.py:18-53 | all listed orders share one status; an In Progress one is listed only when the customer has no Pending order, a Completed one only when it was placed today and nothing is open |
| PlaceOrder.ItemRows | Backend/placeOrder.py:42-47 | one OrderItems row per cart item, in order, carrying the new order id, the menu id, the quantity and the subtotal |
| PlaceOrder.Place | Backend/placeOrder.py:9-50 | 400 with no change exactly when table number or customer id is missing or 0, or the items are missing or empty; otherwise 201 with the next order id |
| PlaceOrder.PlacedOrderShape | Backend/placeOrder.py:23-47 | a placed order is new and Pending for that table and customer, its total is the sum of the subtotals, one item row per cart item is appended, the customer's rewards row (when there is one) counts one more order and no other rewards row changes, no existing order changes, and the id counter stays ahead of every id |
| ChefDashboard.FindById | SmartHotel/src/Screens/ChefDashboard.js:43-44 | the entry found has the id and is in the list; none is found exactly when no entry has the id |
| ChefDashboard.AdoptAll | SmartHotel/src/Screens/ChefDashboard.js:40-45 | each fetched order becomes one entry, in order |
| ChefDashboard.Reconcile | SmartHotel/src/Screens/ChefDashboard.js:35-52 | the merged list is the previously accepted entries in order, then one entry per fetched order |
| ChefDashboard.KeepAcceptedMembers | SmartHotel/src/Screens/ChefDashboard.js:38 | an entry survives the filter exactly when it was in the list and accepted |
| ChefDashboard.KeepAcceptedAppend | SmartHotel/src/Screens/ChefDashboard.js:38 | the accepted filter keeps list order (it distributes over concatenation) |
| ChefDashboard.ReconcileShape | SmartHotel/src/Screens/ChefDashboard.js:35-48 | the merged list is the old accepted entries, then every fetched order in server order with the server's `timeLeft` (10 when it has none) and the flags of the first earlier entry with its id |
| ChefDashboard.EmptyFetchKeepsAccepted | SmartHotel/src/Screens/ChefDashboard.js:50-52 | an empty reply keeps exactly the accepted entries, in order |
| ChefDashboard.MergeDuplicatesAccepted | SmartHotel/src/Screens/ChefDashboard.js:38-47 | an accepted order that the server still lists appears twice after the merge |
| ChefDashboard.PollForgetsLocalFlags | SmartHotel/src/Screens/ChefDashboard.js:30-48 | for a poll that does not overlap another, the clear at its start means the merge starts from an empty list, so the entries are exactly the fetched orders with no local flags |
| ChefDashboard.FailedPollEmptiesList | SmartHotel/src/Screens/ChefDashboard.js:30-56 | a failed poll leaves the list empty |
| ChefDashboard.Tick | SmartHotel/src/Screens/ChefDashboard.js:69-82 | one second applies the per-entry countdown to each entry and keeps the length |
| ChefDashboard.TickN | SmartHotel/src/Screens/ChefDashboard.js:69-82 | repeated ticks keep the length of the list |
| ChefDashboard.TickOnlyCountsDown | SmartHotel/src/Screens/ChefDashboard.js:71-78 | a tick changes only `timeLeft`, only on entries that are not accepted and have time left, by exactly one |
| ChefDashboard.TickNCountdown | SmartHotel/src/Screens/ChefDashboard.js:69-82 | after n ticks a countdown of c that is not accepted shows max(c - n, 0); accepted entries do not change |
| ChefDashboard.HandleAccept | SmartHotel/src/Screens/ChefDashboard.js:88-112 | only a 2xx reply with a message changes the list: the entries with that id become accepted, not completed, with no countdown, and the others stay |
| ChefDashboard.AcceptStopsCountdown | SmartHotel/src/Screens/ChefDashboard.js:97-103 | after a successful accept the entries with that id stop counting down, however many ticks follow |
| ChefDashboard.RejectRemovesId | SmartHotel/src/Screens/ChefDashboard.js:116-127 | any reject reply, whatever its body, removes every entry with that id and keeps the others |
| ChefDashboard.RejectKeepsOrder | SmartHotel/src/Screens/ChefDashboard.js:122 | the removal keeps list order (it distributes over concatenation) |
| ChefDashboard.HandleComplete | SmartHotel/src/Screens/ChefDashboard.js:130-145 | any reply marks the entries with that id completed; an exception changes nothing |
| ChefDashboard.FailedActionsChangeNothing | SmartHotel/src/Screens/ChefDashboard.js:105-144 | a failed accept, reject or complete leaves the list as it was |
| ChefDashboard.CompleteInvisible | SmartHotel/src/Screens/ChefDashboard.js:136-140 | completing changes only the local `completed` flag, which no card shows, so every card's controls stay the same; completing twice is completing once |
| ChefDashboard.ControlsExclusive | SmartHotel/src/Screens/ChefDashboard.js:184-215 | a card shows at most one group of controls (accept/reject, complete, or the completed label), and the countdown only alongside accept/reject |
| OrderItemScreen.FetchedOrders | SmartHotel/src/Screens/OrderItemScreen.js:65 | a reply body that is not an array counts as no orders |
| OrderItemScreen.NextTab | SmartHotel/src/Screens/OrderItemScreen.js:70-81 | the tab switches to the first order's status when that status is one of the three tabs, otherwise it stays; a valid tab stays valid |
| OrderItemScreen.Poll | SmartHotel/src/Screens/OrderItemScreen.js:46-90 | without a customer id nothing changes; an OK reply replaces the orders and clears the error; a non-OK reply clears the error; an exception sets the error message |
| OrderItemScreen.Shown | SmartHotel/src/Screens/OrderItemScreen.js:167 | the tab shows exactly the orders with the tab's status |
| OrderItemScreen.ShownAppend | SmartHotel/src/Screens/OrderItemScreen.js:167 | the tab filter keeps list order (it distributes over concatenation) |
| OrderItemScreen.ShownAll | SmartHotel/src/Screens/OrderItemScreen.js:167 | when every order has the tab's status the tab shows the whole list |
| OrderItemScreen.StyleOf | SmartHotel/src/Screens/OrderItemScreen.js:113-120 | In Progress and Completed have their own icons; a status naming a member every object inherits (`toString`, `constructor`, …) finds that member, so the icon and colour are undefined; every other status, unknown ones included, is drawn like Pending |
| OrderItemScreen.CardsOf | Backend/userOrderTracking.py:55-84 | the listing sends one card per order, with its id and the text of its status |
| OrderItemScreen.PollShowsEverything | SmartHotel/src/Screens/OrderItemScreen.js:65-81 | because the backend lists orders of one status and the screen switches to the first order's tab, the selected tab shows every order the backend sent |
| Cart.IdsOf | SmartHotel/src/Screens/HomeScreen.js:115 | the menu ids that have a line in the cart |
| Cart.FindIndex | SmartHotel/src/Screens/HomeScreen.js:115 | -1 exactly when no line has the id; otherwise the first line with it |
| Cart.AddToCart | SmartHotel/src/Screens/HomeScreen.js:113-123 | a dish already in the cart adds one to its first line and changes nothing else; a new dish is appended with quantity 1; the dish's id joins the cart's ids, and distinct ids and positive quantities are kept |
| Cart.ClearCart | SmartHotel/src/Screens/HomeScreen.js:125-127 | the emptied cart totals 0 and holds no dish |
| Cart.SearchFilter | SmartHotel/src/Screens/HomeScreen.js:86-95 | a blank query shows the whole menu, and the result is never longer than the menu |
| Cart.MatchingShape | SmartHotel/src/Screens/HomeScreen.js:88-93 | the search result keeps menu order and holds exactly the dishes whose name contains the query |
| Cart.SearchFilterSpec | SmartHotel/src/Screens/HomeScreen.js:86-95 | the search keeps menu order, and for a nonblank query holds exactly the dishes whose lower-cased name contains the lower-cased query |
| Cart.TotalAfterAdd | SmartHotel/src/Screens/HomeScreen.js:113-123 | adding a dish raises the cart total by exactly its price |
| Cart.BadgeAfterAdd | SmartHotel/src/Screens/HomeScreen.js:226 | the badge grows by one only for a dish not yet in the cart |
| Cart.BadgeCountsDishes | SmartHotel/src/Screens/HomeScreen.js:226 | with distinct menu ids the badge is the number of different dishes |
| Cart.Bump | SmartHotel/src/Screens/CartScreen.js:33-42 | the lines with the id change quantity by delta; all others stay |
| Cart.KeepPositive | SmartHotel/src/Screens/CartScreen.js:39-41 | every surviving line has a positive quantity and no line is added |
| Cart.UpdateQuantity | SmartHotel/src/Screens/CartScreen.js:31-46 | 'decrease' leaves only positive quantities; 'increase' keeps the lines and the dishes; any other action changes nothing |
| Cart.TotalAppend | SmartHotel/src/Screens/CartScreen.js:48 | a line appended adds its line total to the cart total |
| Cart.TotalUpdate | SmartHotel/src/Screens/CartScreen.js:48 | replacing a line changes the total by the difference of the line totals |
| Cart.TotalAfterBump | SmartHotel/src/Screens/CartScreen.js:33-42 | changing the matching lines by delta changes the total by delta times their prices |
| Cart.TotalKeepPositive | SmartHotel/src/Screens/CartScreen.js:39-41 | dropping lines of quantity 0 keeps the total |
| Cart.MatchingPriceOfDistinct | SmartHotel/src/Screens/CartScreen.js:33-42 | with distinct ids the lines matching a dish carry that one line's price, and a dish not in the cart none |
| Cart.TotalAfterUpdate | SmartHotel/src/Screens/CartScreen.js:31-48 | on a cart of distinct dishes and positive quantities, 'increase' raises the total by the dish's price and 'decrease' lowers it by the same |
| Cart.KeepPositiveOfPositive | SmartHotel/src/Screens/CartScreen.js:39-41 | filtering a cart whose quantities are all positive changes nothing |
| Cart.DecreaseUndoesIncrease | SmartHotel/src/Screens/CartScreen.js:31-46 | 'decrease' after 'increase' restores a cart of positive quantities |
| Cart.KeepPositiveShape | SmartHotel/src/Screens/CartScreen.js:37-42 | 'decrease' keeps the other lines in order and drops exactly the lines that reach zero |
| Cart.CartInvariant | SmartHotel/src/Screens/HomeScreen.js:113-123 | from a cart with distinct dishes and positive quantities (the empty cart among them), every sequence of additions and quantity changes keeps both |
| Cart.KeepPositiveDistinct | SmartHotel/src/Screens/CartScreen.js:39-41 | filtering lines keeps menu ids distinct |
| Cart.AddTwiceThenDecreaseTwice | SmartHotel/src/Screens/CartScreen.js:31-48 | a dish added twice is one line of quantity 2 at twice its price; two decreases empty the cart |
| Cart.AddToSingle | SmartHotel/src/Screens/HomeScreen.js:113-123 | adding the dish of a one-line cart raises that line's quantity by one and adds no line |
| Cart.DecreaseSingle | SmartHotel/src/Screens/CartScreen.js:37-42 | 'decrease' on a one-line cart lowers the quantity by one and drops the line when it reaches 0 |
| Cart.PayloadItems | SmartHotel/src/Screens/CartScreen.js:56-64 | one request item per cart line |
| Cart.OrderPayload | SmartHotel/src/Screens/CartScreen.js:51-64 | nothing is sent exactly when the table number is blank; otherwise the request carries the `parseInt` of the table number, customer 1, and per line the menu id, quantity and subtotal price × quantity |
| Cart.PayloadTotal | SmartHotel/src/Screens/CartScreen.js:48-64 | the request's subtotals add up to the cart total shown |
| Cart.AfterPlace | SmartHotel/src/Screens/CartScreen.js:74-91 | a 2xx reply clears the cart and the table number; a failure keeps both |
| Cart.Checkout | Backend/placeOrder.py:9-50 | a checkout is stored (201) exactly when the table number parses to a nonzero integer and the cart is not empty; the new order is Pending with the cart's total and the screen empties the cart; otherwise the server refuses and nothing changes on either side |
| Cart.OutcomeOf | SmartHotel/src/Screens/CartScreen.js:73-89 | the checkout succeeds exactly for a 2xx reply, whether or not the reply carries an order id |
| Cart.HexTablePayload | SmartHotel/src/Screens/CartScreen.js:56-57 | a table number typed as `0x` and hexadecimal digits is sent as its base-16 value |
| Cart.HexTableNumberPlaced | Backend/placeOrder.py:13-30 | so a table number such as `0x5` with a nonempty cart is stored (201) as table 5 |
| Cart.ReviewAllowed | SmartHotel/src/Screens/CartScreen.js:94-98 | a review is allowed exactly when the rating text is nonempty, the feedback is nonempty and the dish id is nonzero; the rating's value is not checked |
| Cart.ReviewRequest | SmartHotel/src/Screens/CartScreen.js:94-106 | a review request is built exactly when the guard allows it, and carries customer 1 named Ariz, the selected dish, the `parseInt` of the rating text and the feedback |
| Cart.RatingTextRoundTrip | SmartHotel/src/Screens/CartScreen.js:100-106 | a rating typed as the numeral of n is sent as n |
| Cart.GuardIgnoresRatingValue | SmartHotel/src/Screens/CartScreen.js:94-106 | a rating "abc" passes the guard and is sent as null; "9" passes and is sent as 9 |
| Loyalty.TierFor | Backend/customerLoyality.py:70-81 | the tier is the one whose threshold (Bronze 0, Silver 1000, Gold 2000, Platinum 3000 points) the points reach and whose next tier's threshold they do not |
| Loyalty.Earned | Backend/customerLoyality.py:36-44 | earned points are a non-negative multiple of 50, the points per completed order |
| Loyalty.Refreshed | Backend/customerLoyality.py:45-62 | a missing row, or one with fewer points than earned, is replaced by a fresh Bronze row with the earned points; otherwise the row is kept, so the points never fall |
| Loyalty.GetLoyalty | Backend/customerLoyality.py:10-147 | 401 without a session, 404 for an unknown user; otherwise the reply's points are at least the earned and the stored points, its tier and discount are the ones those points earn, the row is stored with them, and no other customer's row changes |
| Loyalty.RedeemSilver | Backend/customerLoyality.py:149-199 | 401 without a session, 404 without a row; 200 exactly for a Silver row with 15% not yet redeemed, which is then marked redeemed and logged; otherwise 403 and nothing changes |
| Loyalty.RedeemPlatinum | Backend/customerLoyality.py:201-247 | 401 without a session, 404 without a row; 200 exactly for a Platinum row with 50%, which is then reset to 0 points and Bronze with the lost points logged as negative; otherwise 403 |
| Loyalty.TierMonotone | Backend/customerLoyality.py:70-81 | more points never give a lower tier or a smaller discount |
| Loyalty.TierForIsHighestReached | Backend/customerLoyality.py:70-81 | the tier of p is the highest one whose threshold p reaches |
| Loyalty.GetPointsIsMax | Backend/customerLoyality.py:43-62 | the GET reports the stored points or the earned points, whichever is larger |
| Loyalty.GetLogsTierChange | Backend/customerLoyality.py:65-90 | a GET logs an activity exactly when the tier the points earn differs from the stored one |
| Loyalty.ToNextIsDistance | Backend/customerLoyality.py:110-132 | points to the next reward is the exact distance to the next tier, and 0 at Platinum |
| Loyalty.SilverRedeemOnce | Backend/customerLoyality.py:170-176 | a second Silver redemption is refused with 403 and changes nothing |
| Loyalty.SilverRedeemedSurvivesGet | Backend/customerLoyality.py:45-62 | a GET right after a Silver redemption still shows it redeemed while no new points were earned |
| Loyalty.PlatinumRedemptionUndoneByGet | Backend/customerLoyality.py:227-231 | the Platinum reset lasts only until the next GET: the completed orders still earn the points, so the customer is Platinum again and can redeem again |
| LoyaltyScreen.SilverEligible | SmartHotel/src/Screens/LoyaltyScreen.js:89-92 | the Silver request is sent exactly for the Silver tier with a 15% discount not yet redeemed |
| LoyaltyScreen.PlatinumEligible | SmartHotel/src/Screens/LoyaltyScreen.js:114-117 | the Platinum request is sent exactly for the Platinum tier with a 50% discount |
| LoyaltyScreen.TierTableAgrees | SmartHotel/src/Screens/LoyaltyScreen.js:138-143 | every entry of the displayed tier table names the tier, discount and threshold the backend gives the points in its range |
| LoyaltyScreen.ButtonsImplyEligible | SmartHotel/src/Screens/LoyaltyScreen.js:193-202 | a visible redeem button means its request will be sent |
| LoyaltyScreen.ButtonsAgreeWithServer | Backend/customerLoyality.py:170-176 | right after a GET, each redeem button is shown exactly when the server would grant that redemption |
| LoyaltyScreen.InitialOffersNothing | SmartHotel/src/Screens/LoyaltyScreen.js:21-32 | before the first GET answers, no redemption is offered |
| UpdateMenu.MatchesPrice | SmartHotel/src/Screens/UpdateMenu.js:133 | the price pattern holds exactly for digits, optionally with a dot and one or two more digits |
| UpdateMenu.PriceScanIff | SmartHotel/src/Screens/UpdateMenu.js:133 | the left-to-right scan agrees with the declarative reading of the pattern |
| UpdateMenu.ShapeGivesScan | SmartHotel/src/Screens/UpdateMenu.js:133 | whatever the declarative reading accepts, the scan accepts |
| UpdateMenu.ScanGivesShape | SmartHotel/src/Screens/UpdateMenu.js:133 | whatever the scan accepts, the declarative reading accepts |
| UpdateMenu.PriceCentsSplit | SmartHotel/src/Screens/UpdateMenu.js:133-136 | digits, a dot and one or two digits match the pattern; the value is the whole part times 100 plus the fraction read as hundredths |
| UpdateMenu.PriceOfWhole | SmartHotel/src/Screens/UpdateMenu.js:133-136 | digits alone match the pattern, with their value in whole units |
| UpdateMenu.CheckPriceOfClean | SmartHotel/src/Screens/UpdateMenu.js:130-140 | for text with no white space at either end, the price fails the pattern, is not positive, or passes, as the untrimmed text says |
| UpdateMenu.PricePositiveIff | SmartHotel/src/Screens/UpdateMenu.js:136-139 | a price matching the pattern is above 0 exactly when one of its digits is not '0' |
| UpdateMenu.CheckMenuId | SmartHotel/src/Screens/UpdateMenu.js:97-107 | the menu id is refused as not positive only when its trimmed text is all zeros |
| UpdateMenu.MenuIdCheckAgrees | SmartHotel/src/Screens/UpdateMenu.js:97-107 | the menu id passes exactly when its trimmed text is digits that are not all zeros |
| UpdateMenu.WordsCheckAgrees | SmartHotel/src/Screens/UpdateMenu.js:110-117 | name and category pass exactly when the trimmed text has at least 3 characters, all letters or spaces |
| UpdateMenu.DescriptionCheckAgrees | SmartHotel/src/Screens/UpdateMenu.js:120-127 | the description passes exactly when the trimmed text has at least 10 characters from letters, spaces and `, . !` |
| UpdateMenu.PriceCheckAgrees | SmartHotel/src/Screens/UpdateMenu.js:130-140 | the price passes exactly when the trimmed text matches the pattern and has a nonzero digit |
| UpdateMenu.UrlCheckAgrees | SmartHotel/src/Screens/UpdateMenu.js:153-158 | the image URL passes exactly when the trimmed text matches the http(s) pattern |
| UpdateMenu.Assemble | SmartHotel/src/Screens/UpdateMenu.js:93-158 | one check per field of the form, six in all |
| UpdateMenu.CollectEmptyIff | SmartHotel/src/Screens/UpdateMenu.js:160-165 | no error is collected exactly when every check passed |
| UpdateMenu.CollectMembers | SmartHotel/src/Screens/UpdateMenu.js:160-165 | the collected errors are exactly the failing checks |
| UpdateMenu.CollectOrdered | SmartHotel/src/Screens/UpdateMenu.js:160-165 | checks in field order give errors in field order |
| UpdateMenu.AssembleCollect | SmartHotel/src/Screens/UpdateMenu.js:93-165 | six checks give no error exactly when all six passed; the errors come in form order |
| UpdateMenu.ValidIffAllAcceptable | SmartHotel/src/Screens/UpdateMenu.js:93-166 | the form passes exactly when every field is acceptable; no check stops the others |
| UpdateMenu.ErrorsPerField | SmartHotel/src/Screens/UpdateMenu.js:93-166 | each failing field gives exactly one error naming it, in form order |
| UpdateMenu.PriceBoundaries | SmartHotel/src/Screens/UpdateMenu.js:130-140 | "10.99" and "10.5" pass; "10.999" and "-5" fail the pattern; "0" and "0.00" match it but are not positive |
| UpdateMenu.ChangeMenuId | SmartHotel/src/Screens/UpdateMenu.js:73-79 | the menu id is locked once an item was fetched; otherwise only the id changes |
| UpdateMenu.ResetForm | SmartHotel/src/Screens/UpdateMenu.js:82-90 | every field is cleared and the lock released |
| UpdateMenu.FetchMenuItem | SmartHotel/src/Screens/UpdateMenu.js:28-70 | a request is sent exactly when the menu id passes (otherwise nothing changes); a found record locks the id it was fetched under; any other outcome resets the form |
| UpdateMenu.UpdateRequestOf | SmartHotel/src/Screens/UpdateMenu.js:169-182 | a request is sent exactly when the form has no error; its path carries the menu id text as typed, whose trimmed form is a positive numeral; it also carries a positive price and the name, description, category and URL as typed |
| UpdateMenu.UpdateRequestPrice | SmartHotel/src/Screens/UpdateMenu.js:176-179 | the price sent is the value, in hundredths, of the price typed, read from its trimmed text |
| UpdateMenu.AcceptedValues | SmartHotel/src/Screens/UpdateMenu.js:93-166 | a form that passes has a positive menu id, a positive price, a name and category of at least 3 characters and a description of at least 10 |
| UpdateMenu.RequestFieldsPresent | SmartHotel/src/Screens/UpdateMenu.js:176-182 | a request the screen sends has a nonempty name and a positive price |
| UpdateMenu.AfterUpdate | SmartHotel/src/Screens/UpdateMenu.js:184-187 | the form is reset on status 200 and unchanged otherwise |
| MenuManagement.Add | Backend/MenuManagement.py:8-33 | 400 with no change exactly when the name or price is missing or empty; otherwise 200 and the row is inserted under the next id with the price as the column stores it, keeping ids below the counter |
| MenuManagement.Get | Backend/MenuManagement.py:37-55 | 404 exactly when the id is unknown; otherwise the row |
| MenuManagement.Update | Backend/MenuManagement.py:58-88 | 400 exactly when the name is missing or empty or the price missing or 0; 200 only for an existing row whose values change; an unknown id, or an update writing the values the row already has, gives 404 and no change |
| MenuManagement.Delete | Backend/MenuManagement.py:91-107 | 404 with no change exactly when the id is unknown; otherwise 200 and only that row goes |
| MenuManagement.AddThenGet | Backend/MenuManagement.py:8-55 | an added item is read back under the id the counter handed out, and no other item changes |
| MenuManagement.AddThenDelete | Backend/MenuManagement.py:8-107 | deleting what was just added restores the rows; a second delete answers 404 |
| MenuManagement.UpdateThenGetAndRepeat | Backend/MenuManagement.py:58-88 | a successful update is read back by a get; repeating it answers 404 because no row changes |
| MenuManagement.ScreenRequestsPassServerCheck | Backend/MenuManagement.py:58-69 | a request the update screen sends gets 200 or 404 from the server, never 400; an id typed without surrounding white space reaches the handler for the item it names |
| MenuManagement.StoredTextMeetsNumber | Backend/MenuManagement.py:22-25 | a whole number sent as add-form text is stored as the same value as that number sent as JSON by an update |
| MenuManagement.AddThenSameUpdate | Backend/MenuManagement.py:8-88 | an update writing back exactly what an add stored, with the price as a JSON number, changes nothing and answers 404 (400 for the falsy price 0) |
| MenuManagement.RouteId | Backend/MenuManagement.py:58 | the `<int:menu_id>` converter accepts exactly a nonempty run of digits |
| MenuManagement.RouteIdOfDecimal | Backend/MenuManagement.py:58 | the numeral of an id is routed to that id |
| MenuManagement.UpdateAt | Backend/MenuManagement.py:58-59 | a path segment the converter refuses gets 404 with no change; any other reaches the handler with its number |
| MenuManagement.ReceivedSegment | SmartHotel/src/Screens/UpdateMenu.js:176 | the segment the server matches is the id text with the blanks at its end removed, since the id ends the URL and the client drops them; nothing else is removed |
| MenuManagement.IdAtServer | SmartHotel/src/Screens/UpdateMenu.js:169-182 | an id the screen lets through reaches the handler for its trimmed value exactly when dropping the trailing blanks leaves the trimmed id; otherwise 404 and nothing written |
| MenuManagement.DigitsReachItem | Backend/MenuManagement.py:58-59 | an id sent as bare digits reaches the handler with its value |
| MenuManagement.DigitsSegmentIsTrim | SmartHotel/src/Screens/UpdateMenu.js:101-102 | a segment of digits left after the client is the id the screen checked |
| MenuManagement.PaddedIdMissesRoute | SmartHotel/src/Screens/UpdateMenu.js:97-103 | an id typed with white space in front passes the screen, which trims only for its check, and then reaches no route: 404 and nothing written |
| MenuManagement.PaddedSegmentMisses | Backend/MenuManagement.py:58 | a path segment that trimming changes is refused by the converter |
| MenuManagement.PaddedFive | SmartHotel/src/Screens/UpdateMenu.js:97-103 | " 5" passes the screen's id check and is refused by the route |
| MenuManagement.TrailingFive | SmartHotel/src/Screens/UpdateMenu.js:176 | "5 " passes the screen's id check and, its blank dropped by the client, reaches item 5 |
| Register.RegisterUser | Backend/register.py:16-56 | 400 exactly for a missing or empty field or a role other than Admin, Chef or Customer; 409 exactly for an email already used; otherwise 200 and one account is added under the next id with the password hashed |
| Register.RegisterKeepsEmailsUnique | Backend/register.py:38-51 | registration keeps emails unique, adds exactly one account on success and leaves every other account untouched |
| Register.SecondRegistrationConflicts | Backend/register.py:38-42 | registering the same email twice gets 409 the second time, whatever valid fields come with it |
| RegisterScreen.BlankIffTrimEmpty | SmartHotel/src/Screens/RegisterScreen.js:38-63 | a value is blank exactly when trimming leaves nothing |
| RegisterScreen.ValidateFieldRules | SmartHotel/src/Screens/RegisterScreen.js:34-63 | what each rule accepts: a nonblank email matching the pattern, a password of at least 6 UTF-16 code units, a role with a non-space character, exactly ten digits for the phone, a nonblank username of at least 3 code units; a key without a rule accepts everything |
| RegisterScreen.SetErrorsSpec | SmartHotel/src/Screens/RegisterScreen.js:66-67 | recording outcomes in turn gives each key its last outcome and keeps the entries of other keys |
| RegisterScreen.Every | SmartHotel/src/Screens/RegisterScreen.js:77-82 | `every` holds exactly when all flags hold |
| RegisterScreen.Judge | SmartHotel/src/Screens/RegisterScreen.js:77-82 | the verdict is whether every outcome's message is empty |
| RegisterScreen.JudgeFive | SmartHotel/src/Screens/RegisterScreen.js:77-82 | for the five form keys, each key gets its own message and the verdict is whether all five are empty |
| RegisterScreen.IsFormValid | SmartHotel/src/Screens/RegisterScreen.js:77-82 | the form is valid exactly when email, password, role and phone pass their rules; the error map gains exactly the five form keys |
| RegisterScreen.EmailPatternShape | SmartHotel/src/Screens/RegisterScreen.js:38-42 | the email pattern holds exactly for text with no white space and one '@', with something before it and a '.' with something on both sides after it |
| RegisterScreen.NameNeverValidated | SmartHotel/src/Screens/RegisterScreen.js:16-63 | the name key has no rule, so every name passes, including the empty one, and the name never changes the verdict |
| RegisterScreen.FormErrors | SmartHotel/src/Screens/RegisterScreen.js:66-82 | after the whole-form check each form key holds its rule's message and the "username" entry keeps its old value |
| RegisterScreen.RegisterRequest | SmartHotel/src/Screens/RegisterScreen.js:85-96 | the request is sent exactly when the whole-form check passes, carrying the five fields |
| RegisterScreen.EmptyNamePassesScreenNotServer | Backend/register.py:23-25 | a form with an empty name passes the screen but gets 400 from the server |
| EditProfile.ValidateFullName | SmartHotel/src/Screens/EditProfile.js:33-39 | the name passes exactly when it has at least two characters, all letters or spaces |
| EditProfile.ValidatePhone | SmartHotel/src/Screens/EditProfile.js:41-47 | the phone passes exactly when it is ten digits |
| EditProfile.ValidateForm | SmartHotel/src/Screens/EditProfile.js:49-54 | the form passes exactly when both fields pass, and both messages are recorded |
| EditProfile.OnNameChange | SmartHotel/src/Screens/EditProfile.js:213-216 | typing a name clears the name message exactly when the name passes, and leaves the phone message alone |
| EditProfile.OnPhoneChange | SmartHotel/src/Screens/EditProfile.js:226-229 | typing a phone clears the phone message exactly when it is ten digits, and leaves the name message alone |
| EditProfile.ImageUri | SmartHotel/src/Screens/EditProfile.js:183-188 | a local file is shown as is, a stored path behind the server's address, and the default picture when there is none |
| EditProfile.UpdateRequest | SmartHotel/src/Screens/EditProfile.js:109-128 | a request is sent exactly when both fields pass; it carries the id, name and phone, and an image part named `profile_<id>.jpg` exactly for a local file |
| EditProfile.ReplyField | Backend/editprofile.py:139-151 | the reply's user object has only name, email, phone and Image_URL |
| EditProfile.StoredImageIsLocal | SmartHotel/src/Screens/EditProfile.js:142-149 | the reply has no `profileImage` field, so the screen stores its own image |
| EditProfile.AttachmentAllowed | SmartHotel/src/Screens/EditProfile.js:122-128 | the upload's file name always has an allowed extension |
| EditProfile.ScreenFieldsPassServer | Backend/editprofile.py:61-71 | a phone the screen accepts passes the server's phone check, and a name it accepts that has two letters passes the server's length check |
| EditProfile.BlankNamePassesScreenNotServer | Backend/editprofile.py:61-65 | a name of two spaces passes the screen but the server strips it and refuses, and the refusal reaches the screen as 500 |
| EditProfile.TypingThenSubmitting | SmartHotel/src/Screens/EditProfile.js:49-54 | typing both fields in turn gives the same messages as the whole-form check |
| ProfileApi.LastDot | Backend/editprofile.py:18-19 | the position of a '.' with no '.' after it, or none exactly when the name has no '.' |
| ProfileApi.AllowedFileIff | Backend/editprofile.py:18-19 | a file is allowed exactly when the text after its last dot, lower-cased, is png, jpg or jpeg |
| ProfileApi.ExtensionDecides | Backend/editprofile.py:18-19 | for `stem.ext` with a dot-free extension, that extension alone decides |
| ProfileApi.AllowedFileExamples | Backend/editprofile.py:9-19 | "cat.gif", "jpg" with no dot and "photo.png.exe" are refused; "photo.JPG" is allowed |
| ProfileApi.PyInt | Backend/editprofile.py:53-59 | `int()` on a text field gives a signed decimal value of a digit string |
| ProfileApi.PyIntIff | Backend/editprofile.py:53-59 | `int()` succeeds exactly on stripped text of digits with an optional sign |
| ProfileApi.Slashes | Backend/editprofile.py:132-137 | every backslash becomes '/', and every other character stays |
| ProfileApi.NormalisePath | Backend/editprofile.py:132-137 | the URL starts with '/', has no backslash, and is the slash-converted path with at most a '/' put in front |
| ProfileApi.NormaliseIdempotent | Backend/editprofile.py:132-137 | normalising twice is normalising once |
| ProfileApi.ViewOf | Backend/editprofile.py:139-151 | the reply has an image URL exactly when the row has a nonempty image path, and then it is the normalised path |
| ProfileApi.ProfileBody | Backend/editprofile.py:27-151 | the handler's body returns 400 exactly for a missing field, a file with a refused extension, a non-integer id, a stripped name under 2 characters or a phone that is not ten digits, and exactly then it has not opened a cursor |
| ProfileApi.Finally | Backend/editprofile.py:22-24 | a body that returned without opening a cursor ends in 500, since its `finally` clause closes the `None` bound at the start; any other reply passes unchanged |
| ProfileApi.RefusalsBecome500 | Backend/editprofile.py:156-160 | every 400 of the body reaches the client as 500, every other reply unchanged; the endpoint never answers 400 |
| ProfileApi.UpdateProfile | Backend/editprofile.py:22-160 | 500 exactly for a missing field, a file with a refused extension, a non-integer id, a stripped name under 2 characters or a phone that is not ten digits; 404 exactly for an unknown id; the upload is saved exactly when the fields are present and its extension is allowed; otherwise 200, only that row's name, phone and image change, and the reply shows the new row |
| ProfileApi.ImageColumnOnlyOnUpload | Backend/editprofile.py:96-109 | the image column changes only on an upload; no other user changes |
| ProfileApi.BadIdStillSaves | Backend/editprofile.py:39-59 | when the fields are present and an allowed image came with the request, an id that is not an integer gives 500 and the upload is still saved |
| ProfileApi.UploadSavedThoughRefused | Backend/editprofile.py:39-59 | the file is saved before the id is read, so the id "x" with any .png upload is refused with 500 yet the upload is saved, whatever the name and phone |
| ProfileApi.ReplyImageNormalised | Backend/editprofile.py:132-151 | the image URL in a successful reply starts with '/' and has no backslash |
| PasswordReset.OtpOf | Backend/ForgotPassword.py:90-91 | the OTP is five decimal digits, one per draw |
| PasswordReset.RequestOtp | Backend/ForgotPassword.py:59-101 | 400 without an email or an account with it; otherwise the OTP and email are stored, and the answer is 200 or 500 by whether the mail went out |
| PasswordReset.VerifyOtp | Backend/ForgotPassword.py:103-124 | 200 exactly when a nonempty OTP matches the pending one, which is then cleared; otherwise 400 and nothing changes |
| PasswordReset.Addressed | Backend/ForgotPassword.py:147-148 | the accounts with the stored email; none when no email is stored |
| PasswordReset.UpdatePassword | Backend/ForgotPassword.py:127-163 | 400 for a missing password or one under 8 characters; otherwise the addressed accounts get the new hash, and 404 when none changed |
| PasswordReset.OtpSingleUse | Backend/ForgotPassword.py:117-119 | a verified OTP is refused the second time |
| PasswordReset.WrongGuessKeepsOtp | Backend/ForgotPassword.py:117-121 | a wrong guess leaves the OTP pending, so the right one still works |
| PasswordReset.OtpKeptWhenMailFails | Backend/ForgotPassword.py:87-96 | when sending fails the answer is 500, yet the stored OTP verifies |
| PasswordReset.NewOtpReplacesOld | Backend/ForgotPassword.py:87-91 | a new request replaces the pending OTP |
| PasswordReset.UpdateWithoutVerifying | Backend/ForgotPassword.py:127-160 | the update does not ask whether the OTP was verified: right after a request, a long enough password is set |
| PasswordReset.UpdateBeforeRequest | Backend/ForgotPassword.py:147-155 | before any request no email is stored, so a valid password changes nothing and gets 404 |
| SetNewPassword.HandleUpdatePassword | SmartHotel/src/Screens/SetNewPasswordScreen.js:13-37 | in order: an empty field, then a mismatch, then under 8 UTF-16 code units; only a matching long enough password is sent |
| SetNewPassword.ErrorMessage | SmartHotel/src/Screens/SetNewPasswordScreen.js:42-50 | "User not found" is replaced by a friendlier text, another error is shown as is, and no error gives a default |
| SetNewPassword.MessageForEachRefusal | Backend/ForgotPassword.py:135-155 | for the server's 404 the screen shows the friendlier text; for its 400 it shows the server's own words for a missing or short password |
| SetNewPassword.SentPasswordPassesServer | Backend/ForgotPassword.py:138-139 | a password the screen sends passes the server's length check when it has no character outside the Basic Multilingual Plane |
| SetNewPassword.EmojiPasswordPassesScreenNotServer | SmartHotel/src/Screens/SetNewPasswordScreen.js:23-26 | four emoji pass the screen's UTF-16 length check and fail the server's character count |
| SetNewPassword.ChecksInOrder | SmartHotel/src/Screens/SetNewPasswordScreen.js:13-26 | an empty field is reported even when the fields differ, and a mismatch even when the password is short |
| Reviews.AsInt | Backend/sentiment.py:79-81 | `isinstance(x, int)` holds for integers and booleans, with true as 1 |
| Reviews.ChosenMenuId | Backend/sentiment.py:71 | `menu_id` when it is truthy, else `food_id` |
| Reviews.SentimentOf | Backend/sentiment.py:93-107 | "unknown" without a prediction, else the prediction lower-cased |
| Reviews.NameOrAnonymous | Backend/sentiment.py:125-131 | the customer name when truthy, else "Anonymous" |
| Reviews.SubmitReview | Backend/sentiment.py:65-151 | 400 exactly when the request is refused by the checks in order; 404 when the dish is unknown; otherwise 201 and one row is appended with the next id and the sentiment label |
| Reviews.Fetched | Backend/sentiment.py:52-54 | a fetched row keeps every field, with a nonempty sentiment lower-cased |
| Reviews.FetchedIsLower | Backend/sentiment.py:52-54 | a fetched label is lower-case |
| Reviews.GetReviews | Backend/sentiment.py:31-59 | only rows of the dish, none for an unknown dish, every label lower-case |
| Reviews.GetReviewsMembers | Backend/sentiment.py:40-54 | a dish's list holds each of its reviews as fetched, and nothing else |
| Reviews.NewestFirst | Backend/sentiment.py:40-47 | a row appended for the dish heads its list |
| Reviews.SubmittedComesFirst | Backend/sentiment.py:125-131 | a review just submitted comes first in its dish's list, with the label it was stored with |
| Reviews.MenuIdChoice | Backend/sentiment.py:71-81 | a falsy `menu_id` falls back to `food_id`, true counts as 1, and a text id or no id is refused |
| Reviews.RatingChecks | Backend/sentiment.py:82-91 | a missing rating or empty feedback is refused before the range check; true passes as rating 1; 6 is refused |
| DetailsScreen.StartFetch | SmartHotel/src/Screens/DetailsScreen.js:37-46 | the fetch is sent exactly for a logged-in user and a nonzero numeric dish id; otherwise the matching error is shown |
| DetailsScreen.SentimentTag | SmartHotel/src/Screens/DetailsScreen.js:54-62 | a review's label is its sentiment lower-cased, or "unknown" |
| DetailsScreen.SentimentMap | SmartHotel/src/Screens/DetailsScreen.js:54-62 | the map has exactly the fetched review ids, each with a lower-case label |
| DetailsScreen.SentimentMapLabels | SmartHotel/src/Screens/DetailsScreen.js:54-62 | with distinct ids, each id is labelled from its own review |
| DetailsScreen.ShownSentiment | SmartHotel/src/Screens/DetailsScreen.js:244 | the card shows the recorded label, or "unknown" when it has none |
| DetailsScreen.SentimentColour | SmartHotel/src/Screens/DetailsScreen.js:260-265 | green exactly for "positive", red exactly for "negative" |
| DetailsScreen.Payload | SmartHotel/src/Screens/DetailsScreen.js:92-97 | the body carries rating, feedback and name, never `menu_id`, and `food_id` exactly when the dish id is defined |
| DetailsScreen.StartSubmit | SmartHotel/src/Screens/DetailsScreen.js:78-97 | in order: login, then rating, then nonblank feedback; only then is the body posted |
| DetailsScreen.AfterSubmit | SmartHotel/src/Screens/DetailsScreen.js:105-117 | the new review goes first, its label is recorded without touching others, and the form is cleared |
| DetailsScreen.RenderStars | SmartHotel/src/Screens/DetailsScreen.js:141-159 | five stars |
| DetailsScreen.StarsShowRating | SmartHotel/src/Screens/DetailsScreen.js:141-159 | the filled stars number the rating clamped to 0..5, and no filled star follows an empty one |
| DetailsScreen.LabelsIgnoreServerLowering | Backend/sentiment.py:52-54 | the server's lower-casing does not change the screen's labels |
| DetailsScreen.PostedReviewAccepted | Backend/sentiment.py:65-131 | a review the screen posts for a numeric dish id passes every server check and is stored exactly when the dish exists, otherwise 404 |
| DetailsScreen.NumericPayloadPasses | Backend/sentiment.py:70-90 | the payload for a numeric dish id, a rating of 1 to 5 and non-empty feedback passes the server's checks and names that dish |
| DetailsScreen.TextIdRefused | Backend/sentiment.py:76-81 | a dish id that is text reaches the server as a string and is refused |
| Common.TrimEmptyIff | SmartHotel/src/Screens/HomeScreen.js:87 | trimming leaves nothing exactly when every character is white space |
| Common.TrimIdempotent | SmartHotel/src/Screens/UpdateMenu.js:97-158 | trimming twice is trimming once |
| Common.JsLength | SmartHotel/src/Screens/SetNewPasswordScreen.js:23-26 | JavaScript's length is at least the number of characters, and equal to it when no character lies outside the Basic Multilingual Plane |
| Common.LowerIdempotent | Backend/sentiment.py:52-54 | lower-casing twice is lower-casing once |
| Common.DigitsValueZeroIff | SmartHotel/src/Screens/UpdateMenu.js:101-106 | a digit string is 0 exactly when every digit is '0' |
| Common.DigitPrefixOf | SmartHotel/src/Screens/UpdateMenu.js:101-106 | the digit run of digits followed by a non-digit is exactly those digits |
| Common.DecimalText | SmartHotel/src/Screens/CartScreen.js:104 | the numeral of n is a nonempty digit string with value n and no leading zero |
| Common.Magnitude | SmartHotel/src/Screens/CartScreen.js:57 | after a `0x`/`0X` prefix the longest hexadecimal run is read in base 16, otherwise the longest decimal run in base 10; NaN when that run is empty |
| Common.ReadSigned | SmartHotel/src/Screens/CartScreen.js:57 | a leading '-' negates the magnitude, a '+' is skipped, and NaN stays NaN |
| Common.ParseIntOfDecimal | SmartHotel/src/Screens/CartScreen.js:57 | `parseInt` reads back the numeral of any n, with or without a minus sign |
| Common.ParseIntOfHex | SmartHotel/src/Screens/CartScreen.js:57 | a `0x` or `0X` prefix and hexadecimal digits, with or without a minus sign, give their base-16 value, and NaN with no digit |
| Common.ParseIntSkipsSpace | SmartHotel/src/Screens/CartScreen.js:57 | leading white space never changes what `parseInt` reads |
| Common.ParseIntHexExamples | SmartHotel/src/Screens/CartScreen.js:57 | `0x5` is 5, `-0x1A` is -26 and `0x` is NaN |

## Left out

- Rendering, navigation, styles, alerts and animations of the screens are left out; only the state updates and the requests they lead to are modelled.
- HTTP transport, AsyncStorage, timers, the Flask session and the database connection are not modelled. Their results become parameters. The 500 replies for a failed connection or an exception in a query are left out; the profile endpoint's 500 from its `finally` clause is modelled.
- Password hashing (bcrypt), sending mail (SMTP), the sentiment model (joblib), uuids and `random` are parameters: their results are arbitrary inputs.
- Prices are integers in hundredths rather than floats; floating-point rounding is not modelled.
- Lower-casing covers the ASCII letters only; Unicode case mapping is not modelled.
- Python's `int()` is modelled on ASCII digits with an optional sign. Underscores between digits and non-ASCII decimal digits are not accepted.
- UpdateMenu: the length checks count characters where JavaScript counts UTF-16 code units. The two agree for characters of the Basic Multilingual Plane.
- Reviews.GetReviews: `ORDER BY created_at DESC` is modelled as newest-insertion-first. Reviews stamped in the same second may come back in another order.
- Cart.AddToCart: the source increments the quantity of the previous cart's line object in place. The model builds a new line, which matches what React renders.
- ChefDashboard.Reconcile: the server never sends a `timeLeft`, so a fetched order always starts from the default 10 seconds.
- OrderItemScreen.Poll: only the state changes are modelled; the alert dialogs are not.
- ChefDashboard.Poll: a poll is modelled as one atomic step, the clear and then the merge of its reply. Two polls whose requests overlap, or an accept reply that lands between a clear and the merge, are not modelled.
- ChefDashboard.PollForgetsLocalFlags: holds for polls that do not overlap, as `ChefDashboard.Poll` models them. When a slow reply is merged after the next poll has cleared the list, flags set in between can survive.
- Register.RegisterUser: emails are compared exactly. MySQL's default collation compares text without regard to case or accents, so on the real server an email differing only in case is already taken, while the model accepts it.
- Register.EmailTaken: compares emails exactly rather than by the database collation, for the reason above.
- PasswordReset.RequestOtp: finds the account by exact email. The database collation would also match an email differing only in case.
- PasswordReset.HasAccount: exact comparison, as for `PasswordReset.RequestOtp`.
- PasswordReset.Addressed: the accounts with exactly the stored email. The real `UPDATE … WHERE email = %s` also updates accounts whose email differs only in case.
- UpdateMenu.UrlCheckAgrees: the pattern is matched on characters, while JavaScript matches a regex without the `u` flag on UTF-16 code units. So `https://` followed by one character outside the Basic Multilingual Plane passes the real check, because its two code units fill the two leading positions, but fails in the model.
- UpdateMenu.MatchesUrl: matches on characters rather than code units, as for `UpdateMenu.UrlCheckAgrees`.
- ProfileApi.UpdateProfile: the phone check is modelled with ASCII digits. Python's `str.isdigit` also accepts other Unicode digits, such as Devanagari or superscript digits, which the real server lets through.
- ProfileApi.Finally: closing an already closed cursor or connection is taken to be harmless, as it is in `mysql.connector`. So the 200 and 404 replies, which close both before the `finally` clause, pass unchanged.
- Common.ReadSigned: the value read is an exact integer. JavaScript's number loses precision above 2^53, and a run of more than about 309 decimal digits gives Infinity.
- Cart.ReviewRequest: the cart screen posts its review to `/api/reviews`. The backend routes reviews under `/reviews` only, so the reply to this request is not modelled and the request is not linked to `Reviews.SubmitReview`.
- MenuManagement.Add: the schema of the `Menu` table is not part of this model; the price column is taken to be a number with two decimals. Only form text matching the update screen's price pattern is read as a number. MySQL also converts text with a sign, surrounding spaces, an exponent or more decimals (rounding those), and in strict mode refuses other text with a 500, where the model stores the text unread.
- MenuManagement.RouteId: Werkzeug's `\d` also matches non-ASCII decimal digits, which the model's route refuses. The update screen never sends them, because its own check wants ASCII digits after trimming.
- MenuManagement.ReceivedSegment: follows React Native's Android client, whose URL parser (OkHttp) drops tab, line feed, form feed, carriage return and space from the end of the URL and percent-encodes other white space. The iOS client's handling of white space in a URL is not modelled.
- MenuManagement.PaddedIdMissesRoute: covers white space in front of the id only. Trailing white space other than the blanks the client drops also reaches no route, as `MenuManagement.IdAtServer` states.
- UserOrderTracking.CustomerOrders: takes the customer id as the integer the database compares the form text equal to, not the text itself; how that text becomes a number is the line below.
- UserOrderTracking.CustomerOrdersForm: the queries bind the form text to the integer `customer_id` column, and MySQL converts the text to a number to compare, so "7abc" compares equal to 7 and "abc" to 0. That conversion is the parameter `asCustomer`; it is not modelled.
- Other code is not modelled:
  - the `predict` and `delete_review` routes of sentiment.py;
  - the menu listing;
  - the customer-detail fetch and the user-name fetch of the screens;
  - the image picker;
  - the loyalty screen's progress bar and activity list;
  - the list of recent loyalty activities in the GET reply.
