# Order pipeline of a Telegram restaurant-ordering platform, in Dafny

Branch users of a restaurant register through a Telegram web app. They fill
a cart in the browser and post it as an order. The server stores the order
and its lines, and staff move orders through their statuses in an admin
screen. A separate script cleans up company names taken from a spreadsheet.
This project models the bookkeeping of that pipeline and proves what it
promises.

Modules:

- `Common` (common.dfy): the `Option` type and the first-hit table scan `FirstWhere`.
- `Text` (text.dfy): the string operations the code relies on.
  - Python `str.strip()` and JavaScript `trim()`, each with its own set of
    blanks.
  - Decimal numerals, with the round trip `ParseNat(NatToString(n)) == Some(n)`.
  - `parseInt` on a numeral prefix.
  - JavaScript `split` with a one-character separator, and its inverse `Join`.
  - Python `str.replace`.
- `Models` (models.dfy): the tables (shops, clients, products, orders,
  order items) as fields of a class `Db`, with the order aggregate's own
  operations.
  - Creating an order.
  - Saving an item: snapshot the price, set `summary`, recompute the
    order's total.
  - Deleting an item.
  - A corrected save that also recomputes the order a moved item left (see Findings).
  - `update_total_price`.
  - The invariant "every order's `total_price` is the sum of its items'
    `summary`" (`Db.TotalsConsistent`). Creating an order, deleting an
    item, the corrected save, the `create_order` view, the admin status
    actions and client registration keep it whenever it held before.
    `SaveItem` keeps
    it only when the row stays in its order, and `SaveOrder` only when the
    total written is that sum.
- `OrderViews` (order_views.dfy): the `create_order` endpoint as a method
  over `Db`.
  - Client lookup, order creation and the item loop, in request order.
  - The 404/405/500 error paths, and the partial order that stays stored
    when a product is missing.
- `OrderAdmin` (order_admin.dfy): the order admin screen.
  - The three bulk status actions and their messages.
  - The role-dependent read-only fields, inlines and permissions.
  - The two display columns.
- `ClientViews` (client_views.dfy): branch registration
  (`SaveClientView.post`).
  - The checks run in a fixed order.
  - `get_or_create` on the stripped shop name.
  - A shop created for a form the serializer then rejects stays stored.
- `Cart` (cart.dfy): the cart object shared by both browser scripts, as a
  class `ShoppingCart`.
  - Keys in ascending numeric order, as JavaScript enumerates integer-like
    keys, and the counts.
  - The badge count, the cart total and the category filter.
- `AppJs` (app_js.dfy): the ordering page (static/js/app.js).
  - Guarded `changeQty` and the `renderCart` total.
  - `checkout` and the payload it posts, with a proof that the server stores
    exactly the lines and the total the browser computed.
  - `getCookie`.
- `HomePage` (home_page.dfy): the stand-alone page
  (static/core/js/home_page.js).
  - The fixed six-product catalog and the unguarded `changeQty`.
  - The cart total, at least 12000 per unit.
  - The confirmed checkout and each category filter.
- `CompanyNames` (company_names.dfy): sample.py.
  - `clean_text_basic`: both regular-expression substitutions, the
    "Logistics" replacement and the final strip.
  - `get_standard_mapping`, with the fuzzy matcher as a parameter.

Money is an integer. `Product.price` has no decimal places, so order totals
are exact sums. Clock readings (`timezone.now()`), the serializer's verdict,
the user's answer to a confirmation, the server's answer to the browser,
`decodeURIComponent` and the fuzzy matcher are all parameters.

## Model

| member | source | states |
|---|---|---|
| `Models.Db.CreateOrder` | order/models.py:16-25 | A new order gets the next key, status `Created` and total 0, and no item refers to it yet. Nothing else in the database changes, and the totals invariant is kept. |
| `Models.Db.SaveItem` | order/models.py:66-77 | The stored price is the given one, or the product's current price when none was given. `summary == price * quantity`. A new row is appended with the next key; an existing row is replaced in place. The order's total becomes the sum of its items' summaries; only that order's total changes. The global invariant is kept when the item stays in its order. |
| `Models.MoveLeavesOldTotalStale` | order/models.py:74-77 | A save that moves a stored row with a non-zero summary to another order, recomputing only the new order as `save()` does, leaves the old order's stored total different from the sum of its items. |
| `Models.Db.SaveItemBothTotals` | order/models.py:66-77 | The save with the same price, summary and row as `save()`, which also recomputes the order a moved row left. Only the totals of the row's order and of the order it left change, and both end consistent. It keeps the totals invariant for every save, moved row or not. |
| `Models.Db.ResaveItem` | order/models.py:74-77 | Overwrites a stored row, then recomputes the order it is in and the order it was in. Only those two orders' totals change; every other order and column stays as it was. Both recomputed orders end consistent, and the totals invariant is kept. |
| `Models.Db.AppendItem` | order/models.py:74 | An unsaved row is appended with the next key; the other tables are untouched and no other order's item sum changes. |
| `Models.Db.ReplaceItem` | order/models.py:74 | A row saved under an existing key overwrites that row in place; only the sums of its old and its new order can change. |
| `Models.ResaveKeepsSnapshot` | order/models.py:68-69 | Re-saving a loaded row keeps its snapshot price, whatever the product costs now. |
| `Models.Db.UpdateTotalPrice` | order/models.py:32-37 | Writes the sum of the order's item summaries into that order's `total_price` only, and returns it. A second call with no item change leaves every order as it was (idempotent). If every other order was consistent, all are afterwards. |
| `Models.SumSummaries` | order/models.py:34 | The running sum over the rows equals the summaries of that order's items, whatever other orders' rows are mixed in. |
| `Models.Db.DeleteItem` | order/models.py:79-83 | Removes the row with that key. The owning order's total drops by exactly the removed item's summary, and the totals invariant is kept. |
| `Models.Db.RemoveItem` | order/models.py:82 | The row at that position is deleted with every other row kept in order; every order's item sum loses exactly that row's contribution, and the other tables are untouched. |
| `Models.Db.SaveOrder` | order/views.py:89-90 | `new_order.save()` writes the row as given; the invariant is kept when the written total is the items' sum. |
| `Models.ItemsTotalAppend` | order/models.py:34 | The sum over a concatenation of item lists is the sum of the two sums. |
| `Models.ItemsTotalRemove` | order/models.py:79-83 | Removing one item takes exactly its contribution off each order's sum. |
| `Models.ItemsTotalReplace` | order/models.py:72-77 | Replacing one item swaps its contribution for the new one's. |
| `Models.ItemsTotalNone` | order/models.py:19-25 | An order that no item refers to sums to zero, which agrees with its default total of 0. |
| `OrderViews.MatchingClients` | order/views.py:57-60 | Exactly the clients with the given chat id are kept, and a missing id matches no client. |
| `OrderViews.MatchingClientsCount` | order/views.py:57 | Each matching row is kept as often as it occurs and no other row is, so the filter fixes how many rows match. |
| `OrderViews.MatchingClientsAppend` | order/views.py:57 | The filter keeps table order: the matches of two stretches of the table come one after the other. |
| `OrderViews.NoMatchingClient` | order/views.py:57-59 | When no row carries the chat id, nothing matches, and the handler answers 404. |
| `OrderViews.OneMatchingClient` | order/views.py:57 | When exactly one row carries the chat id, that client is the one match the handler uses. |
| `OrderViews.LinesSnoc` | order/views.py:73-84 | One more item that does not raise appends its own line (none for a quantity of 0 or less) to the lines stored so far. |
| `OrderViews.LinesStop` | order/views.py:73-74 | The first item whose product is missing ends the stored lines; nothing after it is stored. |
| `OrderViews.LinesTotalAppend` | order/views.py:85 | The accumulated total over concatenated lines is the sum of the two totals. |
| `OrderViews.StoreLine` | order/views.py:79-85 | One `OrderItem.objects.create` at the product's price appends one row to the order, adds price × quantity to the running total, keeps the order's total column equal to it, and keeps the invariant. |
| `OrderViews.StoreItem` | order/views.py:74-85 | One pass over an item whose product exists: a quantity of 0 or less stores nothing, any other stores its line, so the stored lines become those of one more request item. |
| `OrderViews.StoreItems` | order/views.py:73-85 | The loop stores exactly `Lines(items)`, in request order, and returns their total, which the order's total column and its items' sum both equal. It reports success exactly when no item raises. |
| `OrderViews.FillOrder` | order/views.py:73-90 | After the loop and the final save, the new order's total is the sum of the stored lines, which equals its items' sum. The answer is success exactly when no item raised. |
| `OrderViews.PlaceOrder` | order/views.py:63-90 | Creates the order for the client and the client's shop, with comment "Yo'q" when none is sent. Its final total is the sum of the stored lines, whatever total the browser sent. The answer is 200 with the new id, or 500 after a raising item, in which case the earlier rows stay stored. |
| `OrderViews.CreateOrderView` | order/views.py:49-124 | A method other than POST gives 405 and a body that is not JSON gives 500, both with nothing changed. No client with the chat id gives 404 and several give 500, again with nothing created. Exactly one client gives the order `PlaceOrder` describes. The totals invariant holds afterwards on every path. |
| `OrderAdmin.Marked` | order/admin.py:112-137 | Every selected stored order gets the action's status and `now` in its timestamp, with no check of the previous status: confirm writes `confirmed_at`, deliver and cancel write `delivered_at`. All other columns and all unselected rows keep their values, and no row is added or removed. |
| `OrderAdmin.RunAction` | order/admin.py:115-118 | The orders table becomes `Marked(...)`. Items and all other tables are untouched, the totals invariant is kept, and the returned count is the number of selected stored orders. |
| `OrderAdmin.MarkedIgnoresStatus` | order/admin.py:113-118 | The row an action leaves does not depend on the status the order had before. |
| `OrderAdmin.ApplyIgnoresStatus` | order/admin.py:113-118 | An action overwrites the status, so one order's row after it does not depend on its status before. |
| `OrderAdmin.MarkedIdempotent` | order/admin.py:130-136 | Running an action twice at the same instant is the same as running it once. |
| `OrderAdmin.UpdatedCountOfStored` | order/admin.py:115 | When every selected key is a stored order, the reported count is the size of the selection. |
| `OrderAdmin.ActionSentence` | order/admin.py:119 | Each action's sentence starts with a blank, so it is separated from the count. |
| `OrderAdmin.ActionMessageCount` | order/admin.py:128 | The count can be read back from the leading digits of the message. |
| `OrderAdmin.Without` | order/admin.py:75 | The list without `status`: exactly the other elements, and never longer. |
| `OrderAdmin.WithoutAppend` | order/admin.py:71-75 | Filtering commutes with `extend`, so the kept fields stay in fieldset order. |
| `OrderAdmin.WithoutAbsent` | order/admin.py:75 | A list without `status` is returned unchanged. |
| `OrderAdmin.GetReadonlyFields` | order/admin.py:67-76 | A superuser gets exactly `readonly_fields`. Anyone else gets every fieldset field, in fieldset order, except `status`. |
| `OrderAdmin.StaffEditsOnlyStatus` | order/admin.py:57-63 | For the order form, the staff list is the other seven fields in form order, and the only field missing from it is `status`. |
| `OrderAdmin.OrderFormFields` | order/admin.py:59-63 | The order form lists shop, client, status and comment, then total_price, then the three timestamps. |
| `OrderAdmin.RolePermissions` | order/admin.py:78-90 | Staff get no item inline, no add and no delete permission, and do not see the item screen (line 144-146). A superuser gets all four. |
| `OrderAdmin.IdDisplay` | order/admin.py:93-94 | The column is "#" followed by a numeral that reads back as the id. |
| `OrderAdmin.IdDisplayInjective` | order/admin.py:93-94 | Different orders are displayed differently. |
| `OrderAdmin.GetFilial` | order/admin.py:98-99 | For an order whose client is stored (the non-null foreign key with cascading delete) and a clients table with unique keys, the column shows that client's branch name. |
| `ClientViews.SaveClientView` | client/views.py:20-62 | The checks run in this order, each changing nothing: a falsy chat id gives 400 on `telegram_id`, a falsy shop name gives 400 on `shop_name`, a registered chat id gives 409. Otherwise the shop with the stripped name is fetched or created. A valid form then appends one client of that shop and gives 201 with the shop's id. An invalid form gives 400 and the shop stays created. |
| `ClientViews.GetOrCreateShop` | client/views.py:48-50 | Returns the stored shop with that name, or appends one new shop with the next key. No other table changes, and shop names stay unique (client/models.py:5). |
| `ClientViews.ClientExists` | client/views.py:37 | The scan finds a client exactly when some stored client has the chat id. |
| `ClientViews.SaveClient` | client/views.py:55-56 | `serializer.save(shop=shop)` appends one client of that shop, with the next key and the form's columns; nothing else changes. |
| `ClientViews.FindShop` | client/views.py:48-50 | The index of a shop with that name, or `None` exactly when no shop has it. |
| `ClientViews.GetOrCreateIdempotent` | client/views.py:48-50 | A second `get_or_create` with the same name finds the first one's shop and adds nothing. |
| `ClientViews.GetOrCreateAddsAtMostOne` | client/views.py:48-50 | Existing shops are kept in place, at most one is added, and one is added exactly when no shop has the name. |
| `ClientViews.RegisteredIsDuplicate` | client/views.py:37-45 | Once a client is stored, the same chat id is refused as a duplicate. |
| `ClientViews.BlankNameReachesEmptyShop` | client/views.py:30-34 | A shop name made only of blanks passes the emptiness check, and its stripped form is "". |
| `Cart.KeyRoundTrip` | static/js/app.js:207-209 | The key under which an id is stored reads back as that id, both through `parseInt` and through `Number` (the loose `==` comparison). |
| `Cart.ShoppingCart.constructor` | static/core/js/home_page.js:15 | The home page's cart starts empty and well formed. |
| `Cart.ShoppingCart.AddToCart` | static/js/app.js:80-81 | The entry becomes its old count plus one (1 for a new key, put in its ascending place); nothing else changes. |
| `Cart.AddOneWellFormed` | static/js/app.js:80-81 | Adding one unit keeps the keys increasing and equal to the entries. |
| `Cart.AddOnePositive` | static/js/app.js:80-81 | Adding one unit keeps every count at least 1. |
| `Cart.AddOneTotal` | static/js/app.js:80-81 | Adding one unit raises the badge count by 1 and the cart total by that product's price. |
| `Cart.ShoppingCart.Adjust` | static/js/app.js:177-178 | The count changes by the delta, and the entry and its key are deleted when the result is 0 or less. |
| `Cart.AdjustWellFormed` | static/js/app.js:177-178 | Changing a count keeps the keys increasing and equal to the entries. |
| `Cart.AdjustPositive` | static/js/app.js:177-178 | Every stored count stays at least 1, and the entry survives exactly when its new count is positive. |
| `Cart.AdjustTotal` | static/js/app.js:177-178 | The badge count and the cart total change by the delta's worth, or lose the whole entry's share when it is deleted. |
| `Cart.UpdateByDelta` | static/js/app.js:177 | Adding `delta` units to one entry changes the total by `delta` times that key's weight. |
| `Cart.ShoppingCart.Clear` | static/js/app.js:229 | `cart = {}`: no keys, no entries. |
| `Cart.Insert` | static/js/app.js:81 | Inserting a key keeps the keys increasing and adds exactly that key, once. |
| `Cart.InsertPosition` | static/js/app.js:81 | A new key goes after every smaller key and before every larger one. |
| `Cart.SplitInsert` | static/js/app.js:81 | A key placed after the smaller keys and before the larger ones keeps the keys increasing and adds only itself. |
| `Cart.InsertAt` | static/js/app.js:81 | Inserting a new key puts it at that position, with the other keys kept in order around it. |
| `Cart.UpdateBadge` | static/js/app.js:97-108 | The badge shows a positive count or is hidden. On a well-formed cart the count shown is the sum of the stored counts over the entries, taken in any order. When every count is at least one, the badge is hidden exactly when the cart is empty and shows at least one per entry. |
| `Cart.SumCountsRemove` | static/js/app.js:98 | The sum of the counts over the entries does not depend on which entry is taken first. |
| `Cart.BadgeIsSumOfCounts` | static/js/app.js:98 | Summing the counts key by key in the cart's key order gives the sum over the entries. |
| `Cart.DropLast` | static/js/app.js:98 | Without its last key, and without that key's entry, the cart is still well formed, and its count drops by that entry's count. |
| `Cart.BadgeShownIffNonEmpty` | static/js/app.js:98-106 | With positive counts the badge count is positive exactly when the cart has an entry. |
| `Cart.FilterItems` | static/js/app.js:268 | "all" gives the whole catalog; any other category gives exactly the products of that category. |
| `Cart.Matching` | static/js/app.js:268 | `filter` keeps exactly the products of the category and is never longer than the catalog. |
| `Cart.MatchingAppend` | static/js/app.js:268 | Filtering a concatenation gives the concatenation of the filters, so catalog order is kept. |
| `Cart.FindIndex` | static/js/app.js:146 | `find` returns the first catalog entry with the id, or nothing exactly when no entry has it. |
| `AppJs.ChangeQty` | static/js/app.js:175-183 | A key that is absent or has count 0 leaves the cart unchanged. Otherwise the count changes as `Adjust` states. |
| `AppJs.RenderCartTotal` | static/js/app.js:129-170 | An empty cart shows the empty message and no total. Otherwise the total is Σ price × count over the keys found in the catalog, and an unknown key adds 0. |
| `AppJs.PayloadItems` | static/js/app.js:207-210 | One item per cart key, in key order, with `product_id` the key's id and `quantity` its count. |
| `AppJs.Checkout` | static/js/app.js:188-242 | With no user or an empty cart nothing is sent and nothing changes. Otherwise the payload carries the user id, one item per key and the `renderCart` total. An accepted order empties the cart; a refused one leaves it as it was. |
| `AppJs.CheckoutNeverRaises` | static/js/app.js:205-215 | When every key is a stored product, no posted item makes `create_order` raise. |
| `AppJs.CheckoutLines` | static/js/app.js:205-215 | The server stores one line per cart key, in key order, with its count and the product's price. |
| `AppJs.ExpectedLinesTotal` | static/js/app.js:211-214 | Those lines add up to the browser's cart total when the catalog's prices are the stored ones. |
| `AppJs.CheckoutMatchesServer` | static/js/app.js:205-215 | Under the same conditions the server raises on no item, stores one line per key, and its total equals the `total_price` the browser posted (which the server never reads). |
| `AppJs.CookieIndex` | static/js/app.js:251-256 | The index of the first trimmed piece that starts with `name=`, or nothing when no piece does. |
| `AppJs.FirstCookie` | static/js/app.js:251-256 | The loop with its early `break` finds exactly `CookieIndex` of the trimmed pieces. |
| `AppJs.CookieIndexAt` | static/js/app.js:251-256 | When no earlier trimmed piece starts with `name=` and the piece at `i` does, the loop stops at `i`. |
| `AppJs.CookieIndexNone` | static/js/app.js:251-256 | When no trimmed piece starts with `name=`, nothing is found. |
| `AppJs.NoCookieStep` | static/js/app.js:251-256 | A piece that does not start with `name=` extends the run of such pieces by one, so the loop goes on. |
| `AppJs.TrimmedAt` | static/js/app.js:252 | Each piece is compared in its trimmed form. |
| `AppJs.GetCookie` | static/js/app.js:247-260 | An empty cookie string gives null. Otherwise the result is the decoded remainder of the first trimmed piece that starts with `name=`, or null when none does. |
| `Text.JoinSplit` | static/js/app.js:250 | `split(';')` loses nothing: joining the pieces gives the cookie string back. |
| `Text.Split` | static/js/app.js:250 | There is always at least one piece, and no piece contains the separator. |
| `HomePage.CatalogShape` | static/core/js/home_page.js:6-13 | Six products with the ids 1 to 6 in order, so the ids are distinct, and every price is positive. |
| `HomePage.FindInCatalog` | static/core/js/home_page.js:84 | `find` succeeds exactly for the ids 1 to 6, and finds that product. |
| `HomePage.AddKeepsKnown` | static/core/js/home_page.js:41-42 | Adding a product card's id keeps every key a catalog product. |
| `HomePage.AdjustKeepsKnown` | static/core/js/home_page.js:105-107 | Changing a count only ever removes keys, so every key stays a catalog product. |
| `HomePage.RenderCartTotal` | static/core/js/home_page.js:69-103 | An empty cart shows no total. Otherwise the total is Σ price × count over the keys, each found in the catalog. |
| `HomePage.SumPrices` | static/core/js/home_page.js:83-85 | The loop adds price × count for each key, looking every key up in the catalog, and ends with the cart total. |
| `HomePage.TotalAtLeast` | static/core/js/home_page.js:81-85 | Every unit in the cart is worth at least 12000, the lowest price. |
| `HomePage.CheapestPrice` | static/core/js/home_page.js:6-13 | No product of the page costs less than 12000. |
| `HomePage.TotalAtLeastPerUnit` | static/core/js/home_page.js:81-85 | When each unit is worth at least `m` and no count is negative, the total is at least `m` times the badge count. |
| `HomePage.TotalShownIffNonEmpty` | static/core/js/home_page.js:81-85 | The total is positive exactly when the cart has an entry. |
| `HomePage.Checkout` | static/core/js/home_page.js:113-121 | A confirmed checkout empties the cart and hides the badge; without confirmation nothing changes. |
| `HomePage.MatchingSnoc` | static/core/js/home_page.js:37 | One product more at the end of the list adds that product's part at the end of the filter. |
| `HomePage.MatchingCatalog` | static/core/js/home_page.js:37 | Filtering the catalog goes product by product, in catalog order. |
| `HomePage.FilterAll` | static/core/js/home_page.js:37 | "all" shows the whole catalog. |
| `HomePage.FilterBurgers` | static/core/js/home_page.js:34-39 | "burger" shows products 1 and 4, in that order. |
| `HomePage.FilterPizzas` | static/core/js/home_page.js:34-39 | "pizza" shows products 2 and 5, in that order. |
| `HomePage.FilterDrinks` | static/core/js/home_page.js:34-39 | "drink" shows products 3 and 6, in that order. |
| `HomePage.FilterUnknownCategory` | static/core/js/home_page.js:37 | A category no product has shows an empty grid. |
| `CompanyNames.CleanTextBasic` | sample.py:16-28 | The result has no blank at either end and is never longer than the cell's text, and a missing value gives "". |
| `CompanyNames.MatchEnd` | sample.py:22 | `$` matches at the end of the text, or just before a final newline. |
| `CompanyNames.DigitsStart` | sample.py:22 | The start of the run of digits that ends where a match has to end: digits from there on, and no digit just before it. |
| `CompanyNames.SepsStart` | sample.py:22 | The start of the run of separators before the digits: separators from there on, and no separator just before it. |
| `CompanyNames.MatchEndsAtEnd` | sample.py:22 | Every match of the trailing pattern ends where `$` allows after a digit, and its digits start where the digit run starts. |
| `CompanyNames.TrailingRemovesLeftmostMatch` | sample.py:22 | When `[\s\-\.]+\d+$` matches, exactly its leftmost match is removed: the separators, the digits and nothing else. |
| `CompanyNames.TrailingNoMatch` | sample.py:22 | Without a match the text is unchanged. |
| `CompanyNames.LeadingDigitsEnd` | sample.py:23 | The end of the leading digits: all digits before it and none at it. |
| `CompanyNames.SepsEnd` | sample.py:23 | The end of the run of separators that follows the digits. |
| `CompanyNames.LeadingDigitsAt` | sample.py:23 | Every match of the leading pattern has the leading digits as its digits, and its separators stop at or before the end of the separator run. |
| `CompanyNames.LeadingRemovesLongestMatch` | sample.py:23 | When `^\d+[\s\-\.]+` matches, its longest match (the greedy one) is removed. |
| `CompanyNames.LeadingNoMatch` | sample.py:23 | Without a match the text is unchanged. |
| `CompanyNames.ShortenLogisticsLength` | sample.py:26 | Each occurrence of "Logistics" found by the left-to-right scan becomes "Log", so the text is six characters shorter per occurrence. A text without one is unchanged. |
| `CompanyNames.Assign` | sample.py:50-53 | Every match with a score at or above the threshold is mapped to the master and marked as processed. Names with no such match keep their mapping and their processed state. The processed set only grows. |
| `CompanyNames.ScoredSnoc` | sample.py:50-51 | A name scores enough in the matches exactly when it does in all but the last, or is the last with a score at or above the threshold. |
| `CompanyNames.AssignStep` | sample.py:50-53 | Handling one more match keeps the inner loop's description: a high score maps the name to the master and marks it processed. |
| `CompanyNames.PlaceMatches` | sample.py:50-53 | The inner loop over the matches computes exactly `Assign`. |
| `CompanyNames.VisitPlacesMatches` | sample.py:40-53 | An empty name or one already processed changes nothing; any other name becomes a master whose matches are placed under it. |
| `CompanyNames.AssignKeepsPlaced` | sample.py:50-53 | One master's step keeps every key processed and every value a non-empty visited name. |
| `CompanyNames.GroupedKeysPlaced` | sample.py:52-53 | After any prefix of the outer loop, every key of the map is processed and its value is a non-empty name visited so far. |
| `CompanyNames.GroupedProcessedGrows` | sample.py:38-53 | The processed set only grows along the loop. |
| `CompanyNames.GetStandardMapping` | sample.py:36-55 | The nested loops compute the mapping of the `Grouped` specification, and every value is a non-empty input name. |
| `Text.TrimIsSlice` | sample.py:28 | A stripped string is a slice of the original with only blanks outside it. |
| `Text.ParseNatToString` | order/admin.py:94 | Printing a natural number and reading it back gives the number. |
| `Text.ReplaceAllLength` | sample.py:26 | Each replaced occurrence changes the length by the difference of the two lengths. |
| `Text.ReplaceAllAbsent` | sample.py:26 | A text in which the pattern never starts is returned unchanged. |

## Left out

- Telegram delivery (`send_telegram_location`, `send_telegram_message`, order/views.py:15-46 and 112-116) is not modelled. These are network calls with no effect on the stored data.
- The HTML order report (order/views.py:86 and 92-110) is not modelled. It uses float-style `{:,.0f}` formatting and `timezone.localtime`.
- `format_currency` (order/admin.py:11-19) is not modelled; it goes through `float`.
- Decimal columns are modelled as integers. Their `max_digits` and `decimal_places` limits, and the overflow errors those would raise, are not modelled.
- `timezone.now()` and `auto_now_add` are modelled as an instant passed in by the caller.
- The Django ORM and the DRF serializer are not modelled. The tables are in-memory sequences and maps, and `serializer.is_valid()` is a boolean parameter.
- A JSON `null` comment is not modelled. It would violate the non-null `comment` column and end in a 500.
- Chat ids are modelled as integers. A chat id sent as a string is not modelled.
- A JSON body that is not an object is folded into the "not JSON" case: the handler answers 500 and nothing is stored.
- An `items` value that is not a list of objects is not modelled. It would raise inside the loop after the order has been created.
- `Models.Db.SaveItem`: the totals invariant is only proved for a save that keeps the item in its order (`KeepsOrder`). Moving an item to another order leaves the old order's total stale, because the source recomputes only the new order's total (see Findings).
- `Models.Db.SaveItem`: saving with an explicit key requires that row to exist. Django's fall-back to an INSERT for an unknown key is not modelled.
- Concurrent requests updating one order's total are not modelled.
- Deleting item rows without `OrderItem.delete()` is not modelled, and it recomputes no total. Two paths do this. One is the superuser's bulk "delete selected" action on `OrderItemAdmin` (order/admin.py:142-146), which Django runs as one `queryset.delete()`. The other is the cascade from deleting a `Product` (order/models.py:45). Both leave the affected orders' totals stale.
- The browser receives prices as JavaScript doubles (`float(p.price)`, product/views.py:25). The model's integer sums agree with the scripts' arithmetic only while every price, count and total stays below 2^53.
- `AppJs.Checkout` and `HomePage.Checkout` are modelled as one atomic step. In app.js `checkout` awaits the `fetch`, and home_page.js waits for the `showConfirm` callback. Only the checkout button is disabled meanwhile, so `addToCart` and `changeQty` still run. Edits made during the wait are wiped by the reset to `{}` without having been sent. The model does not capture those interleavings.
- app.js loads its cart from `localStorage` (static/js/app.js:4), which is not modelled. Its cart methods are proved for any `Valid()` starting cart; only home_page.js starts from the empty cart of `Cart.ShoppingCart.constructor`.
- The pages' DOM, `localStorage`, haptic feedback, alerts, `showPage` and the `fetch` call itself are not modelled. The server's answer and the user's confirmation are parameters.
- `HomePage.RenderCartTotal`: every key is required to be a catalog product. On other keys the page itself throws when reading a missing product's price.
- `Cart.ShoppingCart.Adjust`: the key is required to be in the cart. On an absent key, home_page.js `changeQty` stores `NaN` (`undefined + delta`); that case is not modelled.
- `AppJs.GetCookie`: `decodeURIComponent` is a total parameter, so a malformed escape that throws a `URIError` is not modelled.
- JavaScript orders array-index keys (below 2^32 - 1) numerically. Larger ids would be enumerated in insertion order, and that is not modelled.
- `parseInt` is modelled only on the keys the cart stores, which are plain decimal numerals. Signs, leading blanks and other radixes are not modelled.
- pandas, Excel input and output, and the script's top-level pipeline (sample.py:6-13, 31-33 and 58-71) are not modelled. That includes the call with `threshold=85`; `GetStandardMapping` takes the threshold as a parameter.
- `process.extract(name, names, limit=10)` is modelled as an arbitrary function parameter that returns (name, score) pairs. The limit of ten and the scoring itself belong to that function.
- `str()` of a non-string cell is modelled as a value the cell carries (`Other(shown)`).
- `\d` is modelled as the ASCII digits only. Python's `\d` also matches other Unicode decimal digits.

## Findings

| source | as written | input that shows it | evidently intended | confidence | as-written member | corrected member |
|---|---|---|---|---|---|---|
| order/models.py:74-77 | `OrderItem.save` recomputes only `self.order`, the order the row is in after the save | a superuser's item form moves a stored row with summary 100 from order 1 to order 2: order 1 keeps `total_price` 100 while its items sum to 0 | the order the row left is recomputed too, so every order's total stays the sum of its items | medium, not executed | `Models.MoveLeavesOldTotalStale` | `Models.Db.SaveItemBothTotals` |

The order views only ever save new rows, and on those both saves do the same thing. So `OrderViews` keeps calling `Models.Db.SaveItem`, which models the code as it is. `Models.Db.SaveItemBothTotals` is the save for the superuser's item form (order/admin.py:142-146), where a row can change order.
