# KrashiDukan core, modelled in Dafny

KrashiDukan is a small shop-inventory application. Its Express backend lets a
user sign up, log in and keep a refresh-token session. A user can open a shop,
add co-owners, list products and place orders against the shop's stock. The
React frontend keeps a cart, builds query strings, pages through products and
exports CSV. This project models the logic of those handlers and helpers and
proves what they promise.

Layout, one module per source file (plus shared modules):

| file | module | models |
|---|---|---|
| `common.dfy` | `Common` | `Option`, `Result`, `ApiError`; JavaScript truthiness, `trim`, `split`/`join`, decimal rendering, UTF-16 length |
| `store.dfy` | `Store` | the records (users, sessions, shops, products, orders), the invariants the tables are meant to keep (`Consistent`, whose docstring names the handlers proved to keep them and the two that do not always), and the `Database` class holding the tables |
| `order.dfy`, `order_properties.dfy` | `Orders`, `OrderProperties` | `createOrder`: validation, merging, stock check, decrement, stored order |
| `order_history.dfy`, `order_history_properties.dfy` | `OrderHistory`, `OrderHistoryProperties` | `orderHistory`: limit clamp, keyset filter, `limit + 1` probe, next cursor, total |
| `auth.dfy` | `Auth` | `signup`, `login`, `logout`, `refresh` over the user and session tables |
| `shop.dfy` | `Shops` | `createShop`, `addOwner`, `getMyShop` and the ownership invariants |
| `product.dfy` | `Products` | `addProduct` and `getProducts` with their authorization chain |
| `http.dfy`, `verify_token.dfy`, `error_handler.dfy` | `Http`, `TokenCheck`, `ErrorHandling` | the request/response exchange, the token middleware, the error middleware |
| `cart.dfy`, `cart_properties.dfy` | `Cart`, `CartProperties` | the cart helpers, tag parsing and the order body of `App.jsx` |
| `client.dfy` | `Client` | `buildQuery` and the refresh-and-retry rule of `fetchJSON`/`fetchBlob` |
| `pagination.dfy` | `PageBar` | what the `Pagination` component renders |
| `product_list.dfy` | `ProductList` | the navigation state of the product list page |
| `exporters.dfy` | `Csv` | the CSV text built by `downloadCSV` |

Modelling choices:

- Every backend handler is one method on the `Database` object. It changes the
  tables in one step because the source wraps multi-step writes in a
  transaction. Each handler has a decision function of the old tables. The
  method's `ensures` ties the answer and the new tables to that function, and
  lemmas state what the function promises.
- Errors are `ApiError(status, message, fieldErrors)` values returned in a
  `Result`, the same values the handlers throw.
- bcrypt, JWT signing and verification, SHA-256, the clock and the random
  refresh token are parameters. Mongo's `findOne` picks one matching document
  when several match. The shop handlers therefore return the shop they used,
  constrained by `Shops.FindsShop`, and `Shops.FoundShopUnique` shows that
  answer is unique under the ownership invariant.
- The database's sorted, filtered, limited query in `orderHistory` is modelled
  by what it returns. The regex search is a parameter `matches`.
- Frontend state held in React hooks is a class where the source updates it
  step by step (`ProductList.Page`, `Cart.Storefront`). The helpers that
  return new arrays are functions.

Where the code departs from what it evidently intends, the model follows the
code:

- The token middleware reads the cookie `token`
  (backend/src/middleware/verifyToken.js:4), while login and refresh set a
  cookie named `accessToken` (backend/src/controllers/auth.controller.js:78,
  145). `TokenCheck.AccessTokenCookieIgnored` states the consequence.
- `addProduct` refuses only a missing or zero quantity
  (backend/src/controllers/product.controller.js:25-32), so it accepts a
  negative one. Elsewhere the code keeps stock non-negative: `createOrder`
  refuses an order larger than the stock
  (backend/src/controllers/order.controller.js:79-87), and its decrement only
  matches a product with enough stock (order.controller.js:91).
  `Products.AddProductStock` and `Products.AddProductKeepsConsistent` state
  exactly when stock stays non-negative.
- `getProducts` applies no search, filter or paging
  (backend/src/controllers/product.controller.js:41-58), although the product
  list page sends `limit`, cursor and `title` parameters
  (frontend/src/pages/ProductListPage.jsx:21-27).

## Model

| member | source | states |
|---|---|---|
| Orders.IndexOfProduct | backend/src/controllers/order.controller.js:43 | the first line naming a product: in range and naming it, no earlier line names it; none exactly when no line names it |
| Orders.FoundProducts | backend/src/controllers/order.controller.js:68-71 | the lookup returns exactly the stored products of the shop that some merged line names, with their stored values |
| Orders.ScanStep | backend/src/controllers/order.controller.js:17-55 | one iteration of the item scan extends the error map by that item's errors and merges the item's line only when the item is valid |
| Orders.NormalizeItems | backend/src/controllers/order.controller.js:14-55 | the scan loop yields the error map of all items and the merged valid lines (their properties are the OrderProperties lemmas) |
| Orders.CheckStock | backend/src/controllers/order.controller.js:79-87 | the per-line loop stops at the first line whose product is missing (404) or short of stock (409), else passes |
| Orders.ApplyDecrements | backend/src/controllers/order.controller.js:89-96 | the bulk write lowers each line's product by the line's quantity |
| Orders.CreateOrder | backend/src/controllers/order.controller.js:6-122 | given a fresh order id, the answer is the decision function of the old stock; the stock is decremented and the order appended only on success, so a rejected order changes nothing |
| OrderProperties.EarlyRejections | backend/src/controllers/order.controller.js:9-12 | name, contact, a non-empty item list and the shop id are checked in that order before any item; then any item error gives one 400 with the full map; a rejection leaves the stock as it was |
| OrderProperties.ItemKeyInjective | backend/src/controllers/order.controller.js:19-36 | distinct (index, field) pairs give distinct `items.<i>.<field>` keys |
| OrderProperties.AddItemErrorsSpec | backend/src/controllers/order.controller.js:17-40 | one item adds exactly the keys of its bad fields with their messages (only the product key when the id is missing) and changes no other key |
| OrderProperties.AddItemErrorsField | backend/src/controllers/order.controller.js:17-40 | per field: the item's key is in the map after the item exactly when it was before or that field is bad, with the field's message |
| OrderProperties.ItemErrorsSpec | backend/src/controllers/order.controller.js:17-40 | after the scan the map holds a key exactly for each bad field of each item, under that item's index, with its message; validation does not stop at the first bad item |
| OrderProperties.ItemValidIff | backend/src/controllers/order.controller.js:18-40 | an item is valid exactly when none of its four fields is in error |
| OrderProperties.ItemErrorsEmptyIff | backend/src/controllers/order.controller.js:57-59 | the error map is empty exactly when every item is valid |
| OrderProperties.MergeLineShape | backend/src/controllers/order.controller.js:42-54 | one merge step adds the quantity to the existing line of the product or appends the line; other lines are untouched |
| OrderProperties.MergeProducts | backend/src/controllers/order.controller.js:42-54 | merged lines name distinct products, exactly the products of the valid lines |
| OrderProperties.MergeLines | backend/src/controllers/order.controller.js:42-61 | each merged line is the first line of its product with the summed quantity, in first-occurrence order |
| OrderProperties.MergeSpec | backend/src/controllers/order.controller.js:42-61 | the merge's whole contract: distinct products, the same products, first occurrence's name, price and category with summed quantity, first-occurrence order |
| OrderProperties.MergedQuantities | backend/src/controllers/order.controller.js:44-45 | each merged quantity is the sum of the quantities requested for that product |
| OrderProperties.FoundAllIff | backend/src/controllers/order.controller.js:68-75 | the lookup finds as many products as there are merged lines exactly when every merged product belongs to the shop |
| OrderProperties.StockCheckSpec | backend/src/controllers/order.controller.js:79-87 | the check passes exactly when every line has enough stock; a found but short product gives 409 |
| OrderProperties.DeductSpec | backend/src/controllers/order.controller.js:89-96 | with distinct products, each ordered product drops by its line's quantity and every other product is unchanged |
| OrderProperties.FoundStockIsStoreStock | backend/src/controllers/order.controller.js:68-84 | when every line's product is in the shop, checking the found documents is checking the store |
| OrderProperties.PlaceOrderSucceedsIff | backend/src/controllers/order.controller.js:9-99 | an order is accepted exactly when the required fields are there, every item is valid, every merged product is in the shop and has enough stock |
| OrderProperties.MissingProductIsNotFound | backend/src/controllers/order.controller.js:68-75 | a merged product missing from the shop gives the 404 |
| OrderProperties.ShortStockIsConflict | backend/src/controllers/order.controller.js:79-87 | a product with less stock than its merged quantity gives a 409 |
| OrderProperties.OrderConservesStock | backend/src/controllers/order.controller.js:89-99 | on acceptance each ordered product drops by exactly its summed requested quantity and stays non-negative; other products and the key set are unchanged |
| OrderProperties.DeductConserves | backend/src/controllers/order.controller.js:89-96 | decrementing distinct lines with enough stock: exact drops, nothing negative, nothing else touched |
| OrderProperties.OrderKeepsStockNonNegative | backend/src/controllers/order.controller.js:79-99 | no order, accepted or not, makes a quantity negative |
| OrderProperties.StoredOrder | backend/src/controllers/order.controller.js:101-112 | the stored order holds the merged lines, the client's total when finite else the computed sum, village "N/A" by default, and the request's name, contact and shop |
| OrderProperties.CreateOrderKeepsConsistent | backend/src/controllers/order.controller.js:79-112 | with a fresh order id, createOrder keeps the tables consistent: stock non-negative, order ids unique, users and shops untouched |
| OrderProperties.MergedLinesAgainstStock | backend/src/controllers/order.controller.js:42-45 | two lines of 2 and 3 units of a product with 4 in stock merge to 5 and are refused with 409 |
| OrderHistory.ClampLimit | backend/src/controllers/order.controller.js:128 | the page size is in [1, 50]: 20 by default or for 0, the limit itself within range, else the nearer bound |
| OrderHistory.Take | backend/src/controllers/order.controller.js:167 | `.limit(n)` keeps a prefix of length min(n, length) |
| OrderHistoryProperties.InsertSpec | backend/src/controllers/order.controller.js:166 | inserting into a list sorted newest first keeps it sorted and adds exactly that row |
| OrderHistoryProperties.SortSpec | backend/src/controllers/order.controller.js:166 | the rows come back sorted by (createdAt, _id) descending and are a permutation of the input |
| OrderHistoryProperties.FilterSpec | backend/src/controllers/order.controller.js:165 | the filter keeps exactly the rows satisfying the query |
| OrderHistoryProperties.SortFilter | backend/src/controllers/order.controller.js:165-166 | sorting the matching rows equals filtering the sorted rows |
| OrderHistoryProperties.BeforeKeySuffix | backend/src/controllers/order.controller.js:156-161 | in a sorted listing with unique ids, the rows strictly below row i's key are exactly the rows after it |
| OrderHistoryProperties.ListingSpec | backend/src/controllers/order.controller.js:133-143 | the listing is sorted, holds exactly the shop's rows matching the search, and has unique ids when the store does |
| OrderHistoryProperties.MakePageRows | backend/src/controllers/order.controller.js:167-170 | a page is the first `limit` sorted matching rows, and has a next page exactly when more match |
| OrderHistoryProperties.FirstPage | backend/src/controllers/order.controller.js:145-170 | without a keyset cursor, the page is the first `limit` rows of the listing |
| OrderHistoryProperties.CursorPage | backend/src/controllers/order.controller.js:148-170 | with a cursor that decodes to (date, id), the page is the first `limit` listing rows strictly below that key |
| OrderHistoryProperties.HistoryErrors | backend/src/controllers/order.controller.js:126-155 | errors are exactly: no shop id, then a bad cursor id, then a bad cursor date, each a 400 |
| OrderHistoryProperties.MakePageShape | backend/src/controllers/order.controller.js:165-177 | a page is bounded, sorted, drawn from the matching rows, and carries its last row's key exactly when it has a next page |
| OrderHistoryProperties.PageShape | backend/src/controllers/order.controller.js:128-188 | every page: limit in [1, 50], at most `limit` rows, sorted, each a selected row, next cursor exactly with a next page, total on the first page or when asked |
| OrderHistoryProperties.LastRowOfFullPage | backend/src/controllers/order.controller.js:169-177 | a full page starting at listing row `start` ends at row start + limit - 1, whose key is the next cursor |
| OrderHistoryProperties.ContinueFrom | backend/src/controllers/order.controller.js:148-167 | a request whose cursor is the key of listing row i gets the rows after i |
| OrderHistoryProperties.NextPageContinues | backend/src/controllers/order.controller.js:148-177 | following `nextCursor` returns the listing's next rows, so no row is skipped or repeated |
| OrderHistoryProperties.FirstPageStartsListing | backend/src/controllers/order.controller.js:145-170 | the first page starts the listing at row 0 |
| Auth.FindSession | backend/src/controllers/auth.controller.js:131 | the first session with the digest, or none exactly when no session has it |
| Auth.Signup | backend/src/controllers/auth.controller.js:9-42 | the answer and the user table are those of the signup decision function; consistent tables stay consistent |
| Auth.Login | backend/src/controllers/auth.controller.js:50-103 | the answer, cookies and session table are those of the login decision function; consistent tables stay consistent |
| Auth.Logout | backend/src/controllers/auth.controller.js:106-121 | the answer, cookies and session table are those of the logout decision function; consistent tables stay consistent |
| Auth.Refresh | backend/src/controllers/auth.controller.js:124-151 | the answer, cookies and session table are those of the refresh decision function; consistent tables stay consistent |
| Auth.SignupMissingFields | backend/src/controllers/auth.controller.js:13-20 | a missing field gives a 400 listing exactly the missing ones and adds nobody |
| Auth.SignupDuplicateEmail | backend/src/controllers/auth.controller.js:23-31 | a registered email is a 409 whatever the password's length, and adds nobody |
| Auth.SignupSucceedsIff | backend/src/controllers/auth.controller.js:13-35 | signup succeeds exactly when all fields are present, the email is new and the password has at least 6 UTF-16 units; a refusal adds nobody |
| Auth.SignupAddsUser | backend/src/controllers/auth.controller.js:33-35 | an accepted signup adds exactly one user, holding the password's hash and the `user` role; others are kept and emails stay unique |
| Auth.InsertUser | backend/src/controllers/auth.controller.js:35 | storing a user with an unused email under a fresh id keeps the emails unique |
| Auth.SignupKeepsConsistent | backend/src/controllers/auth.controller.js:23-35 | signup keeps the tables consistent: emails stay unique and every existing user, owners included, is kept |
| Auth.LoginMissingCredentials | backend/src/controllers/auth.controller.js:53-60 | a missing credential gives a 400 listing exactly the missing ones, with no session and no cookie |
| Auth.LoginOutcomes | backend/src/controllers/auth.controller.js:62-97 | an unknown email or a wrong password is a 401 storing nothing; otherwise exactly one session holding the token's digest, expiring in thirty days, and both cookies |
| Auth.DeleteSessionSpec | backend/src/controllers/auth.controller.js:111 | `deleteOne` removes the first session with the digest and only it, keeping the others in order |
| Auth.LogoutClears | backend/src/controllers/auth.controller.js:107-119 | logout always clears both cookies and answers 200; it deletes a session only when a token is presented |
| Auth.RefreshOutcomes | backend/src/controllers/auth.controller.js:127-150 | no cookie is a 401 with no change; no session or an expired one deletes that digest's session, clears both cookies and is a 401; otherwise a new access token and no change |
| Auth.LoginThenRefresh | backend/src/controllers/auth.controller.js:84-150 | a login followed within thirty days by a refresh with its token mints an access token for the same user and keeps the session |
| Auth.DeleteUniqueSession | backend/src/controllers/auth.controller.js:111 | when the digest names at most one session, none is left after the delete |
| Auth.LogoutThenRefresh | backend/src/controllers/auth.controller.js:109-139 | after logging out with a token whose digest names at most one session, refreshing with it is a 401 that clears both cookies |
| Store.UserWithEmail | backend/src/controllers/auth.controller.js:62 | `findOne({email})` returns a user with that email, or none exactly when no user has it |
| Store.UserWithEmailIs | backend/src/controllers/auth.controller.js:62 | with unique emails the lookup returns the user holding the email |
| Common.Utf16Length | backend/src/controllers/auth.controller.js:29 | the length the password check uses counts UTF-16 units: between one and two per character |
| Shops.CreateShop | backend/src/controllers/shop.controller.js:6-56 | the answer and the shop and user tables are those of the createShop decision function; consistent tables stay consistent when the requester is a registered user |
| Shops.AddOwner | backend/src/controllers/shop.controller.js:58-110 | the requester's shop is a possible lookup answer; the answer and the tables are those of the addOwner decision function for it; consistent tables stay consistent |
| Shops.GetMyShop | backend/src/controllers/shop.controller.js:112-120 | the shop is a possible lookup answer and the answer is that of the getMyShop decision function |
| Shops.Target | backend/src/controllers/shop.controller.js:63-65 | the target, when found, is a registered user |
| Shops.FoundShopUnique | backend/src/controllers/shop.controller.js:72 | when each user owns at most one shop, the shop lookup has one possible answer |
| Shops.PromoteSpec | backend/src/controllers/shop.controller.js:33-39 | the role update changes only that user's role, so emails stay unique |
| Shops.CreateShopOutcomes | backend/src/controllers/shop.controller.js:10-39 | missing fields are a 400, an existing owner a 409, both changing nothing; otherwise one new shop owned by the requester alone, and the requester becomes `owner` |
| Shops.CreateShopKeepsOwnership | backend/src/controllers/shop.controller.js:12-39 | createShop keeps each user in at most one owner list and every owner an `owner` |
| Shops.AddOwnerRejects | backend/src/controllers/shop.controller.js:63-73 | unknown target 404, then a target who owns a shop 409, then a requester without a shop 401; each changes nothing |
| Shops.TargetLookup | backend/src/controllers/shop.controller.js:63-65 | the target is found by id when an id is given, otherwise by email |
| Shops.AddOwnerAppends | backend/src/controllers/shop.controller.js:82-97 | an accepted addOwner appends the target to the requester's shop once, promotes the target, and changes no other shop or user |
| Shops.AddOwnerKeepsOwnership | backend/src/controllers/shop.controller.js:69-97 | addOwner keeps each user in at most one owner list, each list free of repeats, and every owner an `owner` |
| Shops.CreateShopKeepsConsistent | backend/src/controllers/shop.controller.js:10-39 | createShop keeps the tables consistent when the requester is a registered user |
| Shops.UnregisteredCreator | backend/src/controllers/shop.controller.js:33-39 | a requester missing from the user table still gets a shop, and its owner then lacks the `owner` role, so the invariant fails |
| Shops.AddOwnerKeepsConsistent | backend/src/controllers/shop.controller.js:63-97 | addOwner keeps the tables consistent: ownership rules kept and emails unique |
| Shops.GetMyShopOutcomes | backend/src/controllers/shop.controller.js:112-119 | no user is a 401, no shop listing the user a 404, otherwise a shop whose owners include the user |
| Products.AddIf | backend/src/controllers/product.controller.js:25-30 | a missing field adds its own key, and only then |
| Products.AddProduct | backend/src/controllers/product.controller.js:6-39 | the answer and the product table are those of the addProduct decision function; consistent tables stay consistent exactly when the product is refused or its quantity is non-negative |
| Products.AuthorizeOrder | backend/src/controllers/product.controller.js:10-19 | missing user 401, then missing shop id 400, then unknown shop 404, then non-owner 403; success exactly for an owner |
| Products.ProductErrorsExact | backend/src/controllers/product.controller.js:23-32 | the 400 lists every falsy required field and nothing else; a zero quantity or selling price counts as missing |
| Products.ErrorsIffIncomplete | backend/src/controllers/product.controller.js:25-32 | there is no error exactly when every required field is present and neither number is zero |
| Products.AddProductOutcome | backend/src/controllers/product.controller.js:10-35 | addProduct succeeds exactly for an owner with a complete body; a refusal stores nothing; past authorization it is the 400 with the field errors |
| Products.AddProductAccepted | backend/src/controllers/product.controller.js:35 | an accepted product is inserted under the new id, stamped with the route's shop id and holding the body's title, selling price and (non-zero) quantity; other products are unchanged |
| Products.AddProductStock | backend/src/controllers/product.controller.js:30-35 | stock stays non-negative exactly when the product is refused or its quantity is non-negative |
| Products.AddProductKeepsConsistent | backend/src/controllers/product.controller.js:25-35 | addProduct keeps the tables consistent exactly when it refuses the product or the new quantity is non-negative |
| Products.GetProductsExact | backend/src/controllers/product.controller.js:41-58 | getProducts answers the authorization error, or exactly the products of the route's shop |
| TokenCheck.VerifyToken | backend/src/middleware/verifyToken.js:3-20 | no token: 401 and no `next`; a failed verification: 403 and no `next`; otherwise `req.userId` is the payload's and `next` is called once |
| TokenCheck.CheckTokenCases | backend/src/middleware/verifyToken.js:4-17 | exactly one of the three outcomes happens, each under its own condition |
| TokenCheck.AccessTokenCookieIgnored | backend/src/middleware/verifyToken.js:4 | a request carrying only the `accessToken` cookie is refused with 401 |
| ErrorHandling.HandleError | backend/src/middleware/errorHandler.js:1-38 | the error is logged; if headers were sent it goes to `next` and no response is written; otherwise the error response is written |
| ErrorHandling.ErrorResponseShape | backend/src/middleware/errorHandler.js:28-35 | status is the error's when non-zero, else 500; message the error's when non-empty, else the default; `success` false; errors or null; never the stack |
| ErrorHandling.ApiErrorAnswered | backend/src/middleware/errorHandler.js:28-35 | an ApiError is answered with its own status, message and field errors |
| CartProperties.AddExisting | frontend/src/App.jsx:146-150 | adding a product in the cart bumps its line by the quantity (1 by default) and keeps the length and the other lines |
| CartProperties.AddNew | frontend/src/App.jsx:144-152 | adding a new product appends one line, quantity 1 unless given |
| CartProperties.AddKeepsDistinct | frontend/src/App.jsx:144-154 | adding keeps one line per product id, and the product is in the cart after |
| CartProperties.AddAtShape | frontend/src/App.jsx:146-150 | with one line per product, adding an existing product updates exactly its line |
| CartProperties.AddNewTotal | frontend/src/App.jsx:152-168 | adding a new product raises the total by quantity times price, 0 when it has none |
| CartProperties.BumpTotal | frontend/src/App.jsx:149-168 | adding q to a line raises the total by q times its price |
| CartProperties.ReplaceTotal | frontend/src/App.jsx:166-168 | replacing one line changes the total by the difference of the two lines' amounts |
| CartProperties.TotalConcat | frontend/src/App.jsx:166-168 | the total of two carts joined is the sum of their totals |
| CartProperties.UpdateOnlyMatching | frontend/src/App.jsx:156-160 | only the matching line's quantity changes; products and order are kept, as is one line per id |
| CartProperties.RemoveSpec | frontend/src/App.jsx:162-164 | removal keeps exactly the other products' lines (order and multiplicity are `RemoveConcat`), leaves a cart without the product as it was, and keeps one line per id |
| CartProperties.RemoveConcat | frontend/src/App.jsx:162-164 | the filter works line by line: a single line stays exactly when it names another product, and removing from a concatenation removes from each part, so the kept lines keep their order and their multiplicity |
| CartProperties.RemoveAt | frontend/src/App.jsx:162-164 | with one line per product, removal drops exactly that line |
| CartProperties.RemoveTotal | frontend/src/App.jsx:162-168 | removal lowers the total by the removed line's amount |
| CartProperties.TrimAllSpec | frontend/src/App.jsx:122 | every piece is trimmed, in place |
| CartProperties.DropEmptySpec | frontend/src/App.jsx:122 | exactly the non-empty pieces are kept |
| CartProperties.ParseTagsSpec | frontend/src/App.jsx:121-123 | an empty field gives no tags; every tag is non-empty, comma-free and trimmed |
| CartProperties.TagsRoundTrip | frontend/src/App.jsx:121-123 | non-empty, comma-free, trimmed tags joined with commas parse back to themselves |
| CartProperties.OrderItems | frontend/src/App.jsx:173-179 | one request item per cart line in order, with category "" by default; it passes the server's item checks exactly for a positive quantity and a present non-negative price |
| CartProperties.OrderBodyFields | frontend/src/App.jsx:181-188 | the body passes the server's required-field checks exactly when name, contact and shop id are non-empty; the total sent is the cart total |
| Cart.Storefront.CreateOrder | frontend/src/App.jsx:170-196 | nothing is sent or changed without a shop or with an empty cart; otherwise the body is sent and the cart and form are cleared once the order is placed |
| Common.TrimSpec | frontend/src/App.jsx:122 | `trim` cuts white space, and only white space, from both ends |
| Common.TrimIdempotent | frontend/src/App.jsx:122 | trimming twice is trimming once |
| Client.BuildQuery | frontend/src/api/client.js:95-103 | the accumulator loop and serialisation return the query string of the cleaned entries |
| Client.CleanSpec | frontend/src/api/client.js:96-100 | the cleaned entries are exactly the kept ones, as strings |
| Client.CleanConcat | frontend/src/api/client.js:96-100 | cleaning preserves order: it distributes over concatenation |
| Client.CleanSingle | frontend/src/api/client.js:97 | undefined, null and "" are dropped; 0 and false are kept |
| Client.QueryEmptyIff | frontend/src/api/client.js:101-102 | the result is "" exactly when nothing is kept, and otherwise starts with "?" |
| Client.FormEncodeChars | frontend/src/api/client.js:101 | encoded keys and values never contain `&` or `=` |
| Client.QueryReadsBack | frontend/src/api/client.js:101-102 | after the "?", splitting on `&` and `=` gives the encoded kept entries, in order |
| Client.FetchOutcomes | frontend/src/api/client.js:50-61 | a call settles on the first answer, or on the refresh's error, or on the retry's answer; an error carries the status and the message or the default |
| Client.NoRefreshWhenSkippedOrRefreshing | frontend/src/api/client.js:50 | with refreshing skipped, or on the refresh path, a call makes one request |
| Client.AtMostOneRetry | frontend/src/api/client.js:50-53 | a call requests the refresh endpoint at most once and its path at most twice |
| PageBar.Range | frontend/src/components/Pagination.jsx:42 | the page list has length max(0, end - start + 1) |
| PageBar.HiddenIff | frontend/src/components/Pagination.jsx:10-37 | without a page count the bar is hidden exactly when there is neither a next nor a previous page; with one, exactly when it is at most 1 |
| PageBar.WindowBounds | frontend/src/components/Pagination.jsx:39-42 | the buttons run consecutively from max(1, page - 2), at most five, all within 1..totalPages |
| PageBar.CurrentPageShown | frontend/src/components/Pagination.jsx:40-42 | the current page has a button when it is a real page |
| PageBar.NumberedButtons | frontend/src/components/Pagination.jsx:49-68 | Prev asks for page - 1, disabled on the first page; Next asks for page + 1, disabled from the last page |
| ProductList.Page.constructor | frontend/src/pages/ProductListPage.jsx:8-15 | the initial state: page 1, cursors [null], no next page, no count |
| ProductList.Page.Loaded | frontend/src/pages/ProductListPage.jsx:28-43 | an answer sets the rows and next-page flag; sets the count, or clears it for page 1; stores the cursor only for a page after the first |
| ProductList.Page.Next | frontend/src/pages/ProductListPage.jsx:90-101 | nothing without a next page or rows; otherwise page + 1 with the last row's (expiry date, id) as cursor |
| ProductList.Page.Prev | frontend/src/pages/ProductListPage.jsx:103-109 | nothing on page 1; otherwise page - 1 with the cursor stored for it |
| ProductList.Page.Deleted | frontend/src/pages/ProductListPage.jsx:69-73 | back one page exactly when the page held one product and was after the first; the reload uses that page's cursor |
| ProductList.Page.Refresh | frontend/src/pages/ProductListPage.jsx:119 | the Refresh button sends at most one request, with no cursor and `includeTotal` false, whatever page is shown; its answer, applied by `Loaded` with an index that is neither 1 nor above 1, keeps the page number and the cursors, and keeps the count unless the answer carries one |
| ProductList.Page.Search | frontend/src/pages/ProductListPage.jsx:80-88 | cursors reset to [null], page 1, no next page, no count, the trimmed input as term; the request it sends carries the previous term, followed by one with the new term when it changed |
| ProductList.TotalPagesSpec | frontend/src/pages/ProductListPage.jsx:55 | no page count exactly for a null or zero count; a positive count gives n pages with (n - 1) * 10 < count <= n * 10; a negative count gives one page |
| ProductList.RequestQuery | frontend/src/pages/ProductListPage.jsx:21-27 | a request sends limit 10, the cursor when there is one, includeTotal "true" on page 1 and "false" after it, and the trimmed term when non-empty, in that order |
| ProductList.ShowsBarIff | frontend/src/pages/ProductListPage.jsx:187 | with no count (or a zero count) the bar shows exactly when there is a next page or the page is past the first; with a count, exactly when it exceeds ten |
| Csv.UndoubleDoubled | frontend/src/utils/exporters.js:9 | halving doubled quotes undoes doubling them |
| Csv.QuoteRoundTrip | frontend/src/utils/exporters.js:8-10 | stripping the outer quotes and halving the inner ones gives back the cell |
| Csv.CellRules | frontend/src/utils/exporters.js:7-11 | an absent cell is empty; a string with a comma is quoted and reads back; others are written unchanged |
| Csv.CellReadsBack | frontend/src/utils/exporters.js:7-11 | a string cell reads back unless it has no comma yet starts and ends with a quote |
| Csv.LineCells | frontend/src/utils/exporters.js:4-13 | without commas in its cells, a line splits into exactly its cells, in header order |
| Csv.HeaderLine | frontend/src/utils/exporters.js:2-17 | the first line is the headers joined by commas |
| Csv.OneLinePerRow | frontend/src/utils/exporters.js:3-17 | without newlines in headers and cells, the text is the header line then one line per row, in order |
| Csv.NoRows | frontend/src/utils/exporters.js:15-17 | with no rows the text is the header line and one newline |
| Csv.NewlineSplitsRow | frontend/src/utils/exporters.js:8-15 | a cell with a newline but no comma is written bare, so its row spans two lines |

## Left out

- JavaScript `Number()` coercion and floating point: order quantities and prices are exact reals or "not a finite number", product numbers are reals, and totals are exact sums.
- The concurrent over-sell guard of `createOrder` (the `$gte` filter and the `modifiedCount` check): handlers run one at a time, where the earlier stock check already implies it.
- Malformed ids, which Mongoose rejects with a cast error that the error middleware answers with 500 (backend/src/middleware/errorHandler.js:28), are treated as ids that match nothing: a product id in `createOrder` (the model answers 404 "One or more products not found for this shop"), a shop id in `Products.AuthorizeShop` (backend/src/controllers/product.controller.js:13, 49; the model answers 404 "Shop not found !"), and a target user id in `Shops.Target` (backend/src/controllers/shop.controller.js:64; the model answers 404 "User does not exist!").
- The regex search of `orderHistory` is the abstract predicate `matches`, which is total: a search text that is not a valid pattern, such as "(", makes `new RegExp(search, "i")` throw (backend/src/controllers/order.controller.js:137), and the error middleware answers 500; the model returns a page instead.
- The `limit` query parameter of `orderHistory` is modelled as a whole number or NaN. A fractional limit such as "2.5", which `Number` keeps and the clamp at backend/src/controllers/order.controller.js:128 passes through as 2.5, is outside the model.
- Parsing and printing of dates and ObjectIds are the `Codecs` parameter. The lemmas that follow a cursor assume they round-trip.
- bcrypt, JWT signing and verification, SHA-256, the random refresh token and the clock are parameters, and cookie options are not modelled.
- The content of the error log is recorded, not its JSON formatting.
- The shared in-flight `refreshPromise` of the API client, which only matters for concurrent calls.
- JavaScript's ordering of integer-like object keys in `buildQuery`: entries keep the order they are given in.
- Client.Param: numbers in `buildQuery` parameters are integers only.
- Shops.AddOwner: a request with neither a user id nor an email finds no target (404); the `findOne({email: undefined})` query is not modelled.
- Products.AddProduct: the schema validation Mongoose applies on `create` is not modelled.
- Store.Product and Store.Order carry a `shopId`, and the model stores it and filters on it (`Products.AddProductAccepted`, `Products.GetProductsExact`, `Orders.FoundProducts`, `OrderProperties.StoredOrder`, the `orderHistory` query). The schemas in backend/src/models/product.model.js:4-43 and backend/src/models/order.model.js:4-46 declare no such field. Under Mongoose's default strict mode the shop id passed to `create` would then not be stored, and the shop filters would match nothing or everything, depending on the `strictQuery` setting. This observation was not executed; the model assumes schemas that store `shopId`.
- Orders.NumberText: the stock in the 409 message (backend/src/controllers/order.controller.js:84) is printed by its floor, so a fractional stock such as 2.5 reads "2" where JavaScript prints "2.5".
- The CSV download itself (Blob, object URL, DOM link) and `downloadPrintPDF`.
- Csv.CellText: a cell that is not a string is its already rendered text, so an array holding a comma is not quoted, as in the source.
- The loading flags and toast messages of the pages.
- ProductList.Page.Deleted: the confirmation dialog and a failed delete call are not modelled; the method is the step after the server accepted the delete.
- ProductList.Page: the initial fetch on mount and the refetch when the shop id changes are not modelled separately. The refetch after a change of search term is part of `Search`.
- ProductList.Page.Next: the `if (!last) return` guard is covered by the non-empty check, since rows are never null.
- CartProperties.AddExisting: the new cart total for an existing product is stated in two steps, `AddAtShape` (which line changes) and `BumpTotal` (what that does to the total).
