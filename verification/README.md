# EcoFinds marketplace core, modelled in Dafny

EcoFinds is a second-hand marketplace. Sellers list products, buyers settle
purchases, and both earn eco-stats (CO2 and water saved, item counts, eco
points). This project models the deterministic core of its Node/Express
backend and the few pure rules of its React frontend. It proves what these
promise.

The store is three maps keyed by abstract ids: products, transactions and
users. A service call takes a store and returns an `Outcome`: the new store
plus a `Result` holding the value or the error the service throws. The
modules follow the source layout:

- `EcoImpact`: the backend estimator `calculateEcoImpact`. Its
  `Math.round(base * Math.sqrt(price / 1000))` is modelled in exact integer
  arithmetic, which stands in for the floating-point computation (see "Left
  out" for where the two can part). The result is the unique `r` with
  `(2r-1)^2 * 1000 <= 4 * base^2 * price < (2r+1)^2 * 1000` (or `r = 0`),
  found by a recursive search. `RoundsToRootIsRoundedSqrt` ties this
  characterisation to `Floor(root + 0.5)` of the real square root.
- `ProductModel`, `TransactionModel`: the Mongoose schemas as validity
  predicates, with the enums, length limits, required paths and defaults, and
  the validation error each failing path contributes.
- `Users`: the eco-stats ledger increment `updateEcoStats`.
- `ProductService`, `TransactionService`: the services. Settlement is a read
  followed by four writes without rollback.
- `Marketplace`: a store-wide invariant. Like counters match their likers, and
  each product has at most one transaction, after which it is no longer
  listed. Every mutating call keeps it once the two corrected services stand in
  for the create and the listing edit: the create drops the counters from the
  body, and the edit drops the seller and the counters from the body and keeps
  sold and removed final. The create and the edit as written do not keep it
  (see "Findings").
- `ErrorHandler`, `Auth`: the error-response middleware, token extraction
  in `protect`, and the `authorize` role check.
- `ProductController`, `TransactionController`, `UserController`: the request
  handling the controllers add on top of the services.
- `UserData`, `ProductsPage`, `SellPage`, `SignUp`, `FrontItem`: the frontend
  rules. These are the browser ledger and its linear estimator, the listing
  filter and sort, image selection, and the sign-up checks.
- `Wrappers`, `Text`, `Collections`, `Ids`, `Errors`, `Store`: shared helpers.
  These cover Option/Result, ASCII lower-casing, JavaScript's UTF-16 string
  length, substring search, trimming, a map selection with an exact-membership
  contract, and a stable insertion sort.

Points where the code's behaviour may surprise:

- An unknown category gets the estimate `{0, 0}`. The backend does not fall
  back to `Other`.
- Service errors are thrown as plain `Error`s without a status. The error
  handler therefore answers every one of them with 500, not with distinct
  not-found or forbidden statuses (`ErrorHandler.ServiceErrorsAre500`).
- `deliveryAddress` is optional even when `deliveryOption` is `delivery`.
- A participant can overwrite a transaction's status with any enum value, in
  any order (`TransactionService.StatusMayGoBackwards`).
- The owner's listing edit accepts any status, including a move from `sold`
  back to `listed`. See "Findings" below.
- `createProduct` stores the view and like counters and the likers the request
  body sends. The owner's edit `updateProduct` stores them too, and the seller
  as well. See "Findings" below.
- String lengths, both Mongoose's `maxlength` and the sign-up form's
  `password.length`, count UTF-16 code units, not characters.
- A validation failure reaches the client as 500 with Mongoose's message:
  "<Model> validation failed: <path>: <message>, ...", or "Validation failed:
  ..." for the update validators of a query.

## Model

| member | source | states |
|---|---|---|
| Text.ToLower | frontend/src/pages/Products.jsx:170-171 | lower-casing keeps the length and maps each character by itself |
| Text.ContainsMeansOccurs | frontend/src/pages/Products.jsx:170-171 | the substring test holds exactly when the needle occurs at some index of the text |
| Text.Trim | backend/models/productModel.js:7 | the trimmed title is the slice after the leading whitespace; every removed character is whitespace and neither end of the result is |
| Text.SecondWord | backend/middleware/auth.js:16 | `split(' ')[1]` is absent exactly when there is no space; otherwise it is space-free and starts right after the first space |
| EcoImpact.RoundedRootFrom | backend/services/productService.js:30-37 | the search from any admissible start ends at a value that rounds the square root of n/d |
| EcoImpact.RoundedRoot | backend/services/productService.js:30-37 | the result rounds the square root of n/d to the nearest integer |
| EcoImpact.RoundsToRootIsRoundedSqrt | backend/services/productService.js:30-37 | the integer characterisation equals `Floor(root + 0.5)` of the real square root, i.e. `Math.round(Math.sqrt(n/d))` |
| EcoImpact.RoundsToRootUnique | backend/services/productService.js:30-37 | at most one integer rounds a given square root |
| EcoImpact.RoundsToRootMono | backend/services/productService.js:30-37 | the rounded root never decreases as its argument grows |
| EcoImpact.PerfectSquareRoot | backend/services/productService.js:30 | the rounded root of m^2 is m |
| EcoImpact.Estimate | backend/services/productService.js:4-39 | an untabled category gives {0,0} (names that `Object.prototype` carries excepted, see "Left out"); a tabled one gives base times the square root of price/1000, rounded per component; outputs are non-negative |
| EcoImpact.ScaledAtSquare | backend/services/productService.js:30-37 | at price 1000·k² a base is scaled by exactly k |
| EcoImpact.EstimateAtSquarePrice | backend/services/productService.js:11-38 | at price 1000·k² a tabled category yields (co2Base·k, waterBase·k) |
| EcoImpact.BooksExamples | backend/services/productService.js:16-37 | Books at 1000 gives {10, 300}; at 4000 gives {20, 600} |
| EcoImpact.ScaledMono | backend/services/productService.js:30-37 | a scaled base does not decrease as the price rises |
| EcoImpact.EstimateMonotone | backend/services/productService.js:30-38 | for a fixed category both outputs are non-decreasing in price |
| Users.Stat | backend/services/userService.js:26 | a stats key reads as a value exactly when it belongs to the schema |
| Users.Credit | backend/services/userService.js:25-29 | every schema key grows by its delta amount and by nothing when the delta lacks it |
| Users.CreditIgnoresUnknownKeys | backend/services/userService.js:26 | delta keys outside the schema have no effect and raise no error |
| Users.CreditTwice | backend/services/userService.js:27 | two credits equal one credit of the summed delta |
| Users.CreditMonotone | backend/services/userService.js:27 | with non-negative deltas no counter decreases |
| Users.UpdateEcoStats | backend/services/userService.js:17-33 | a missing user fails with "User not found" and changes nothing; otherwise only that user's stats are credited |
| ProductModel.ParseProductStatus | backend/models/productModel.js:45-49 | a status is accepted exactly when it is listed, sold or removed |
| ProductModel.CreateRecord | backend/models/productModel.js:3-71 | creation succeeds exactly when title (trimmed, non-empty, at most 100 UTF-16 units), description (non-empty, at most 2000 units), price, category and condition enums, location and seller are valid; a failure is a Product validation error; defaults are listed, no images and {0,0}; views, likes and likers are stored as the document gives them, 0, 0 and none by default |
| ProductModel.WideTitleRejected | backend/models/productModel.js:8 | 60 characters outside the Basic Multilingual Plane are 120 UTF-16 units and fail the title's maximum length with its message |
| ProductModel.TrimIdempotent | backend/models/productModel.js:7 | trimming a trimmed title changes nothing |
| ProductModel.CreatedIsValid | backend/models/productModel.js:4-71 | a created record satisfies the schema; when the document sets neither likes nor likers it starts with no likes and no likers |
| ProductModel.ApplyPatch | backend/services/productService.js:92-95 | every path the body sets is stored, the seller, views, likes and likers included; an unset path keeps its value, the creation time is never changed, and the empty patch is the identity |
| ProductModel.PatchPreservesValid | backend/services/productService.js:92-95 | a patch that passes the validators keeps a valid record valid |
| TransactionModel.ParseDeliveryOption | backend/models/transactionModel.js:27-31 | a delivery option is accepted exactly when it is delivery or pickup |
| TransactionModel.ParseTransactionStatus | backend/models/transactionModel.js:35-39 | a status is accepted exactly when it is one of the five enum values |
| TransactionModel.CreateTransactionRecord | backend/models/transactionModel.js:3-49 | creation succeeds exactly when product, seller, buyer, price and a valid delivery option are present and any status is in the enum; the stored delivery option is the one requested; the address stays optional; the defaults are purchased and {0,0} |
| ProductService.CreateProduct | backend/services/productService.js:42-50 | the stored product's seller is the acting user and its ecoImpact the estimate of its category and price; its views, likes and likers are whatever the request sent; a validation failure stores nothing |
| ProductService.CreateProductFresh | backend/services/productService.js:42-50 | the corrected create named in Findings: it accepts exactly what the create accepts, and the new listing has no views, no likes and no likers |
| ProductService.CreateIgnoresSubmittedSellerAndImpact | backend/services/productService.js:44-47 | a seller or ecoImpact in the submitted data has no effect |
| ProductService.GetProductById | backend/services/productService.js:63-76 | a found product has views raised by exactly 1 and nothing else changes; a missing id returns nothing and leaves the store unchanged |
| ProductService.UpdateProduct | backend/services/productService.js:79-98 | not found is reported before ownership; a non-owner fails and the store is unchanged; an owner's valid patch is applied without recomputing ecoImpact |
| ProductService.UpdateProductGuarded | backend/services/productService.js:79-98 | succeeds exactly when the as-written update does and a sold or removed product keeps its status; applies the body without its seller, views, likes and likers, which keep their stored values |
| ProductService.OwnerPaths | backend/services/productService.js:92-95 | the owner's body with the seller and counter paths removed and every other path as sent, with the same validation failures |
| ProductService.DeleteProduct | backend/services/productService.js:101-116 | not found before ownership; a non-owner fails with the store unchanged; an owner's delete removes exactly that record |
| ProductService.RemoveFirst | backend/services/productService.js:127-136 | a present user: the entry at `indexOf(user)` is cut out and the likers before and after it keep their order; an absent user: the list is unchanged |
| ProductService.ToggleLikers | backend/services/productService.js:127-137 | an absent user is appended; a present one has the entry at its first index cut out, the others in order |
| ProductService.RemoveAppended | backend/services/productService.js:132-136 | removing a just-appended absent user restores the list exactly |
| ProductService.ToggleLikersTwice | backend/services/productService.js:127-137 | two toggles restore the multiset of likers, and the exact list when the user was absent |
| ProductService.Toggle | backend/services/productService.js:127-137 | like adds 1 and appends; unlike subtracts 1 and cuts out the entry at the user's first index, the other likers in order; no other field changes |
| ProductService.ToggleLikeProduct | backend/services/productService.js:119-141 | a missing product fails with "Product not found"; otherwise only that product's like state flips |
| ProductService.ToggleTwice | backend/services/productService.js:129-137 | two toggles restore likes and the multiset of likers |
| ProductService.ToggleKeepsLikesConsistent | backend/services/productService.js:129-137 | each branch keeps likes equal to the number of likers and the likers duplicate-free |
| ProductService.GetProductsByUser | backend/services/productService.js:144-148 | exactly that seller's products, whatever their status, each once, newest first |
| ProductService.GetAllProducts | backend/services/productService.js:53-60 | exactly the listed products matching the query, each once |
| TransactionService.Settle | backend/services/transactionService.js:7-46 | a missing product or one not listed fails with the store unchanged; on success the transaction snapshots price, seller and ecoImpact, the product becomes sold, and no user is added or removed |
| TransactionService.SettlementCredits | backend/services/transactionService.js:31-43 | between distinct users the buyer gains the CO2, water, one item bought and 30 points and the seller one item sold and 50 points and no CO2 or water; a seller buying their own product gains the CO2, water, one item bought, one item sold and 80 points; nobody else changes |
| TransactionService.PartialSettlement | backend/services/transactionService.js:19-37 | a missing buyer after the writes leaves the transaction stored and the product sold |
| TransactionService.SecondSettlementFails | backend/services/transactionService.js:15-29 | a second settlement of the same product fails with "This product is no longer available" and changes nothing |
| TransactionService.UpdateTransactionStatus | backend/services/transactionService.js:75-92 | not found first, then the buyer-or-seller check, both leaving the store unchanged; otherwise only the status is overwritten |
| TransactionService.StatusMayGoBackwards | backend/services/transactionService.js:88 | a completed transaction can be set back to purchased |
| TransactionService.GetUserPurchases | backend/services/transactionService.js:49-59 | exactly the transactions whose buyer is the user, each once |
| TransactionService.GetUserSales | backend/services/transactionService.js:62-72 | exactly the transactions whose seller is the user, each once |
| Marketplace.SettleKeepsConsistent | backend/services/transactionService.js:15-29 | settlement, complete or partial, keeps one transaction per product and sold products unlisted |
| Marketplace.CreateKeepsConsistent | backend/services/productService.js:42-50 | the corrected create under a fresh id keeps the store consistent |
| Marketplace.PresetLikesBreakConsistency | backend/services/productService.js:42-49 | with the create as written, a body claiming 3 likes is stored with 3 likes and no likers, so a consistent store becomes inconsistent |
| Marketplace.ViewKeepsConsistent | backend/services/productService.js:63-76 | a view keeps the store consistent |
| Marketplace.EditKeepsConsistent | backend/services/productService.js:79-98 | the guarded edit, for any body, keeps the store consistent |
| Marketplace.PatchedLikesBreakConsistency | backend/services/productService.js:92-95 | with the edit as written, the body `{likes: 7}` is stored on a product with no likers and the store is no longer consistent; the guarded edit keeps its likes at zero |
| Marketplace.DeleteKeepsConsistent | backend/services/productService.js:101-116 | a delete keeps the store consistent |
| Marketplace.LikeKeepsConsistent | backend/services/productService.js:119-141 | a like toggle keeps the store consistent |
| Marketplace.StatusKeepsConsistent | backend/services/transactionService.js:75-92 | a status overwrite keeps the store consistent |
| Marketplace.ApplyKeepsConsistent | backend/services/transactionService.js:15-29 | every mutating call, with the corrected create and the guarded edit, keeps likes equal to likers and at most one transaction per product |
| Marketplace.RelistAllowsSecondSale | backend/services/productService.js:92-95 | with the edit as written, a sold product is relisted and sold a second time, breaking one-transaction-per-product |
| Marketplace.GuardRefusesRelist | backend/services/productService.js:79-98 | the guarded edit refuses that relisting and leaves the store unchanged |
| ErrorHandler.HandleError | backend/middleware/errorHandler.js:15-28 | a truthy statusCode wins, then a non-200 response status, else 500; the message defaults to "Server Error"; success is false; the stack is present exactly outside production |
| ErrorHandler.ServiceErrorsAre500 | backend/middleware/errorHandler.js:20 | a service error reaches the client as 500 with its own message |
| Auth.ExtractToken | backend/middleware/auth.js:11-21 | a header starting with "Bearer" gives its second word and the cookie is ignored; only without one is the cookie used |
| Auth.Protect | backend/middleware/auth.js:7-46 | no token gives 401 "Not authorized to access this route"; any later failure gives 401 "Not authorized, token failed"; success names a verified, existing user |
| Auth.BearerHeaderIgnoresCookie | backend/middleware/auth.js:11-21 | with a Bearer header the cookie plays no part |
| Auth.BareBearerRefused | backend/middleware/auth.js:11-27 | a header of just "Bearer" is refused with 401 even when a cookie is present |
| Auth.Authorize | backend/middleware/auth.js:49-62 | no user gives 401; a role outside the list gives 403; otherwise the user passes |
| Auth.DenialsKeepTheirStatus | backend/middleware/errorHandler.js:20-24 | a status set before the throw reaches the client with the thrown message |
| ProductController.Choice | backend/controllers/productController.js:24-31 | a category or condition constrains only when supplied and not "All" |
| ProductController.BuildFilter | backend/controllers/productController.js:21-46 | the query carries those constraints, both optional price bounds, and the search only when supplied |
| ProductController.BuildFilterMeansRequested | backend/controllers/productController.js:21-48 | the built filter admits exactly what the request parameters ask for, joined by AND |
| ProductController.GetProducts | backend/controllers/productController.js:19-55 | the reply lists exactly the listed products the request asks for, with count equal to their number |
| ProductController.EmptyQueryAdmitsAllListed | backend/controllers/productController.js:48 | an empty query admits every product, so every listed one is returned |
| ProductController.GetProduct | backend/controllers/productController.js:60-74 | a missing id gives 404 "Product not found" with success false; otherwise the viewed product with 200 |
| TransactionController.CreateTransaction | backend/controllers/transactionController.js:7-17 | settlement runs with the authenticated user as buyer; success gives 201 and the transaction; failure gives 500 and the error's message |
| TransactionController.MissingDeliveryOptionReply | backend/controllers/transactionController.js:7-17 | a listed product requested without a delivery option stores nothing and gives 500 with "Transaction validation failed: deliveryOption: Path `deliveryOption` is required." |
| TransactionController.BodyBuyerIgnored | backend/controllers/transactionController.js:9 | a buyer named in the body has no effect |
| TransactionController.UpdateTransactionStatusHandler | backend/controllers/transactionController.js:48-68 | a missing or empty status gives 400 "Please provide a status" before the service runs, with the store unchanged |
| TransactionController.GetUserPurchasesHandler | backend/controllers/transactionController.js:22-30 | the user's purchases with count equal to their number |
| TransactionController.GetUserSalesHandler | backend/controllers/transactionController.js:35-43 | the user's sales with count equal to their number |
| UserController.ProfileFields | backend/controllers/userController.js:20-31 | only name, email, bio, location and phone that the body carries are forwarded, values verbatim including null |
| UserController.UpdateProfile | backend/controllers/userController.js:19-39 | forwarded fields overwrite the profile; absent ones keep their stored values; role and ecoStats never change |
| UserController.GetEcoStats | backend/controllers/userController.js:44-51 | the stored ecoStats of the user, or 500 when the user is missing |
| UserController.EcoStatsAfterCredit | backend/controllers/userController.js:44-51 | after a successful `updateEcoStats`, the read gives that user's stats credited by the delta, and every other user's stats as before |
| UserData.MultiplierFor | frontend/src/context/UserDataContext.jsx:101-112 | a tabled category uses its multiplier; any other, Fashion included, uses Other's (names that `Object.prototype` carries excepted, see "Left out") |
| UserData.Round | frontend/src/context/UserDataContext.jsx:116-117 | the nearest integer with halves rounded up |
| UserData.PriceFactor | frontend/src/context/UserDataContext.jsx:113 | the factor is the larger of 1 and price/1000 |
| UserData.FrontEstimate | frontend/src/context/UserDataContext.jsx:99-119 | both outputs are non-negative |
| UserData.FrontEstimateFallback | frontend/src/context/UserDataContext.jsx:112 | an untabled category, Fashion included, is estimated as Other (names that `Object.prototype` carries excepted) |
| UserData.FrontEstimateAtMostThousand | frontend/src/context/UserDataContext.jsx:113-117 | up to a price of 1000 the multipliers come out unchanged |
| UserData.FrontEstimateLinear | frontend/src/context/UserDataContext.jsx:113-117 | at price 1000·k with k ≥ 1 the multipliers are scaled by exactly k |
| UserData.FrontEstimateMonotone | frontend/src/context/UserDataContext.jsx:113-117 | for a fixed category a higher price never lowers either output |
| UserData.AddSoldProduct | frontend/src/context/UserDataContext.jsx:39-62 | one product is appended, listed, with no views and a recomputed impact; items sold +1, the impact added, 50 points; the purchases are untouched |
| UserData.AddPurchasedProduct | frontend/src/context/UserDataContext.jsx:64-86 | one purchase is appended, marked purchased, with a recomputed impact; items bought +1, the impact added, 30 points; the listings are untouched |
| UserData.PurchaseIgnoresIncomingImpact | frontend/src/context/UserDataContext.jsx:65-70 | the impact a purchase arrives with plays no part |
| UserData.SetStatus | frontend/src/context/UserDataContext.jsx:92-94 | entries with the id get the new status; all others stay as they were |
| UserData.UpdateProductStatus | frontend/src/context/UserDataContext.jsx:88-97 | only the sold list changes, and only for type "sold" or the default |
| UserData.InitialAccounted | frontend/src/context/UserDataContext.jsx:14-24 | the initial state has empty lists, zero counters and 850 points |
| UserData.AddSoldKeepsAccounted | frontend/src/context/UserDataContext.jsx:49-59 | adding a listing keeps the stats equal to what the two lists account for |
| UserData.AddPurchasedKeepsAccounted | frontend/src/context/UserDataContext.jsx:73-83 | adding a purchase keeps the stats equal to what the two lists account for |
| UserData.UpdateStatusKeepsAccounted | frontend/src/context/UserDataContext.jsx:88-97 | a status change keeps the stats equal to what the two lists account for |
| ProductsPage.FilterProducts | frontend/src/pages/Products.jsx:168-177 | a product is kept exactly when it matches the search, category, condition and inclusive price range |
| ProductsPage.FilterProductsConcat | frontend/src/pages/Products.jsx:168-177 | filtering a catalogue split in two is filtering each part, so the kept products keep catalogue order |
| ProductsPage.FilterProductsSingle | frontend/src/pages/Products.jsx:168-177 | a single product is kept, once, exactly when it passes |
| ProductsPage.FilterKeepsAll | frontend/src/pages/Products.jsx:169-177 | when every product passes, the catalogue comes back unchanged |
| ProductsPage.OpenCriteriaKeep | frontend/src/pages/Products.jsx:170-176 | an empty search, All/All and a covering range keep a product |
| ProductsPage.Listing | frontend/src/pages/Products.jsx:168-195 | the page shows a permutation of the filtered products, sorted by the chosen option |
| ProductsPage.ListingOrder | frontend/src/pages/Products.jsx:178-191 | price-low ascends and price-high descends by price; newest descends and oldest ascends by date; popular descends by views+likes; eco-impact descends by CO2+water |
| ProductsPage.UnknownSortKeepsOrder | frontend/src/pages/Products.jsx:192-193 | an unrecognised option keeps the filtered order |
| Collections.SortBy | frontend/src/pages/Products.jsx:178-195 | the sort is a permutation of its input, ordered by the key |
| Collections.SortByEqualKeysIsIdentity | frontend/src/pages/Products.jsx:192-193 | a comparator that calls every pair equal leaves the order unchanged |
| SellPage.ValidFiles | frontend/src/pages/SellPage.jsx:45-58 | a file passes exactly when its type starts with "image/" and it is at most 5·1024·1024 bytes |
| SellPage.ValidFilesConcat | frontend/src/pages/SellPage.jsx:45-58 | the check of a pick split in two is the check of each part, so the accepted files keep the picked order |
| SellPage.ValidFilesSingle | frontend/src/pages/SellPage.jsx:45-58 | a single file is accepted, once, exactly when it is valid |
| SellPage.SelectImages | frontend/src/pages/SellPage.jsx:43-76 | over the cap of 5 nothing is added; otherwise exactly the valid files are appended in order; invalid files never are |
| SellPage.SelectStaysCapped | frontend/src/pages/SellPage.jsx:60-63 | one selection never takes the count past 5 |
| SellPage.SelectBatchesCapped | frontend/src/pages/SellPage.jsx:60-63 | over any sequence of selections, each made after the previous one's loads finished, the count never exceeds 5 |
| SellPage.RemoveImage | frontend/src/pages/SellPage.jsx:100-102 | exactly the images with that id go |
| SellPage.RemoveImageConcat | frontend/src/pages/SellPage.jsx:101 | removal works piecewise, so the others keep their order |
| SellPage.RemoveAbsentId | frontend/src/pages/SellPage.jsx:101 | an id no image carries removes nothing |
| SellPage.Urls | frontend/src/pages/SellPage.jsx:128 | the listing's images are the selected data URLs in order |
| SellPage.Submit | frontend/src/pages/SellPage.jsx:108-130 | without images the submit is refused before any listing; otherwise the form with the image URLs is added as a sold product and its impact is the preview's |
| SignUp.HandleChange | frontend/src/pages/SignUp.jsx:21-27 | the named field becomes `checked` for a checkbox and `value` otherwise; other fields are unchanged |
| SignUp.HandleSubmit | frontend/src/pages/SignUp.jsx:29-52 | empty fields, then the terms box, then a password under 8 UTF-16 units, in that order; register is reached exactly when all pass, with the three values |
| SignUp.RegisteredPasswordIsLong | frontend/src/pages/SignUp.jsx:43-46 | a text password reaching register has at least 8 UTF-16 units, hence at least 4 characters |
| SignUp.WidePasswordRegisters | frontend/src/pages/SignUp.jsx:43-46 | a password of four characters outside the Basic Multilingual Plane is 8 units long and reaches register |
| SignUp.FilledFormRegisters | frontend/src/pages/SignUp.jsx:21-52 | typing all fields, with a password of at least 8 UTF-16 units, and ticking the box takes the blank form to register |
| SignUp.InitialFormRejected | frontend/src/pages/SignUp.jsx:12-36 | the blank form is refused with "Please fill in all fields" |

## Left out

- Persistence: MongoDB, `populate`, ObjectId values and their string comparison. The store is maps keyed by natural numbers. Fresh ids and clocks (`Date.now`, `createdAt`) are parameters.
- Concurrency: the read-modify-write races on views, likes and ecoStats, and interleaved settlements. Each call is one sequential state transition.
- JWT signing and verification, bcrypt, and the user model: `jwt.verify` is a parameter of `Auth.Protect`. The user model file is not part of this model; a user is a role, a profile map and the five eco-stats counters.
- Plumbing: the server, routes, `asyncHandler`, the axios client, `authService`, and every UI component. The frontend's localStorage persistence, toasts and navigation are left out too.
- EcoImpact.Estimate: prices are whole non-negative numbers. Negative, fractional and NaN prices are not modelled. The exact rounded square root replaces IEEE arithmetic; near a half the floating-point product can land on the other side once base times root is large (roughly 7·10^5 and more, e.g. the Clothing water base 2500 at prices near 7·10^7), and there the two can differ by one. A category named after a member of `Object.prototype` ("constructor", "toString", "__proto__", ...) is a truthy lookup in the source's table and yields NaN; the model gives it {0,0} as untabled.
- UserData.MultiplierFor: a category named after a member of `Object.prototype` is found by the JavaScript lookup and makes the estimate NaN; the model gives it Other's multiplier.
- UserData.FrontEstimateFallback: holds for every untabled name except those of `Object.prototype` members, which give NaN in the source.
- UserData.FrontEstimate: `parseInt` of a price is taken to succeed. A non-numeric price (NaN) is not modelled. Real arithmetic stands in for floating point.
- ProductService.GetAllProducts: the `$regex` search is case-insensitive substring search on ASCII. Regex metacharacters and non-ASCII case folding are not modelled.
- ProductController.GetProducts: price bounds are the numbers of non-empty parameters. A non-numeric bound (`Number` giving NaN) is not modelled.
- Text.Trim: whitespace is the six ASCII space characters; Unicode spaces are not.
- Text.ToLower: only ASCII letters are lowered; `toLowerCase` folds every cased letter, "É" to "é" included.
- ProductsPage.FilterProducts: the search's case folding is ASCII only, so the search "é" finds "CAFÉ" in the browser and not in the model.
- ProductModel.CreatedIsValid: likes equal the number of likers only when the document omits both counters, because the create as written stores what the body sends (see "Findings").
- Prices: `ProductInput.price`, `ProductPatch.price` and `TransactionInput.price` are whole non-negative numbers. The schemas have no `min`, so the source also stores a negative or fractional price. `ProductModel.CreateRecord`'s if-and-only-if, the update validators and the settlement are stated over whole non-negative prices only.
- ProductModel.CreateRecord: the casting of values (a price sent as a string) and body paths outside the schema, `_id` and the timestamps among them, are not modelled.
- TransactionController.CreateTransaction: several failing paths are listed in schema order; Mongoose lists them in the order its validators finish, which can differ. Cast errors are not modelled.
- SellPage.SelectImages: the FileReader loads are taken to finish in the order the files were picked. The data URLs and the random ids are parameters.
- SellPage.SelectBatchesCapped: each selection's loads are taken to finish before the next selection. The cap is checked against the rendered count, so a pick made while earlier loads are pending passes against a stale count and can take the page past 5 images.
- SellPage.Submit: fields the sell form lacks (likes, datePosted) are 0 in the listing rather than `undefined`.
- UserController.GetEcoStats: the exact TypeError message for a missing user is engine-specific. Only the 500 status is stated.
- TransactionService.Settle: the stored transaction's `datePurchased` is the supplied clock; Mongoose's casting of request fields is not modelled.

## Findings

| source | as written | input that shows it | evidently intended | confidence | as-written member | corrected member |
|---|---|---|---|---|---|---|
| backend/services/productService.js:42-49 | `createProduct` hands the request body to `Product.create`, so the `views`, `likes` and `likedBy` a client sends are stored | a create request whose body has `likes: 3` | a new listing starts from the schema defaults: no views, no likes and no likers | not executed | ProductService.CreateProduct, Marketplace.PresetLikesBreakConsistency | ProductService.CreateProductFresh, Marketplace.CreateKeepsConsistent |
| backend/services/productService.js:92-95 | the owner's update applies any status, so a sold product can be set back to listed | a product sold once (status sold, one transaction), then the owner's patch `{status: "listed"}`, then a second purchase of it | sold and removed are terminal for the listing edit, so each product is settled at most once | not executed | ProductService.UpdateProduct, Marketplace.RelistAllowsSecondSale | ProductService.UpdateProductGuarded, Marketplace.ApplyKeepsConsistent |
| backend/services/productService.js:92-95 | the owner's update hands the request body to `findByIdAndUpdate`, so the `seller`, `views`, `likes` and `likedBy` a client sends are stored | a product with no likers, then the owner's patch `{likes: 7}` | the owner edits the listing's own fields; the seller and the counters stay under the server's control | not executed | ProductService.UpdateProduct, Marketplace.PatchedLikesBreakConsistency | ProductService.UpdateProductGuarded, Marketplace.EditKeepsConsistent |
