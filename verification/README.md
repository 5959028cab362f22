# VendorConnect street-food marketplace — a Dafny model of its logic

VendorConnect is a Next.js marketplace in which street-food vendors order
supplies from wholesale suppliers. The application has no algorithmic
subsystem. Its behaviour lives in small pieces of logic spread across the
pages, the in-memory store and the auth helpers. This project lifts each
piece into a pure Dafny function over immutable records and sequences.

- Every React handler becomes a `State -> State` (or `State -> Result`)
  function.
- Every awaited remote call (the Supabase client, the store helpers a page
  calls) becomes a parameter holding the call's outcome.
- Clocks, generated ids and random draws become parameters too.

One module per source file:

| module | file | what it covers |
|---|---|---|
| `Database` | `database.dfy` | `lib/database.ts`: the in-memory users/products/orders store with its lookups, filters, appends, merge-update, delete and status update |
| `VendorDashboard` | `vendor_dashboard.dfy` | the vendor dashboard's cart (add-or-increment, clamped quantity change, total), the `₹`/`,` price parse, the supplier filter and the place-order guard |
| `Middleware` | `middleware.dfy` | the route guard: skip rules, protected prefixes and redirect targets |
| `Auth` | `auth.dfy` | `lib/auth.ts`: `sendOTP`, `verifyOTP` over a table of OTP records, `registerUser`, `loginUser`, `logoutUser`, each with its demo branch and error-as-value results |
| `OtpPage` | `otp_page.dfy` | the OTP page: query defaults, input normalisation, button conditions, verify/resend handlers and the countdown |
| `Toast` | `toast.dfy` | the toast queue (`toast`, `removeToast`) and the `useToast` guard |
| `ProfilePage` | `profile_page.dfy` | the profile edit cycle (load, edit one field, cancel, save) and the categories join/split |
| `RegisterPage` | `register_page.dfy` | the registration step machine, the category split and the submit condition |
| `SupplierDashboard` | `supplier_dashboard.dfy` | add-product validation and reset, the order-status buttons, and the status colour and icon |

Four support modules model the JavaScript built-ins the code relies on:

- `Wrappers`: `Option`, `Result`.
- `Seqs`: `filter`, `findIndex`, `find`, `splice`, each with a specification
  independent of its definition.
- `Text`: `\D` stripping, ASCII `toLowerCase`, `includes`, `join`, `split`
  and decimal rendering.
- `JsNumber`: `Number.parseInt` with `NaN`, covering white space, sign, the
  `0x` prefix and the longest digit run.

Choices made where the code is looser than its description:

- **Supplier category filter.** The code lower-cases the supplier's category
  but compares it with the selected category id as is. The filter is modelled
  that way, so it is not case-insensitive on both sides.
- **`verifyOTP` ignores its mark-verified update.** It reports success whether
  or not the update took effect. The parameter `markApplied` says whether the
  update took effect. Single use is proved only when it did.
- **Ties in the OTP query.** The query orders by `created_at` only. When two
  candidates share a creation time, the model picks the first in table
  order.
- **Falsy-string defaults.** `||` treats an empty string as missing, and the
  model does the same:
  - An ordered product whose name is `""` is recorded as "Unknown Product".
  - An empty `purpose` query parameter means "registration".

## Model

| member | source | states |
|---|---|---|
| `Database.GetVendorData` | lib/database.ts:277-280 | the result is the first user with that id and type vendor, and is None exactly when no such user exists |
| `Database.GetSupplierData` | lib/database.ts:282-285 | the result is the first user with that id and type supplier, and is None exactly when no such user exists |
| `Database.VendorSupplierDisjoint` | lib/database.ts:277-285 | both lookups succeed for one id only when two users share that id |
| `Database.GetSupplierProducts` | lib/database.ts:297-300 | every returned product is in the store and belongs to the supplier, and every product of the supplier is returned |
| `Database.GetVendorOrders` | lib/database.ts:302-305 | every returned order is in the store and was placed by the vendor, and every such order is returned |
| `Database.GetSupplierOrders` | lib/database.ts:307-310 | every returned order is in the store and is addressed to the supplier, and every such order is returned |
| `Database.ItemName` | lib/database.ts:327 | the recorded name is the first matching product's name; it is "Unknown Product" when no product has the id or the name is empty |
| `Database.OrderItems` | lib/database.ts:325-330 | one item per requested item, in order, carrying its id, quantity, price and resolved name |
| `Database.CreateOrder` | lib/database.ts:312-336 | exactly one order is appended, with status "pending", id "order-" + stamp, the requested vendor, total and address, supplier "supplier-1", and the fixed demo vendor name, vendor phone and supplier name; each item keeps its id, quantity and price and records the product's name, or "Unknown Product" when it is absent or empty; users and products are untouched |
| `Database.CreateOrderListedForVendor` | lib/database.ts:312-336 | after `createOrder` the vendor's order list is the old list with the new order at its end |
| `Database.AddProduct` | lib/database.ts:338-357 | the store grows by exactly one product at the end, existing entries are unchanged, and the new product has id "prod-" + stamp, supplier name "Kumar Wholesale", and the given name, price, unit, category, description, minimum order quantity, availability, stock and supplier id |
| `Database.AddProductListedForSupplier` | lib/database.ts:338-357 | after `addProduct` the supplier's product list gains the new product at its end if it is theirs, and is unchanged otherwise |
| `Database.MergeLaws` | lib/database.ts:364 | the spread merge: an empty patch changes nothing, re-applying a patch is idempotent, and two patches compose with the later one winning |
| `Database.UpdateProduct` | lib/database.ts:359-368 | only the first product with the id is replaced by its merge with the patch, and the length is unchanged; with no such id the store is unchanged and "Product not found" is raised |
| `Database.DeleteProduct` | lib/database.ts:370-379 | exactly the first product with the id is removed and the others keep their order; with no such id the store is unchanged and "Product not found" is raised |
| `Database.DeleteProductRemovesOne` | lib/database.ts:373-376 | the deleted store plus one product with that id is the old store as a multiset |
| `Database.UpdateOrderStatus` | lib/database.ts:381-390 | only the status field of the first order with the id changes; with no such id the store is unchanged and "Order not found" is raised |
| `Database.UpdateOrderStatusIdempotent` | lib/database.ts:384-387 | setting the same status twice leaves the store as setting it once |
| `VendorDashboard.StripPriceMarks` | app/vendor-dashboard/page.tsx:140 | the result holds no `₹` or `,`, is no longer than the input, and a single character is dropped iff it is a mark |
| `JsNumber.ParseIntSkipsSpace` | app/vendor-dashboard/page.tsx:140 | `Number.parseInt` reads past any leading white space or line terminator, including every Unicode space separator |
| `VendorDashboard.StripPriceMarksConcat` | app/vendor-dashboard/page.tsx:140 | stripping works piecewise over concatenation, so with the one-character case every other character is kept, in order |
| `VendorDashboard.ParsePriceExample` | app/vendor-dashboard/page.tsx:140 | "₹1,250" parses to 1250 |
| `VendorDashboard.ParsePriceOfRendered` | app/vendor-dashboard/page.tsx:140 | a rupee sign followed by the decimal rendering of n parses back to n |
| `VendorDashboard.IncrementAll` | app/vendor-dashboard/page.tsx:133 | items with the product id gain one unit, all other items are unchanged, and ids and length are preserved |
| `VendorDashboard.AddToCart` | app/vendor-dashboard/page.tsx:130-146 | a product already in the cart keeps the length; a new product is appended as one item with quantity 1 and the parsed price |
| `VendorDashboard.AddToCartWellFormed` | app/vendor-dashboard/page.tsx:130-146 | adding keeps product ids unique and quantities at least 1 |
| `VendorDashboard.AddExisting` | app/vendor-dashboard/page.tsx:131-133 | in a well-formed cart, adding a product present at i raises that item's quantity by one and leaves every other item as it was |
| `VendorDashboard.UpdateCartQuantity` | app/vendor-dashboard/page.tsx:154-166 | no item is invented, well-formedness is preserved, and an absent id leaves the cart unchanged |
| `VendorDashboard.UpdateCartQuantityKeeps` | app/vendor-dashboard/page.tsx:157-164 | when q + change > 0 the item's quantity becomes q + change and no other item changes |
| `VendorDashboard.UpdateCartQuantityRemoves` | app/vendor-dashboard/page.tsx:157-164 | when q + change <= 0 the item is removed and the others keep their order |
| `VendorDashboard.ReachableCartsWellFormed` | app/vendor-dashboard/page.tsx:130-166 | every cart reached by any sequence of add and quantity-change actions has unique ids and quantities at least 1 |
| `VendorDashboard.CartTotalDefined` | app/vendor-dashboard/page.tsx:226 | the total is a number exactly when every parsed price is one |
| `VendorDashboard.CartTotalUpdate` | app/vendor-dashboard/page.tsx:226 | replacing one line changes the total by the difference of the two line totals |
| `VendorDashboard.AddExistingRaisesTotal` | app/vendor-dashboard/page.tsx:226 | adding a product already in the cart raises the total by that item's price |
| `VendorDashboard.AddNewRaisesTotal` | app/vendor-dashboard/page.tsx:226 | adding a new product raises the total by its parsed price times one |
| `VendorDashboard.FilterSuppliers` | app/vendor-dashboard/page.tsx:218-224 | the result holds exactly the suppliers passing the category and query test |
| `VendorDashboard.PassesIff` | app/vendor-dashboard/page.tsx:218-224 | a supplier passes iff the category is "all" or equals its lower-cased category, and the query is empty or its lower-cased form occurs in the lower-cased supplier name or in some lower-cased product name |
| `VendorDashboard.NoFilterShowsAll` | app/vendor-dashboard/page.tsx:218-224 | with "all" and an empty query every supplier is shown, in order |
| `VendorDashboard.HandlePlaceOrder` | app/vendor-dashboard/page.tsx:168-207 | an empty cart produces no order and stays empty; otherwise one order goes to cart[0]'s supplier with one item per cart line, the typed delivery address and empty notes, and the cart is emptied only on success |
| `VendorDashboard.OrderedIsTotalShown` | app/vendor-dashboard/page.tsx:178-188 | the request's items, summed as price times quantity, give exactly the cart total shown before ordering (app/vendor-dashboard/page.tsx:226) |
| `VendorDashboard.DraftTotalOfCopy` | app/vendor-dashboard/page.tsx:181-185 | items copied line by line from a cart sum to the cart's total, by induction |
| `VendorDashboard.PlaceOrderOnce` | app/vendor-dashboard/page.tsx:169-197 | after a placed order the cart is empty, so a second press sends no request |
| `Middleware.DashboardFor` | middleware.ts:48 | vendors go to "/vendor-dashboard" and every other user type to "/supplier-dashboard" |
| `Middleware.Decide` | middleware.ts:5-58 | skipped paths, missing configuration and a failing session read all pass through |
| `Middleware.RedirectToLoginIff` | middleware.ts:34-40 | the redirect to "/login" happens iff the path is not skipped, configuration is present, there is no session and the path is protected |
| `Middleware.RedirectToDashboardIff` | middleware.ts:43-50 | a dashboard redirect happens iff there is a session, the path is exactly "/login" or "/register" and a profile was found; the target matches the user type |
| `Middleware.AuthPagesUnprotected` | middleware.ts:34-35 | neither auth page has a protected prefix |
| `Middleware.NoRedirectLoop` | middleware.ts:34-53 | feeding any redirect target back in with the same session passes through |
| `Middleware.PrefixGuardsLongerPaths` | middleware.ts:34-35 | prefix matching guards "/profiles" as well |
| `Middleware.SessionNeverBouncedFromProtected` | middleware.ts:34-51 | with a session, a protected path always passes |
| `Auth.GenerateOtp` | lib/auth.ts:27-29 | the code has exactly six decimal digits and its value is 100000 plus the draw |
| `Auth.SendOtp` | lib/auth.ts:32-61 | demo mode succeeds without storing; otherwise one unverified record expiring at the client's now + 600000, stamped with the database's creation time, is appended, or on an insert error the table is unchanged and "Failed to send OTP" is returned |
| `Auth.SelectLatest` | lib/auth.ts:79-89 | the chosen record matches phone, code and purpose, is unverified and unexpired, and has the latest creation time (ties go to the first in table order); None iff no record qualifies |
| `Auth.MarkVerified` | lib/auth.ts:96 | every record with the id is marked verified and no other record changes |
| `Auth.VerifyOtp` | lib/auth.ts:64-103 | demo mode succeeds iff the code is "123456", with the demo success or demo failure message; otherwise success iff the query answered and some record qualifies; a throw gives "Failed to verify OTP", an error or no qualifying record gives "Invalid or expired OTP", failures leave the table unchanged, and a success marks the chosen record's id verified when the update applies and leaves the table otherwise |
| `Auth.VerifiedRecordIsSpent` | lib/auth.ts:85-96 | after a successful verification whose update applied, the chosen record is verified and no longer qualifies |
| `Auth.SecondVerifyFails` | lib/auth.ts:79-96 | if the chosen record was the only one qualifying, verifying the same code again at the same time or later fails |
| `Auth.SendThenVerify` | lib/auth.ts:41-96 | a code just sent verifies with the same phone, code and purpose before it expires, and is the record chosen when every older record was created before the database stamped it |
| `Auth.ExpiredNeverChosen` | lib/auth.ts:86 | a record whose expiry is not after now is never chosen |
| `Auth.RegisterUser` | lib/auth.ts:106-172 | demo mode succeeds writing nothing; otherwise success iff sign-up, profile insert and detail insert all succeed; a failure returns the generic message; on success the vendor row (id, business name, business type, address, city, pincode) or the supplier row (id, company name, product categories, address, city, pincode, description) is appended to the table matching the user type and the other table is kept; a failed detail insert leaves both detail tables unchanged |
| `Auth.RegisterWrites` | lib/auth.ts:129-165 | after sign-up and the profile insert there is exactly one new profile row; a detail row is added iff its insert succeeded, under the user's id |
| `Auth.LoginUser` | lib/auth.ts:175-202 | demo mode succeeds with the demo user; otherwise success iff sign-in returned a user, with "Login successful" on success and the invalid-credentials message on failure |
| `Auth.LogoutUser` | lib/auth.ts:255-269 | demo mode succeeds with "Logout successful (Demo mode)"; otherwise success iff sign-out succeeded, saying "Logout successful" or "Logout failed" |
| `OtpPage.ParamOr` | app/otp-verification/page.tsx:17-18 | an absent or empty query parameter gives the fallback, and any other value is kept |
| `OtpPage.QueryDefaults` | app/otp-verification/page.tsx:17-18 | with no parameters the phone is "" and the purpose is "registration" |
| `OtpPage.Normalize` | app/otp-verification/page.tsx:115 | the result is all digits, a prefix of the input's digits, and of length min(6, number of digits) |
| `OtpPage.NormalizeIdempotent` | app/otp-verification/page.tsx:115 | normalising twice is normalising once |
| `OtpPage.NormalizeKeepsShortDigitStrings` | app/otp-verification/page.tsx:115 | a digit string of at most six characters is kept as is |
| `OtpPage.VerifyEnabledAfterTyping` | app/otp-verification/page.tsx:138 | after typing, Verify is enabled iff nothing is loading and the typed text holds at least six digits |
| `OtpPage.RedirectAfterVerify` | app/otp-verification/page.tsx:38-42 | "registration" goes to "/register?verified=true", "login" to "/login?verified=true", and any other purpose stays |
| `OtpPage.HandleVerify` | app/otp-verification/page.tsx:27-49 | loading is cleared; success sets the success text and redirects by purpose; failure shows the returned message and does not redirect |
| `OtpPage.VerifyRedirectsToRegister` | app/otp-verification/page.tsx:18 | a successful verify leads to "/register?verified=true" exactly when the purpose parameter is absent, empty or "registration" (app/otp-verification/page.tsx:38-39) |
| `OtpPage.DefaultPurposeRedirectsToRegister` | app/otp-verification/page.tsx:18 | with no or an empty purpose parameter a successful verify returns to registration |
| `OtpPage.HandleResend` | app/otp-verification/page.tsx:51-76 | resending is cleared; success starts the countdown at 60; failure shows the message and leaves the countdown alone |
| `OtpPage.Tick` | app/otp-verification/page.tsx:63-69 | a tick never yields a negative count and lowers a positive count by one |
| `OtpPage.TicksValue` | app/otp-verification/page.tsx:62-70 | after n ticks from c the count is max(0, c - n) |
| `OtpPage.ResendLockout` | app/otp-verification/page.tsx:149 | after a successful resend, Resend is enabled again after n ticks iff n >= 60 |
| `Toast.AddToast` | components/ui/toast.tsx:85-88 | exactly one entry with the props and id is appended, and earlier entries are kept in order |
| `Toast.RemoveToast` | components/ui/toast.tsx:90-92 | no entry with the id remains, nothing is invented, and every other entry stays |
| `Toast.RemoveToastSplits` | components/ui/toast.tsx:91 | removal distributes over concatenation, so the remaining entries keep their order |
| `Toast.RemoveAbsent` | components/ui/toast.tsx:91 | removing an id nobody carries leaves the list unchanged |
| `Toast.RemoveToastIdempotent` | components/ui/toast.tsx:91 | removing twice is removing once |
| `Toast.RemoveUndoesAdd` | components/ui/toast.tsx:85-92 | closing a toast just added under a fresh id restores the previous queue |
| `Toast.UseToast` | components/ui/toast.tsx:104-110 | outside a provider the hook fails with its message, and inside one it returns the context |
| `ProfilePage.SelectSub` | app/profile/page.tsx:46 | vendors edit `vendor_profiles` and every other user type edits `supplier_profiles` |
| `ProfilePage.LoadProfile` | app/profile/page.tsx:41-49 | loading ends; a fetched profile is stored and its matching sub-profile fills the buffer; edit mode and the saving flag are never touched; without a profile nothing else changes |
| `ProfilePage.HandleCancel` | app/profile/page.tsx:55-58 | edit mode ends and the buffer is the stored sub-profile again |
| `ProfilePage.SetField` | app/profile/page.tsx:81-86 | the field gets the value, every other field keeps its value, and no other field appears |
| `ProfilePage.CancelDiscardsEdits` | app/profile/page.tsx:55-86 | any run of field edits followed by cancel leaves the buffer as loading made it |
| `ProfilePage.SubKeyOf` | app/profile/page.tsx:73 | a save writes `vendor_profiles` iff the user type is "vendor" |
| `ProfilePage.HandleSave` | app/profile/page.tsx:60-79 | on success the matching sub-profile key is replaced, edit mode ends and saving ends, and every other page field (loading flag, buffer) is kept; a failed update changes nothing but ends saving; a thrown update leaves the page saving, since the handler has no `finally` |
| `ProfilePage.SaveThenCancel` | app/profile/page.tsx:55-79 | after a successful save, cancel puts the saved data in the buffer |
| `ProfilePage.TypedCategoriesShowBack` | app/profile/page.tsx:360-361 | whatever is typed into the categories field is shown back unchanged |
| `ProfilePage.CategoriesRoundTrip` | app/profile/page.tsx:360-361 | a non-empty list whose items contain no ", " survives join and split |
| `ProfilePage.EmptyCategoriesReadBackAsOneEmpty` | app/profile/page.tsx:360-361 | the empty list reads back as one empty category |
| `RegisterPage.ProductCategories` | app/register/page.tsx:73 | the business type is cut at every comma: at least one category, no category contains ',', and joining them with "," gives the business type back |
| `Text.SplitCharPieces` | app/register/page.tsx:73 | no piece of a split at a one-character separator contains that character |
| `RegisterPage.ProductCategoriesJoin` | app/register/page.tsx:73 | joining the categories with "," gives back the business type exactly, so nothing is trimmed or lost |
| `RegisterPage.ProductCategoriesKeepSpaces` | app/register/page.tsx:73 | "a, b" splits into "a" and " b" |
| `RegisterPage.RegisterRequest` | app/register/page.tsx:62-77 | the request carries the fixed password, the user type, the split categories, the business name as both business and company name, and the form's email, phone, name, username, business type, address, city, pincode and description |
| `RegisterPage.DashboardFor` | app/register/page.tsx:83 | vendors go to "/vendor-dashboard" and everyone else to "/supplier-dashboard" |
| `RegisterPage.HandleSubmit` | app/register/page.tsx:46-94 | form goes to otp iff the OTP was sent, else shows its message; otp goes to success iff verification and registration both succeed, with the error cleared, else shows the failing message; loading always ends; only success redirects |
| `RegisterPage.StepsOnlyAdvance` | app/register/page.tsx:51-90 | a submit moves at most one step forward and never back |
| `RegisterPage.SubmitEnabledAfterSubmit` | app/register/page.tsx:449 | after any submit the button is enabled iff the terms are agreed |
| `SupplierDashboard.BuildRecord` | app/supplier-dashboard/page.tsx:131-141 | the record is active, belongs to the profile id, carries the form's name, category, unit, description and price text, and the parsed stock and minimum order quantity |
| `SupplierDashboard.HandleAddProduct` | app/supplier-dashboard/page.tsx:121-161 | a form missing name, price or stock sends nothing, keeps the form and shows the warning; otherwise the record is sent, and a success resets the form to empty fields with unit "kg" and minimum "1" |
| `SupplierDashboard.SentRecordsAreActive` | app/supplier-dashboard/page.tsx:131-141 | every record sent is active, is the profile's, and has a name and price |
| `SupplierDashboard.ResetFormNeedsRefill` | app/supplier-dashboard/page.tsx:150-158 | the reset form fails the required-field check and its minimum order quantity parses to 1 |
| `SupplierDashboard.NextStatus` | app/supplier-dashboard/page.tsx:526-543 | "confirmed" offers "processing", "processing" offers "delivered" in the orders tab, and any other status offers nothing |
| `SupplierDashboard.ProgressionEnds` | app/supplier-dashboard/page.tsx:526-543 | following the buttons from any status stops within two clicks, and "confirmed" ends at "delivered" |
| `SupplierDashboard.NoSelfTransition` | app/supplier-dashboard/page.tsx:526-543 | no status offers a move to itself |
| `SupplierDashboard.OverviewOffersLess` | app/supplier-dashboard/page.tsx:464-472 | any move the overview offers is the same one the orders tab offers |
| `SupplierDashboard.BadgeAgrees` | app/supplier-dashboard/page.tsx:252-276 | colour and icon agree: the same colour iff the same icon, unknown statuses get the grey default and alert icon, and the three known statuses get three distinct badges |

## Left out

- Remote I/O is not modelled. This covers the Supabase client, the
  `otp_verifications`/`profiles` tables as a live service, and
  `isSupabaseConfigured` (lib/supabase.ts is not part of this model). Each
  call is replaced by a parameter holding its outcome.
- Time, ids and randomness are parameters:
  - `Date.now()` ids and times: `stamp`, `now`.
  - The `created_at` stamp the database gives an OTP record: `createdAt`.
  - The random draw of `generateOTP`: `k`.
  - Toast ids.
  - The `delay` before each store call is dropped.
- Timers, rendering and navigation are not modelled:
  - the toast auto-close, `setTimeout` before a redirect, and `setInterval`
    scheduling (the countdown is modelled tick by tick);
  - JSX, CSS class names other than the status colours, and the navigation
    that `window.location` performs (the target is returned instead).
- The Next.js `matcher` configuration (middleware.ts:60-71) is not modelled.
  It is framework routing that decides whether the middleware runs at all.
- `getSuppliers` and `getProducts` (lib/database.ts:287-295) are not
  modelled: each returns its whole table.
- `getCurrentUserProfile` (lib/auth.ts:205-252) is not modelled. Its answer
  is the `fetched` parameter of `ProfilePage.LoadProfile`.
- Toasts shown by the vendor dashboard are not modelled:
  - "Added to cart" on every add;
  - the empty-cart, order-placed and order-failed toasts.
- The supplier dashboard's other handlers are not modelled: logout, update
  status, update product and delete product. They only forward to store
  functions with a different result shape.
- The register form's field setter is not modelled, nor the HTML
  `required`/`maxLength` attributes.
- The OTP input's `maxLength={6}` (app/otp-verification/page.tsx:118) is not
  modelled. The browser cuts pasted text to six characters before the
  change handler runs. `OtpPage.VerifyEnabledAfterTyping` describes the
  handler's input, so a pasted "12a3456" enables Verify there but not in a
  browser.
- `updateVendorProfile` and `updateSupplierProfile` are imported by the
  profile page from lib/database.ts, which does not define them. Their
  answer is the `saved` parameter of `ProfilePage.HandleSave`, and its
  `SaveThrew` case covers the call failing.
- The dashboards' store calls do not match lib/database.ts as written.
  `placeOrder`, `getOrdersBySupplier` and `getProductsBySupplier` are not
  exported by it, and its `addProduct` returns the product itself, with no
  `success` field. The `placed` parameter of
  `VendorDashboard.HandlePlaceOrder` and the `added` parameter of
  `SupplierDashboard.HandleAddProduct` therefore stand for outcomes the
  current wiring cannot produce. The wiring itself is not modelled.
- `Database.UpdateOrderStatus`: lib/database.ts:386 sets the status on the
  stored order object in place. Order lists returned earlier share that
  object and so see the new status. The model's values are immutable, so
  that aliasing is not modelled.
- `SupplierDashboard.BuildRecord`: the price is kept as the typed text,
  because `Number.parseFloat` is floating-point.
- `Database.GetSupplierProducts`: the ensures state membership in both
  directions. Store order is fixed by the append lemmas and
  `Seqs.FilterConcat`, not by the ensures.
- `Database.GetVendorOrders`: order is stated the same way, through
  `Database.CreateOrderListedForVendor` and `Seqs.FilterConcat`.
- `Database.GetSupplierOrders`: order is stated only through
  `Seqs.FilterConcat`.
- `VendorDashboard.FilterSuppliers`: the ensures state membership.
  `VendorDashboard.NoFilterShowsAll` and `Seqs.FilterConcat` state the order.
- Product prices and order totals in `Database` are integers, where
  lib/database.ts types them `number`. The store only copies these values,
  never computes with them, so the choice does not change any result.
- `VendorDashboard.CartTotalDefined`: numbers are unbounded integers. Float
  precision beyond 2^53 is not modelled, and `parseInt` only ever yields
  integers.
- `Auth.RegisterUser`: of the returned user only the id is modelled.
- `Auth.VerifyOtp`: an error object from the lookup is modelled apart from a
  thrown exception. The update's own error is reduced to `markApplied`. A
  throw from that update is not modelled; it would turn the result into
  "Failed to verify OTP".
- `ProfilePage.HandleCancel` and `ProfilePage.HandleSave` require a loaded
  profile. Their buttons only exist once one is shown, and the source reads
  `profile.user_type` without a null check.
- `ProfilePage.ShowCategories`: a categories field holding text rather than
  a list is not modelled. The change handler always stores a list.
- Unicode case mapping is not modelled: `toLowerCase` is ASCII-only.
