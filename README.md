# Room.tn storefront — a verified model

This project is a Dafny model of the Room.tn t-shirt shop: an Express back end and a React front end.
It takes the rules of its pages and services and proves what they promise:

- the catalogue query of the category page: gender filter, price/colour/size filters, three sort orders, de-duplicated filter lists and toggles;
- the admin product form: list edits, image handling, and the multipart body built on submit;
- the admin product, admin-account and order lists, with:
  - optimistic deletes with rollback;
  - replace-by-id and prepend-on-create;
  - bulk approve and bulk refuse, gated on a super administrator and sparing a protected email;
- the order controller: an id-to-order store with unguarded status writes, a 404 for unknown ids, a newest-first listing and numbered invoice lines;
- the bearer-token chain: the client interceptor that builds the `Authorization` header, the back-end middleware that parses it and gates on the role (401, 403 or pass), and the client's 401 logout handler;
- the small UI rules:
  - the product page's quantity stepper, add-to-cart guard and favourite toggle;
  - the card's badges and "+N" previews;
  - the home page's featured list, quick add and hero carousel;
  - the admin form's empty-password omission;
  - the mock sign-in/sign-up/sign-out session.

Modelling conventions:
- Each source file is one module.
- Shared helpers live in `Seqs` (filter, subsequence, map, dedup, stable insertion sort), `Text` (`trim`, `split(' ')`, ASCII case mapping) and `Colors` (the colour table the three colour helpers share).
- Money is integer millimes (1 TND = 1000 millimes). The price slider's default range [0, 200] TND is [0, 200000] millimes.
- Code that only computes a value is a function with lemmas.
- State that the source updates in place is a class whose methods state the whole new state.
- Anything outside the program is a parameter of the model:
  - a request's outcome is a `Response` (`Success(body)` or `Failure`);
  - a `confirm()` answer is a boolean;
  - `localeCompare` is a `compareNames` function;
  - `jwt.verify` is a partial `verify` function;
  - `URL.createObjectURL` is an `objectUrl` function;
  - the current time is a `now` string.
- A JavaScript `sort` with the page's comparator is a stable insertion sort. Sortedness is proved for comparators that are total and transitive: the two price comparators are, and `compareNames` is assumed so through a predicate.

Three behaviours the model follows as the code has them:
- Toggling the same order id twice restores the earlier expanded state only when nothing, or that same order, was expanded before. Otherwise the first toggle selects the id and the second collapses it to nothing.
- The product list replaces the edited product by the id the server returns. The order list replaces by the id that was requested.
- `OrderManagement.tsx` imports an `orders` client that `project/src/services/api.ts` does not export. The order requests are therefore parameters of the model, with outcomes given as `Response` values.

## Model

| member | source | states |
|---|---|---|
| Colors.ColorMapValuesAreHex | project/src/components/ProductCard.tsx:21-39 | every entry of the 17-name colour table is a six-digit hex code |
| Colors.SwatchSpec | project/src/pages/ProductDetail.tsx:93-114 | a known colour name gets its table code and any other string '#CCCCCC'; the swatch is always a valid hex colour |
| CategoryPage.GenderFilterSpec | project/src/pages/CategoryPage.tsx:18-23 | route 'homme' keeps exactly the homme products, 'femme' the femme ones, 'enfant' only unisexe ones; any other route value keeps the whole catalogue |
| CategoryPage.FinalProductsSpec | project/src/pages/CategoryPage.tsx:26-32 | a product is shown iff it passes the gender filter, min ≤ price ≤ max inclusive, shares a colour with the selection (or none is selected) and shares a size with it (or none is selected); a shown product is listed as often as in the catalogue |
| CategoryPage.FinalProductsOrder | project/src/pages/CategoryPage.tsx:18-32 | the filtered list is a subsequence of the gender-filtered list, which is a subsequence of the catalogue |
| CategoryPage.SortedIsPermutation | project/src/pages/CategoryPage.tsx:35-46 | sorting yields a permutation of the filtered list, so the displayed count is its length |
| CategoryPage.PriceLowOrder | project/src/pages/CategoryPage.tsx:37-38 | 'price-low' lists prices in non-decreasing order |
| CategoryPage.PriceHighOrder | project/src/pages/CategoryPage.tsx:39-40 | 'price-high' lists prices in non-increasing order |
| CategoryPage.NameOrder | project/src/pages/CategoryPage.tsx:41-42 | 'name' lists products ordered by the name comparator, for any consistent comparator |
| CategoryPage.OtherKeyKeepsOrder | project/src/pages/CategoryPage.tsx:43-44 | any other sort key leaves the filtered order unchanged |
| CategoryPage.AllColorsSpec | project/src/pages/CategoryPage.tsx:69 | the colour list holds each colour of the gender-filtered products exactly once and nothing else |
| CategoryPage.AllSizesSpec | project/src/pages/CategoryPage.tsx:70 | the size list holds each size of the gender-filtered products exactly once and nothing else |
| CategoryPage.ToggleSizeSpec | project/src/pages/CategoryPage.tsx:156-162 | toggling an unselected size appends it; toggling a selected one removes every copy and keeps every copy of the other sizes, in order; toggling twice from unselected restores the selection |
| CategoryPage.ColorCheckboxIsToggle | project/src/pages/CategoryPage.tsx:134-140 | checking an unchecked colour or unchecking a checked one acts exactly like the size toggle |
| CategoryPage.ToggleKeepsNoDups | project/src/pages/CategoryPage.tsx:156-162 | a duplicate-free selection stays duplicate-free under a toggle |
| CategoryPage.ReachableFilters | project/src/pages/CategoryPage.tsx:115 | over any series of sort, slider, colour and size events the lower price bound stays 0 and both selections stay duplicate-free |
| CategoryPage.InitialFiltersSpec | project/src/pages/CategoryPage.tsx:12-15 | the filters start with sort 'name' and range [0, 200] TND, and the lower bound is 0 after any events |
| ProductForm.CleanSizesSpec | project/src/pages/admin/ProductForm.tsx:132-133 | submitted sizes are exactly the entries among XS, S, M, L, XL and XXL, each as often as it was entered, in their original order; cleaning twice changes nothing |
| ProductForm.CleanColorsSpec | project/src/pages/admin/ProductForm.tsx:129 | submitted colours are the non-empty entries, in order, each sent as {name: c, code: c} |
| ProductForm.ImageEntriesSpec | project/src/pages/admin/ProductForm.tsx:139-143 | the image entries are the form's new files, each exactly once and in list order (the k-th entry carries the k-th `File`); existing URLs are never sent |
| ProductForm.SubmissionHeader | project/src/pages/admin/ProductForm.tsx:122-137 | the first seven entries are `name` = trim(name) and `description` = trim(description), both without surrounding whitespace, then the price, the cleaned colours, the cleaned whitelisted sizes, the stock and `is_new` = 'true' |
| Text.TrimKeepsMiddle | project/src/pages/admin/ProductForm.tsx:123-124 | `trim` keeps one contiguous middle part of its input and removes only whitespace before and after it |
| ProductForm.SubmissionFiles | project/src/pages/admin/ProductForm.tsx:139-143 | after those seven entries the body holds one `images` entry per new file of the form, in list order, and nothing else |
| ProductForm.RemoveImageAsWrittenKeepsFiles | project/src/pages/admin/ProductForm.tsx:84-97 | as written, when no fresh object URL equals a preview, removing an image never drops a new file |
| ProductForm.RemoveImageAsWrittenCounterexample | project/src/pages/admin/ProductForm.tsx:84-102 | as written, removing the only new file empties the previews but still uploads the file |
| ProductForm.RemoveImageSpec | project/src/pages/admin/ProductForm.tsx:84-100 | the intended removal drops position `index` from both lists, keeps the rest in order and keeps them parallel |
| ProductForm.RemoveImageDropsFile | project/src/pages/admin/ProductForm.tsx:84-100 | the intended removal of the only new file leaves nothing to upload |
| ProductForm.AppendFilesKeepsParallel | project/src/pages/admin/ProductForm.tsx:74-80 | appending the chosen files and their object URLs keeps images and previews parallel |
| ProductForm.AppendImages | project/src/pages/admin/ProductForm.tsx:139-143 | the loop appends exactly the image entries of the new files, in order |
| ProductForm.Form.constructor | project/src/pages/admin/ProductForm.tsx:22-55 | a new form has empty fields, one empty size and one empty colour, and no previews; an edited product is prefilled and its URLs become the previews |
| ProductForm.Form.HandleChange | project/src/pages/admin/ProductForm.tsx:57-66 | the named field takes the new value and nothing else changes |
| ProductForm.Form.HandleImageChange | project/src/pages/admin/ProductForm.tsx:68-82 | the chosen files are appended to the images and their object URLs to the previews, in order; no file list changes nothing |
| ProductForm.Form.RemoveImage | project/src/pages/admin/ProductForm.tsx:84-102 | the image and preview at `index` are removed together (corrected behaviour) |
| ProductForm.Form.HandleArrayChange | project/src/pages/admin/ProductForm.tsx:104-108 | exactly position `index` of the chosen list is replaced; length, the other entries and the other list are unchanged; the in-range index it requires holds at every call site, which passes the position of a rendered entry (lines 203-207 and 224-236) |
| ProductForm.Form.AddArrayItem | project/src/pages/admin/ProductForm.tsx:110-112 | one empty entry is appended to the chosen list |
| ProductForm.Form.RemoveArrayItem | project/src/pages/admin/ProductForm.tsx:114-117 | exactly the entry at `index` is removed and the rest keep their order |
| ProductForm.Form.HandleSubmit | project/src/pages/admin/ProductForm.tsx:119-145 | the multipart body is the header entries followed by the new files |
| ProductManagement.MapFromBackendDefaults | project/src/pages/admin/ProductManagement.tsx:15-31 | id, name, description, price, category and creation date are copied; a missing stock gives 0, a missing `is_featured` gives false, missing sizes, colours or images give [] |
| ProductManagement.MapFromBackendLists | project/src/pages/admin/ProductManagement.tsx:23-25 | the image count is kept with each URL prefixed by the host; each colour becomes the string itself, else its name, else its code, else '' |
| ProductManagement.ColorStylePassThrough | project/src/pages/admin/ProductManagement.tsx:63-66 | a 3- or 6-digit hex string, or one starting with 'rgb(' or 'rgba(' in any case, is returned unchanged |
| ProductManagement.ColorNamesAreNotCodes | project/src/pages/admin/ProductManagement.tsx:63-86 | no name of the colour table is a hex or rgb string, so table names always reach the lookup |
| ProductManagement.ColorStyleKnownName | project/src/pages/admin/ProductManagement.tsx:86 | a table name maps to its hex code, the same one the card and the product page use |
| ProductManagement.ColorStyleCapitalised | project/src/pages/admin/ProductManagement.tsx:87-88 | a name that is not in the table is retried in capitalised form |
| ProductManagement.ColorStyleLowerCaseExample | project/src/pages/admin/ProductManagement.tsx:87-88 | 'noir' resolves to '#000000' |
| ProductManagement.ColorStyleFallback | project/src/pages/admin/ProductManagement.tsx:89 | anything else is returned as given, or '#CCCCCC' when empty |
| ProductManagement.ColorStyleNonEmpty | project/src/pages/admin/ProductManagement.tsx:62-90 | the style is never empty: the input, a table code or the fallback grey |
| ProductManagement.WithoutProductSpec | project/src/pages/admin/ProductManagement.tsx:96 | deleting removes exactly the products with that id, every occurrence of the others stays, and their order is kept |
| ProductManagement.ReplaceProductSpec | project/src/pages/admin/ProductManagement.tsx:116 | an update replaces exactly the products whose id matches the saved one and keeps the length |
| ProductManagement.ProductList.constructor | project/src/pages/admin/ProductManagement.tsx:9-11 | the page starts with no products and a closed modal |
| ProductManagement.ProductList.Load | project/src/pages/admin/ProductManagement.tsx:33-44 | a loaded list is the mapped response (null gives []); a failed load changes nothing |
| ProductManagement.ProductList.HandleDelete | project/src/pages/admin/ProductManagement.tsx:92-99 | a confirmed delete that succeeds removes the product; an unconfirmed or failed one leaves the list as before (rollback) |
| ProductManagement.ProductList.HandleOpenModal | project/src/pages/admin/ProductManagement.tsx:101-104 | the modal opens on the given product, or on none |
| ProductManagement.ProductList.HandleCloseModal | project/src/pages/admin/ProductManagement.tsx:106-109 | the modal closes and nothing is being edited |
| ProductManagement.ProductList.HandleFormSubmit | project/src/pages/admin/ProductManagement.tsx:111-128 | a saved edit replaces by id, a saved creation is prepended, and both close the modal; a failure changes nothing |
| UserManagement.MapFromBackendRoundTrip | project/src/pages/admin/UserManagement.tsx:16-23 | the mapping copies `_id`, `createdAt` and `isApproved` unchanged and loses nothing: it is inverted by the reverse mapping |
| UserManagement.SessionNeverSuperAdmin | project/src/pages/admin/UserManagement.tsx:94 | the shopper session only holds customers, so the super-administrator gate never opens for it |
| UserManagement.SucceededIds | project/src/pages/admin/UserManagement.tsx:98-101 | the collected ids are exactly the non-empty ids of targets whose request was fulfilled |
| UserManagement.ApproveAllSpec | project/src/pages/admin/UserManagement.tsx:95-102 | exactly the pending admins whose approval succeeded become approved; every other admin and the order are unchanged |
| UserManagement.RefuseAllSpec | project/src/pages/admin/UserManagement.tsx:110-118 | only pending admins other than 'admin@room.tn' are targeted, and exactly those whose delete succeeded are removed |
| UserManagement.ApproveAllSucceeding | project/src/pages/admin/UserManagement.tsx:98-102 | when every approval succeeds no admin is left pending |
| UserManagement.FormRequest | project/src/pages/admin/UserManagement.tsx:55-74 | editing sends an update for the edited id; creating sends the form's name, email and password with the chosen non-empty role, and the role is 'admin' iff the form's role is missing, empty or 'admin' |
| UserManagement.UpdateCarriesNoPassword | project/src/pages/admin/UserManagement.tsx:58-62 | an update carries name, email and role as given and never the password |
| UserManagement.AdminList.constructor | project/src/pages/admin/UserManagement.tsx:11-13 | the page starts with no admins and a closed modal |
| UserManagement.AdminList.Load | project/src/pages/admin/UserManagement.tsx:25-35 | a loaded list is the mapped response (null gives []); a failed load changes nothing |
| UserManagement.AdminList.HandleDelete | project/src/pages/admin/UserManagement.tsx:37-43 | a confirmed delete that succeeds removes exactly that admin; otherwise the previous list is restored |
| UserManagement.AdminList.HandleOpenModal | project/src/pages/admin/UserManagement.tsx:45-48 | the modal opens on the given admin, or on none |
| UserManagement.AdminList.HandleCloseModal | project/src/pages/admin/UserManagement.tsx:50-53 | the modal closes and nothing is being edited |
| UserManagement.AdminList.HandleFormSubmit | project/src/pages/admin/UserManagement.tsx:55-80 | the request is the form's; a saved edit replaces by id and a creation is prepended, closing the modal; a failure changes nothing |
| UserManagement.AdminList.HandleApprove | project/src/pages/admin/UserManagement.tsx:82-91 | a successful approval replaces the matching admin by the returned one; a failure changes nothing |
| UserManagement.AdminList.HandleApproveAll | project/src/pages/admin/UserManagement.tsx:93-106 | nothing is requested or changed unless the user is super_admin and an admin is pending; otherwise one approval per pending admin and the list becomes the bulk approval |
| UserManagement.AdminList.HandleRefuseAll | project/src/pages/admin/UserManagement.tsx:108-122 | nothing happens unless the user is super_admin, a refusable admin exists and the user confirms; otherwise one delete per refusable admin and the successful ones are removed |
| OrderManagement.ToggleExpandedSpec | project/src/pages/admin/OrderManagement.tsx:67-69 | toggling the expanded id collapses it, toggling another id selects it; toggling twice restores the state iff it was empty or that id |
| OrderManagement.StatusBadgeSpec | project/src/pages/admin/OrderManagement.tsx:71-78 | 'pending', 'approved' and 'rejected' get three distinct classes and every other value the grey default |
| OrderManagement.ReplaceOrderSpec | project/src/pages/admin/OrderManagement.tsx:52 | the orders with the requested id are replaced by the returned order; length and all other orders are unchanged |
| OrderManagement.OrderList.constructor | project/src/pages/admin/OrderManagement.tsx:27-30 | the page starts empty, loading, with nothing expanded and no error |
| OrderManagement.OrderList.Load | project/src/pages/admin/OrderManagement.tsx:33-47 | a loaded list is the response; a failure sets the load error; loading ends either way |
| OrderManagement.OrderList.ApplyStatusResponse | project/src/pages/admin/OrderManagement.tsx:51-55 | a returned order replaces the requested one; a failed request leaves the list unchanged |
| OrderManagement.OrderList.HandleApprove | project/src/pages/admin/OrderManagement.tsx:49-56 | asks to approve that id; on success the order is replaced, on failure the list is unchanged |
| OrderManagement.OrderList.HandleReject | project/src/pages/admin/OrderManagement.tsx:58-65 | asks to reject that id; on success the order is replaced, on failure the list is unchanged |
| OrderManagement.OrderList.ToggleExpandOrder | project/src/pages/admin/OrderManagement.tsx:67-69 | the expanded id follows the toggle rule and nothing else changes |
| OrdersController.WithStatusSpec | backend/controllers/ordersController.js:19-23 | a status write changes only that order's status; an unknown id leaves the store unchanged |
| OrdersController.WithStatusUnguarded | backend/controllers/ordersController.js:16-47 | status writes are unguarded: each is idempotent and the last of two writes wins |
| OrdersController.ApproveThenReject | backend/controllers/ordersController.js:16-47 | approving then rejecting leaves the order rejected, and the reverse leaves it approved |
| OrdersController.NewestFirstConsistent | backend/controllers/ordersController.js:7 | the newest-first order on `createdAt` is a consistent comparator |
| OrdersController.OrderStore.constructor | backend/controllers/ordersController.js:1 | the store holds the given orders, each under its own id |
| OrdersController.OrderStore.List | backend/controllers/ordersController.js:5-13 | the listing holds every stored order exactly once, newest first |
| OrdersController.OrderStore.SetStatus | backend/controllers/ordersController.js:19-25 | a known id gets the status and the updated order is returned; an unknown id gets 404 'Commande introuvable' and no change |
| OrdersController.OrderStore.Approve | backend/controllers/ordersController.js:16-30 | approve sets 'approved' and returns the updated order, or 404 for an unknown id |
| OrdersController.OrderStore.Reject | backend/controllers/ordersController.js:33-47 | reject sets 'rejected' and returns the updated order, or 404 for an unknown id |
| OrdersController.OrderStore.Pdf | backend/controllers/ordersController.js:50-88 | an unknown id gets 404; otherwise the header lines, one item line per item numbered 1..n in item order, then the total |
| AuthMiddleware.MissingHeader | backend/middleware/auth.js:7-9 | a missing header, or one not starting with 'Bearer ', gets 401 'Aucun token fourni' whatever verify would say |
| AuthMiddleware.TokenExtraction | backend/middleware/auth.js:11 | the token is the second space-separated field: the text after 'Bearer ' up to the next space |
| AuthMiddleware.VerifyFailure | backend/middleware/auth.js:25-28 | a token that fails verification gets 401 'Token invalide ou expiré' |
| AuthMiddleware.RoleGate | backend/middleware/auth.js:18-20 | a verified token passes iff its role is exactly 'admin'; any other role, 'super_admin' included, gets 403 |
| AuthMiddleware.OutcomeCases | backend/middleware/auth.js:7-28 | every request gets exactly one of 401, 403 or next, and next only with an admin payload |
| AuthMiddleware.Request.constructor | backend/middleware/auth.js:5 | a request carries its header and no user yet |
| AuthMiddleware.Request.Authenticate | backend/middleware/auth.js:7-28 | the outcome is the middleware's decision, and on next `req.user` is the decoded payload |
| Api.StripApiSuffix | project/src/services/api.ts:5 | the leftmost match of an optional slash, 'api' and an optional slash at the end is removed, and nothing else |
| Api.AssetsBaseValue | project/src/services/api.ts:4-5 | the asset base is 'http://localhost:5000', the API URL without '/api' |
| Api.AuthorizationForSpec | project/src/services/api.ts:16-19 | the header is added iff a non-empty token is stored, and it is then 'Bearer ' followed by the token |
| Api.HeaderRoundTrip | project/src/services/api.ts:18 | the middleware parses the built header back into the same token, for any non-empty token without spaces |
| Api.Browser.constructor | project/src/services/api.ts:16 | the browser state holds the given storage and location |
| Api.Browser.GetItem | project/src/services/api.ts:16 | a stored key reads its value and a missing key reads nothing |
| Api.RequestConfig.constructor | project/src/services/api.ts:15 | a request configuration holds the given headers |
| Api.InterceptRequest | project/src/services/api.ts:15-21 | with a stored non-empty token the Authorization header is set to the bearer header; otherwise the headers are unchanged |
| Api.InterceptError | project/src/services/api.ts:24-35 | a 401 removes 'token' and 'userInfo' and goes to '/admin'; other errors leave storage and location alone; the error is always rejected unchanged |
| ProductDetail.FindProduct | project/src/pages/ProductDetail.tsx:16 | the first catalogue product with the route id, and none iff no product has it or the id is missing |
| ProductDetail.DisplayedImage | project/src/pages/ProductDetail.tsx:125 | the selected picture when it exists and is non-empty, otherwise the first one |
| ProductDetail.ColorStyle | project/src/pages/ProductDetail.tsx:93-114 | a known colour gets its table code and anything else '#CCCCCC' |
| ProductDetail.StepSpec | project/src/pages/ProductDetail.tsx:239-246 | plus adds exactly 1 and minus subtracts 1 but never goes below 1 |
| ProductDetail.StepsStayPositive | project/src/pages/ProductDetail.tsx:48 | from a quantity of at least 1, no series of clicks goes below 1 or above the start plus the clicks |
| ProductDetail.MinusClicks | project/src/pages/ProductDetail.tsx:239 | k minus clicks give max(1, q − k) |
| ProductDetail.PlusClicks | project/src/pages/ProductDetail.tsx:246 | k plus clicks give q + k |
| ProductDetail.FavoriteClicksAlternate | project/src/pages/ProductDetail.tsx:25-44 | each click flips the flag and the calls alternate: remove when favourited before the click, add otherwise |
| ProductDetail.ProductDetailPage.constructor | project/src/pages/ProductDetail.tsx:14-49 | the page looks up the product, takes its favourite flag from the context, and starts with no size or colour, quantity 1 and the first image |
| ProductDetail.ProductDetailPage.Decrement | project/src/pages/ProductDetail.tsx:239 | the quantity becomes max(1, q − 1) and nothing else changes |
| ProductDetail.ProductDetailPage.Increment | project/src/pages/ProductDetail.tsx:246 | the quantity becomes q + 1 and nothing else changes |
| ProductDetail.ProductDetailPage.SelectSize | project/src/pages/ProductDetail.tsx:221 | the clicked size becomes the selection |
| ProductDetail.ProductDetailPage.SelectColor | project/src/pages/ProductDetail.tsx:195 | the clicked colour becomes the selection |
| ProductDetail.ProductDetailPage.SelectImage | project/src/pages/ProductDetail.tsx:135 | the clicked thumbnail becomes the selected image |
| ProductDetail.ProductDetailPage.MainImage | project/src/pages/ProductDetail.tsx:125 | the large picture follows the image fallback rule |
| ProductDetail.ProductDetailPage.HandleAddToCart | project/src/pages/ProductDetail.tsx:75-91 | the cart is called iff both a size and a colour are selected, with them and the quantity; otherwise it is untouched |
| ProductDetail.ProductDetailPage.HandleFavoriteClick | project/src/pages/ProductDetail.tsx:25-44 | with a product, removes it when favourited and adds it otherwise, then flips the flag; without one nothing happens |
| ProductCard.MainImage | project/src/components/ProductCard.tsx:49 | the first picture when it is non-empty, otherwise the stock placeholder; never empty |
| ProductCard.BadgesSpec | project/src/components/ProductCard.tsx:70-85 | 'Nouveau' iff featured, 'Stock Limité' iff 0 < stock < 5, 'Épuisé' iff stock = 0; the two stock badges never show together |
| ProductCard.PreviewOf | project/src/components/ProductCard.tsx:106-123 | an empty list shows nothing; otherwise the first min(n, limit) entries, with "+(n − limit)" iff n > limit |
| ProductCard.PreviewAccountsForAll | project/src/components/ProductCard.tsx:110-120 | the shown entries plus the "+N" count make up the whole list |
| ProductCard.ColorPreview | project/src/components/ProductCard.tsx:106-123 | at most four colour swatches, then "+N" |
| ProductCard.SizePreview | project/src/components/ProductCard.tsx:126-140 | at most five sizes, then "+N" |
| ProductCard.SwatchOf | project/src/components/ProductCard.tsx:20-41 | a known colour gets its table code and anything else '#CCCCCC' |
| ProductCard.PreviewSwatches | project/src/components/ProductCard.tsx:110-117 | one valid hex swatch per shown colour, in order |
| ProductCard.SixColorsExample | project/src/components/ProductCard.tsx:110-120 | six colours show the first four and "+2" |
| Home.FeaturedProductsSpec | project/src/pages/Home.tsx:20 | the featured list is the subsequence of the catalogue holding every occurrence of each featured product and nothing else |
| Home.First | project/src/pages/Home.tsx:23-24 | the first entry, undefined for an empty list |
| Home.QuickAddRequest | project/src/pages/Home.tsx:22-27 | quick add asks for one unit in the product's first size and first colour |
| Home.QuickAddWithoutChoices | project/src/pages/Home.tsx:22-27 | a product without sizes or colours is still added, with both left undefined |
| Home.NextIndexSpec | project/src/pages/Home.tsx:32-34 | the step keeps the index in [0, n) and wraps from the last image to the first |
| Home.FullRound | project/src/pages/Home.tsx:31-35 | n ticks bring the carousel back to the image it started on |
| Home.Rounds | project/src/pages/Home.tsx:28-35 | from the first image, tick r·n + k shows image k, so each round of n ticks shows every image once, in order |
| Home.ExactlyOneVisible | project/src/pages/Home.tsx:45-56 | exactly one hero image, the current one, is opaque |
| Home.Carousel.constructor | project/src/pages/Home.tsx:28 | the carousel starts on the first image |
| Home.Carousel.Tick | project/src/pages/Home.tsx:31-35 | a tick moves to (i + 1) mod n and keeps the index valid |
| AdminForm.InitialFormData | project/src/pages/admin/AdminForm.tsx:11-34 | a new admin starts with empty name and email and role 'admin'; editing copies name, email and role; the password always starts empty |
| AdminForm.Submitted | project/src/pages/admin/AdminForm.tsx:41-48 | the password key is kept iff the password is non-empty, and every other field is submitted as it is |
| AdminForm.NewAdminWithoutPassword | project/src/pages/admin/AdminForm.tsx:43-47 | a new admin with an empty password is created without a password, with role 'admin' |
| AdminForm.EditKeepsPasswordOut | project/src/pages/admin/AdminForm.tsx:19-25 | editing an admin without typing a password submits only name, email and role |
| AdminForm.AdminFormState.constructor | project/src/pages/admin/AdminForm.tsx:18-34 | the form is prefilled from the admin, or blank for a new one |
| AdminForm.AdminFormState.HandleChange | project/src/pages/admin/AdminForm.tsx:36-39 | only the named field changes |
| AdminForm.AdminFormState.HandleSubmit | project/src/pages/admin/AdminForm.tsx:41-48 | the submitted object omits an empty password and leaves the form as it is |
| AuthContext.SignedIn | project/src/contexts/AuthContext.tsx:34 | signing in gives the mock customer with the given email |
| AuthContext.SignedUp | project/src/contexts/AuthContext.tsx:48-52 | signing up gives the mock customer with the given email and full name |
| AuthContext.SessionIsCustomer | project/src/lib/mockData.ts:215-221 | the mock account's role is 'customer', never 'admin' or 'super_admin' |
| AuthContext.AuthProvider.constructor | project/src/contexts/AuthContext.tsx:24-25 | the session starts with no user and not loading |
| AuthContext.AuthProvider.SignIn | project/src/contexts/AuthContext.tsx:27-39 | it succeeds iff email and password are non-empty; on failure the user is unchanged and loading stays on |
| AuthContext.AuthProvider.SignUp | project/src/contexts/AuthContext.tsx:41-57 | it succeeds iff email, password and full name are non-empty; on failure the user is unchanged and loading stays on |
| AuthContext.AuthProvider.SignOut | project/src/contexts/AuthContext.tsx:59-61 | the user becomes null |

## Left out

- JSX markup and Tailwind classes are rendering only. The exceptions are the badge, preview, opacity and status-badge conditions above.
- Currency formatting (`Intl.NumberFormat`, `toFixed(3)`, `toLocaleString`) depends on locale and floating point. The invoice lines carry the integer amounts instead.
- Float coercions (`parseFloat`, `Number`, `isNaN`, `parseInt`) are left out. Prices and stock are integers, so `HandleChange` takes integer values directly.
- PDF output (PDFKit layout, streaming, HTTP headers, the date's `toLocaleString`) is left out. The invoice is a list of abstract lines.
- The 500 branches of the controller are left out, because Mongoose errors lie outside the model. Only the not-found branches are modelled.
- `backend/createAdmin.js` is not part of this model: it is a database script.
- The cryptography inside `jwt.verify` is left out. It is a partial function parameter.
- JWT payloads that are plain strings are left out, since the model's payload always has a role.
- An exception thrown downstream of `next()` is left out. The middleware would answer it with 401.
- axios transport, `localStorage` beyond the two keys, and `window.location` beyond the redirect target are left out.
- `confirm`, `alert`, toasts, `setTimeout`/`setInterval` timing, `URL.revokeObjectURL`, `scrollIntoView` and the heart animation flag are left out. Confirmations are booleans and timer ticks are method calls.
- `Promise.allSettled` concurrency and the interleaving of awaited requests with other clicks are left out. Each handler runs to completion with given per-request outcomes.
- The rollback snapshot of the optimistic deletes is the list at the time of the click, as in the source.
- Colour-table lookups of JavaScript prototype keys such as 'constructor' are not modelled: the table is a plain map.
- Case mapping is ASCII only.
- `getRoleBadge`, `getCategoryTitle`, `handleOpenPdf` and `downloadingId` are labels and a download, with no rule to prove.
- The constant `rating: 5` that `mapFromBackend` adds is not a field of the shared `Product` type, so it is left out.
- ProductForm.Form.RemoveImage: models the corrected removal. The code as written is `ProductForm.RemoveImageAsWritten` (see Findings).
- Pure UI and configuration files are not part of this model: Header, AdminLayout, AdminDashboard, ToastNotification, App routing, the order routes, the server's CORS setup and the disabled Login page.
- Cart.tsx and Checkout.tsx are left out. They call a cart context that is not part of this model; the product page and quick-add calls into it are recorded as `CartRequest` values.
- AdminLogin.tsx and ProtectedRoute.tsx are a fixed credential comparison and a stored flag, and are left out.
- `lib/mockData.ts` supplies only the mock account.
- The order list's `createdAt` is an integer timestamp so that the newest-first order is a comparison on integers.

## Findings

| source | as written | input that shows it | evidently intended | confidence | as-written member | corrected member |
|---|---|---|---|---|---|---|
| project/src/pages/admin/ProductForm.tsx:84-102 | `removeImage` drops the preview at `index`, but it keeps a new file unless `URL.createObjectURL(file)` equals that preview. Each call to `createObjectURL` makes a fresh URL, so new files are never removed. | images = [a new file], previews = ['blob:1'], index 0, with the fresh object URL 'blob:2'. The previews become empty but the file stays and is still uploaded. | Remove position `index` from both the images and the previews, keeping them parallel. | not executed | ProductForm.RemoveImageAsWrittenCounterexample | ProductForm.RemoveImageSpec |
| project/src/pages/admin/UserManagement.tsx:93-122 | The bulk approve and refuse handlers are gated on `currentUser?.role === 'super_admin'`. `currentUser` comes from `useAuth()` (line 14), whose session only ever holds the mock customer account. So the gate never opens, and the bulk buttons and handlers can never run. | any signed-in session: `SignedIn(email)` has role 'customer', so `handleApproveAll` returns at line 94 whatever admins are pending | The gate reads the signed-in administrator's account, so a super administrator can approve or refuse every pending account | not executed | UserManagement.SessionNeverSuperAdmin | UserManagement.AdminList.HandleApproveAll |
