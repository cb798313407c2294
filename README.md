# ShopNG storefront core, modelled in Dafny

This project models the client-side state and the aggregation logic of the ShopNG Angular
storefront:

- the cart service: its lines, the item count and the total price;
- the admin order view: statistics, the status-then-text filter, status updates and the
  status workflow table;
- the admin user view and the in-memory user directory: role-then-text filter, counts, the
  active/suspended toggle, the `isSelf` guard and the profile look-up;
- the saved checkout profile: local storage keyed by `user_profile_{id}`, administrator
  defaults, save and sign-out;
- the product catalogue: look-up, category filter, search, category list and the featured
  products, which sort the catalogue array in place;
- the `truncate` pipe and the star bar of the product card.

Conventions:

- Money is held in integer cents and star ratings in integer tenths of a star (4.5 stars is
  `45`). A timestamp is an integer.
- Statuses and roles are the strings the code compares against.
- `toLowerCase` is ASCII lower-casing.
- A reply of the order or user service is passed to the method that handles it as a
  `Result`: `Success` is the `next` callback and `Failure` is the `error` callback.
- The signed-in identity is passed in as an `Option<User>`.

Modules and files:

| file | what it models |
|---|---|
| `wrappers.dfy` | `Option` and `Result` |
| `seqs.dfy` | `filter`, `findIndex`, `find`, `reduce`, `slice` and `new Set` on sequences |
| `text.dfy` | lower-casing, `includes`, `trim`, number-to-string |
| `sorting.dfy` | the stable `Array.prototype.sort` with an `(a, b) => key(b) - key(a)` comparator |
| `models.dfy` | the records of `product.model.ts` and those the core reads |
| `cart.dfy` | `services/cart.service.ts` |
| `views.dfy` | the expandable row and the blank-search rule of both admin views |
| `admin_orders.dfy` | `components/admin-orders/admin-orders.component.ts` |
| `user_service.dfy` | `services/user.service.ts` |
| `admin_users.dfy` | `components/admin-users/admin-users.component.ts` |
| `storage.dfy` | `localStorage` and the profile key |
| `user_profile.dfy` | `services/user-profile.service.ts` |
| `catalog.dfy` | `services/product.service.ts` |
| `truncate.dfy` | `pipes/truncate.pipe.ts` |
| `star_rating.dfy` | `getStars` in `components/product-card/product-card.component.ts` |

How state is modelled:

- State the source keeps in fields is a `class` whose methods reassign those fields.
- The cart signal, the component arrays and the user list are `seq` fields.
- The product catalogue is an `array`, because `getFeaturedProducts` sorts it in place and
  `getProducts` hands out the array itself.
- Each state-changing method is specified by a pure function of the old state; the
  properties of that function are proved as lemmas.

Behaviour of the code worth noting:

- **Order status updates.** `updateStatus` applies whatever status the order service returns.
  It does not reject a move that `getNextStatuses` does not offer.
  `AdminOrders.SetOrderStatusIgnoresWorkflow` shows a delivered order moved back to pending.
- **Toggling a row twice.** This restores the previously expanded row only when no row, or
  that same row, was expanded. When a different row was expanded, it is not restored.
  `Views.ToggleExpandedTwice` states both directions and
  `Views.ToggleExpandedForgetsOtherRow` gives the example.
- **The featured products.** The comment in `getFeaturedProducts` speaks of products "from
  different categories". The code takes the four best-rated products, whatever their
  categories.
- **The stored text `"null"`.** It parses without error to `null`. A user whose stored
  value is `"null"` therefore gets no profile, even an administrator, and nothing is
  written. See `UserProfiles.LoadNullLiteral`.

## Model

All source paths are under `src/app/`.

The source's own tests are written as helper functions without contracts of their own; each is
described by the row of the lemma or member named beside it:
`Text.Includes` by `Text.IncludesIff`, `Text.Trim` by `Text.TrimEmptyIff`,
`Seqs.SumBy` by `Seqs.SumByUpdate` and `AdminOrders.TotalRevenue`,
`UserDirectory.FlipStatus` by `UserDirectory.FlipStatusInvolution`,
`UserDirectory.SearchMatches` by `UserDirectory.UserService.SearchUsersMembership`,
`AdminOrders.OrderMatches` by `AdminOrders.OrderMatchesIff`,
`AdminUsers.UserMatches` by `AdminUsers.FilterUsersMembership`,
`Catalog.ProductMatches` by `Catalog.ProductService.SearchProducts`, and
`Views.HasSearchText` by `Views.HasSearchTextIff`.

| member | source | states |
|---|---|---|
| Seqs.Filter | src/app/components/admin-orders/admin-orders.component.ts:84-86 | `filter` keeps only elements that satisfy the test, never more elements than it was given |
| Seqs.FilterMembership | src/app/components/admin-orders/admin-orders.component.ts:84-86 | an element is kept by `filter` if and only if it is in the input and satisfies the test |
| Seqs.FilterIsSubsequence | src/app/components/admin-orders/admin-orders.component.ts:84-86 | `filter` keeps the kept elements in their original relative order |
| Seqs.FilterMultiset | src/app/components/admin-orders/admin-orders.component.ts:84-86 | `filter` keeps every occurrence of a passing element and none of a failing one |
| Seqs.FilterLengthCountsIndices | src/app/components/admin-orders/admin-orders.component.ts:76-77 | the length of a `filter` result is the number of positions whose element passes |
| Seqs.FilterCountUpdate | src/app/components/admin-users/admin-users.component.ts:81-82 | replacing one element changes a filtered count by whether the old and the new element pass |
| Seqs.FindIndex | src/app/components/admin-orders/admin-orders.component.ts:109 | `findIndex` gives the first index whose element passes, or -1 when none does |
| Seqs.Find | src/app/services/product.service.ts:177 | `find` gives the first element that passes, or nothing when none does |
| Seqs.Distinct | src/app/services/product.service.ts:210 | `[...new Set(s)]` holds exactly the elements of `s`, each once |
| Seqs.DistinctFirstOccurrenceOrder | src/app/services/product.service.ts:210 | `[...new Set(s)]` lists the elements in the order of their first occurrence |
| Seqs.SumByUpdate | src/app/components/admin-orders/admin-orders.component.ts:73-75 | replacing one element changes a `reduce` sum by the difference of the two contributions |
| Seqs.Take | src/app/services/product.service.ts:219 | `slice(0, n)` is the first `n` elements, or all of them when there are fewer |
| Text.Lower | src/app/components/admin-orders/admin-orders.component.ts:90 | lower-casing keeps the length and lower-cases each character |
| Text.IncludesIff | src/app/components/admin-orders/admin-orders.component.ts:92 | `includes` holds exactly when the term occurs in the text at some offset |
| Text.TrimEmptyIff | src/app/components/admin-orders/admin-orders.component.ts:89 | `trim()` is empty exactly when every character is white space |
| Text.IntToString | src/app/services/user-profile.service.ts:50 | the decimal form of an id is never empty and starts with a minus sign exactly when the id is negative |
| Text.IntToStringInjective | src/app/services/user-profile.service.ts:50 | different ids are written as different decimal strings |
| Sorting.InsertDesc | src/app/services/product.service.ts:218 | inserting one element gives a permutation of the line plus that element |
| Sorting.SortDesc | src/app/services/product.service.ts:218 | the sort result is a permutation of its input |
| Sorting.SortDescSorted | src/app/services/product.service.ts:218 | the sort result is ordered by descending key |
| Sorting.SortDescStable | src/app/services/product.service.ts:218 | elements with equal keys keep their original relative order, as `Array.prototype.sort` does |
| Sorting.InsertionSortDesc | src/app/services/product.service.ts:218 | the in-place array sort leaves exactly the sorted sequence in the array |
| Cart.EmptyCartTotals | src/app/services/cart.service.ts:49-59 | an empty cart has item count 0 and total price 0 |
| Cart.ItemCountAtLeastLines | src/app/services/cart.service.ts:49-51 | with every quantity at least one, the item count is at least the number of lines |
| Cart.TotalPriceNonNegative | src/app/services/cart.service.ts:54-59 | non-negative prices and quantities give a non-negative total price |
| Cart.AddItem | src/app/services/cart.service.ts:68-89 | every existing line keeps its product and either stays as it was or, for the product, gains the quantity; the cart grows by one line exactly when no line holds the product, and that line is `{product, quantity}` at the end |
| Cart.RemoveItems | src/app/services/cart.service.ts:94-98 | what is left is no longer than the cart, and every remaining line is from the cart and of another product |
| Cart.UpdateItems | src/app/services/cart.service.ts:104-117 | a quantity of zero or less leaves only lines of other products; a positive one keeps every line and its product and sets the quantity of exactly the lines of that product |
| Cart.CartService.ItemCount | src/app/services/cart.service.ts:49-51 | an empty cart counts 0 items, and a cart whose quantities are all positive counts at least one item per line |
| Cart.CartService.TotalPrice | src/app/services/cart.service.ts:54-59 | an empty cart costs 0, and non-negative prices and quantities never give a negative total |
| Cart.AddItemExisting | src/app/services/cart.service.ts:72-84 | adding a product already present raises only its first line's quantity; length, order and the other lines are unchanged |
| Cart.AddItemAbsent | src/app/services/cart.service.ts:85-88 | adding an absent product appends one line `{product, quantity}` at the end |
| Cart.AddItemPreservesUnique | src/app/services/cart.service.ts:68-89 | adding keeps at most one line per product id |
| Cart.AddItemPreservesPositive | src/app/services/cart.service.ts:68-89 | adding a positive quantity keeps every quantity at least one |
| Cart.AddItemCount | src/app/services/cart.service.ts:68-89 | adding raises the item count by exactly the added quantity |
| Cart.AddItemTotal | src/app/services/cart.service.ts:68-89 | adding raises the total by the quantity times the unit price of the line it lands on |
| Cart.AddSameProductTwice | src/app/services/cart.service.ts:68-89 | adding 1 and then 2 of a product leaves one line with quantity 3 |
| Cart.RemoveItemsSpec | src/app/services/cart.service.ts:94-98 | removal keeps, in order, exactly the lines of other products |
| Cart.RemoveAbsentIsNoOp | src/app/services/cart.service.ts:94-98 | removing an absent product changes nothing |
| Cart.RemoveItemsPreservesUnique | src/app/services/cart.service.ts:94-98 | removal keeps at most one line per product id |
| Cart.RemoveItemsPreservesPositive | src/app/services/cart.service.ts:94-98 | removal keeps every quantity at least one |
| Cart.RemoveItemsCount | src/app/services/cart.service.ts:94-98 | removal lowers the item count by the quantity of the removed line, if any |
| Cart.UpdateNonPositiveIsRemove | src/app/services/cart.service.ts:104-108 | an update to zero or less gives exactly the removal's result |
| Cart.UpdatePositive | src/app/services/cart.service.ts:110-116 | a positive update sets the product's line quantity and changes nothing else; an absent id changes nothing |
| Cart.UpdateItemsPreservesUnique | src/app/services/cart.service.ts:104-117 | updating keeps at most one line per product id |
| Cart.UpdateItemsPreservesPositive | src/app/services/cart.service.ts:104-117 | updating keeps every quantity at least one |
| Cart.UpdateItemsCount | src/app/services/cart.service.ts:110-116 | a positive update moves the item count from the old line quantity to the new one |
| Cart.CartService.constructor | src/app/services/cart.service.ts:36 | the cart starts empty |
| Cart.CartService.AddToCart | src/app/services/cart.service.ts:68-89 | the new lines are the add result; the invariant holds; the item count grows by the quantity |
| Cart.CartService.RemoveFromCart | src/app/services/cart.service.ts:94-98 | the new lines are the removal result, and the invariants are kept |
| Cart.CartService.UpdateQuantity | src/app/services/cart.service.ts:104-117 | the new lines are the update result, and the invariants are kept |
| Cart.CartService.ClearCart | src/app/services/cart.service.ts:122-124 | the cart is empty, with count and total 0 |
| Views.ToggleExpandedTwice | src/app/components/admin-orders/admin-orders.component.ts:102-104 | toggling twice restores the previous value exactly when it was no row or the same row |
| Views.ToggleExpandedForgetsOtherRow | src/app/components/admin-users/admin-users.component.ts:106-108 | a row expanded before another row is not restored by toggling the other row twice |
| Views.HasSearchTextIff | src/app/components/admin-orders/admin-orders.component.ts:89 | a search term takes part exactly when it has a non-white-space character |
| Views.ToggleExpanded | src/app/components/admin-orders/admin-orders.component.ts:102-104 | the result is no row exactly when the toggled row was the expanded one; otherwise it is the toggled row |
| AdminOrders.NextStatusesTable | src/app/components/admin-orders/admin-orders.component.ts:123-132 | the transition table entry by entry; an unknown status has no next status |
| AdminOrders.NextStatuses | src/app/components/admin-orders/admin-orders.component.ts:123-132 | every offered status is known and later in the workflow; unknown, delivered and cancelled orders are offered nothing; every other known status is offered cancellation or, for shipped, delivery |
| AdminOrders.TotalRevenue | src/app/components/admin-orders/admin-orders.component.ts:73-75 | the revenue is the sum over all orders in which a cancelled order counts 0 and any other counts its total |
| AdminOrders.NextStatusesAdvance | src/app/components/admin-orders/admin-orders.component.ts:123-132 | every offered transition goes between known statuses and strictly forward |
| AdminOrders.WorkflowPathRank | src/app/components/admin-orders/admin-orders.component.ts:123-132 | each step of a path of offered transitions moves at least one stage forward |
| AdminOrders.WorkflowPathsShort | src/app/components/admin-orders/admin-orders.component.ts:123-132 | the workflow has no cycle; a path of offered transitions has at most four statuses |
| AdminOrders.TotalRevenueExcludesCancelled | src/app/components/admin-orders/admin-orders.component.ts:73-75 | revenue is the sum of totals in which cancelled orders count for nothing |
| AdminOrders.TotalRevenueExample | src/app/components/admin-orders/admin-orders.component.ts:73-75 | a pending order of 100 and a cancelled order of 50 give revenue 100 |
| AdminOrders.TotalRevenueAfterStatusChange | src/app/components/admin-orders/admin-orders.component.ts:111-112 | changing one order's status moves the revenue by that order's change in contribution |
| AdminOrders.StatusCountsBounded | src/app/components/admin-orders/admin-orders.component.ts:76-77 | the pending and shipped counts together never exceed the number of orders |
| AdminOrders.CountStatus | src/app/components/admin-orders/admin-orders.component.ts:76-77 | a status count never exceeds the number of orders |
| AdminOrders.CountStatusPositions | src/app/components/admin-orders/admin-orders.component.ts:76-77 | the count is the number of positions holding an order with that status |
| AdminOrders.FieldIncludesIff | src/app/components/admin-orders/admin-orders.component.ts:93-95 | an optional field matches a non-empty term exactly when it is present and contains the term |
| AdminOrders.OrderMatchesIff | src/app/components/admin-orders/admin-orders.component.ts:91-96 | an order passes the text test exactly when its number or a present buyer field contains the term |
| AdminOrders.FilterOrdersStatus | src/app/components/admin-orders/admin-orders.component.ts:84-86 | with a status other than "all", every listed order has exactly that status |
| AdminOrders.FilterOrdersAllBlank | src/app/components/admin-orders/admin-orders.component.ts:84-89 | "all" with a blank or white-space term lists every order |
| AdminOrders.FilterOrdersMembership | src/app/components/admin-orders/admin-orders.component.ts:80-100 | an order is listed if and only if it passes the status filter and, for a non-blank term, the lower-cased untrimmed term occurs in its number or a present buyer field |
| AdminOrders.FilterOrders | src/app/components/admin-orders/admin-orders.component.ts:80-100 | the list is an order-preserving subsequence of the orders, holds only orders of the selected status, and is all the orders for "all" with a blank term |
| AdminOrders.SetOrderStatus | src/app/components/admin-orders/admin-orders.component.ts:109-111 | the length is kept; each order is unchanged or, when it has the id, is the same order with the new status; an id that is not loaded changes nothing |
| AdminOrders.SetOrderStatusChangesOneStatus | src/app/components/admin-orders/admin-orders.component.ts:109-111 | a status update changes only the first order with the id, and in it only the status |
| AdminOrders.SetOrderStatusIgnoresWorkflow | src/app/components/admin-orders/admin-orders.component.ts:106-120 | a delivered order can be set back to pending, although the workflow does not offer it |
| AdminOrders.AdminOrdersComponent.constructor | src/app/components/admin-orders/admin-orders.component.ts:35-49 | the view starts empty, unfiltered, loading and without an error |
| AdminOrders.AdminOrdersComponent.LoadOrders | src/app/components/admin-orders/admin-orders.component.ts:55-69 | success replaces the orders and recomputes stats and filter; failure sets the error and keeps everything else; both end loading |
| AdminOrders.AdminOrdersComponent.ComputeStats | src/app/components/admin-orders/admin-orders.component.ts:71-78 | order count, revenue without cancelled orders, pending and shipped counts of the current orders |
| AdminOrders.AdminOrdersComponent.ApplyFilter | src/app/components/admin-orders/admin-orders.component.ts:80-100 | the displayed list is the filter of the current orders; only the displayed list changes |
| AdminOrders.AdminOrdersComponent.Refresh | src/app/components/admin-orders/admin-orders.component.ts:60-61 | after `computeStats(); applyFilter();` the statistics and the displayed list both describe the current orders |
| AdminOrders.AdminOrdersComponent.ToggleExpand | src/app/components/admin-orders/admin-orders.component.ts:102-104 | collapses the row if it was expanded, otherwise expands it |
| AdminOrders.AdminOrdersComponent.UpdateStatus | src/app/components/admin-orders/admin-orders.component.ts:106-120 | success for a loaded id sets that order's status and recomputes stats and filter; an unknown id changes nothing; failure sets the error and keeps the orders |
| UserDirectory.FlipStatusInvolution | src/app/services/user.service.ts:123 | the toggle swaps active and suspended and sends any other status to active |
| UserDirectory.ToggleStatusIn | src/app/services/user.service.ts:120-124 | the length is kept; each user is unchanged or, when it has the id, is the same user with the flipped status; an unknown id changes nothing |
| UserDirectory.CountActive | src/app/services/user.service.ts:133-135 | the active count never exceeds the number of users |
| UserDirectory.CountActivePositions | src/app/services/user.service.ts:133-135 | the active count is the number of positions holding an active user |
| UserDirectory.ToggleStatusChangesOneStatus | src/app/services/user.service.ts:121-123 | the toggle changes only the status of the first user with the id |
| UserDirectory.ToggleStatusTwice | src/app/services/user.service.ts:121-124 | toggling the same user twice restores the directory when that user was active or suspended |
| UserDirectory.ToggleStatusActiveCount | src/app/services/user.service.ts:123-135 | toggling a known user moves the active count down by one if it was active, up by one otherwise |
| UserDirectory.UserService.constructor | src/app/services/user.service.ts:86 | the directory starts as the seed users |
| UserDirectory.UserService.GetAllUsers | src/app/services/user.service.ts:91-95 | a permutation of the users, newest registration first, ties in directory order; the directory is not reordered |
| UserDirectory.UserService.GetUserById | src/app/services/user.service.ts:98-102 | the first user with the id, or the 404 "User not found" error exactly when there is none |
| UserDirectory.UserService.SearchUsers | src/app/services/user.service.ts:105-115 | an order-preserving subsequence whose users all match; the empty term keeps everyone |
| UserDirectory.UserService.SearchUsersMembership | src/app/services/user.service.ts:105-115 | a user is found exactly when the lower-cased term occurs in the lower-cased email, names, role or status |
| UserDirectory.UserService.ToggleUserStatus | src/app/services/user.service.ts:120-125 | flips the first matching user and returns it; an absent id gives 404 and leaves the directory unchanged |
| UserDirectory.UserService.GetUserCount | src/app/services/user.service.ts:129-131 | the number of users |
| UserDirectory.UserService.GetActiveUserCount | src/app/services/user.service.ts:133-135 | the number of active users, never more than the number of users |
| AdminUsers.CountsAfterReplace | src/app/components/admin-users/admin-users.component.ts:79-83 | replacing one user moves the active and admin counts by that user's change |
| AdminUsers.CountAdmins | src/app/components/admin-users/admin-users.component.ts:82 | the admin count never exceeds the number of users |
| AdminUsers.CountAdminsPositions | src/app/components/admin-users/admin-users.component.ts:82 | the admin count is the number of positions holding an administrator |
| AdminUsers.FilterUsersRole | src/app/components/admin-users/admin-users.component.ts:89-91 | with a role other than "all", every listed user has exactly that role |
| AdminUsers.FilterUsersAllBlank | src/app/components/admin-users/admin-users.component.ts:89-94 | "all" with a blank or white-space term lists every user |
| AdminUsers.FilterUsersMembership | src/app/components/admin-users/admin-users.component.ts:85-104 | a user is listed if and only if it passes the role filter and, for a non-blank term, the term occurs in its email, first or last name; role and status are not searched |
| AdminUsers.FilterUsers | src/app/components/admin-users/admin-users.component.ts:85-104 | the list is an order-preserving subsequence of the users, holds only users of the selected role, and is all the users for "all" with a blank term |
| AdminUsers.GetUserProfile | src/app/components/admin-users/admin-users.component.ts:127-135 | a profile exactly when the user's key holds one that parses, returned as stored; the storage is not changed |
| AdminUsers.IsSelf | src/app/components/admin-users/admin-users.component.ts:138-141 | true exactly when someone is signed in with that id |
| AdminUsers.ToggleReplyMatchesDirectory | src/app/components/admin-users/admin-users.component.ts:112-115 | putting the directory's reply in place of the loaded entry gives the directory's toggled users |
| AdminUsers.AdminUsersComponent.constructor | src/app/components/admin-users/admin-users.component.ts:40-51 | the view starts empty, unfiltered, loading and without an error |
| AdminUsers.AdminUsersComponent.LoadUsers | src/app/components/admin-users/admin-users.component.ts:63-77 | success replaces the users and recomputes counts and filter; failure sets the error and keeps everything else; both end loading |
| AdminUsers.AdminUsersComponent.ComputeStats | src/app/components/admin-users/admin-users.component.ts:79-83 | total, active and admin counts of the current users |
| AdminUsers.AdminUsersComponent.ApplyFilter | src/app/components/admin-users/admin-users.component.ts:85-104 | the displayed list is the filter of the current users; only the displayed list changes |
| AdminUsers.AdminUsersComponent.Refresh | src/app/components/admin-users/admin-users.component.ts:68-69 | after `computeStats(); applyFilter();` the counts and the displayed list both describe the current users |
| AdminUsers.AdminUsersComponent.ToggleExpand | src/app/components/admin-users/admin-users.component.ts:106-108 | collapses the row if it was expanded, otherwise expands it |
| AdminUsers.AdminUsersComponent.ToggleStatus | src/app/components/admin-users/admin-users.component.ts:110-124 | success for a loaded id replaces that whole entry by the reply and recomputes counts and filter; failure sets the error and keeps the users |
| Storage.ProfileKey | src/app/services/user-profile.service.ts:50 | the key is `user_profile_` followed by the id |
| Storage.ProfileKeyInjective | src/app/services/user-profile.service.ts:50 | different users never share a key |
| Storage.LocalStorage.GetItem | src/app/services/user-profile.service.ts:51 | the stored value, or `null` exactly when the key is absent |
| Storage.LocalStorage.SetItem | src/app/services/user-profile.service.ts:70 | writes one key and nothing else |
| Storage.LocalStorage.RemoveItem | src/app/services/user-profile.service.ts:58 | removes one key and nothing else |
| UserProfiles.AdminDefaultProfile | src/app/services/user-profile.service.ts:7-19 | the preset profile carries the id it is made for |
| UserProfiles.Load | src/app/services/user-profile.service.ts:49-75 | no key but the user's own changes; a loaded profile is what the storage then holds under that key, and no profile leaves no profile there; a non-administrator only ever gets the profile that was stored |
| UserProfiles.Save | src/app/services/user-profile.service.ts:79-83 | the user's key holds the saved profile and every other key is as it was |
| UserProfiles.LoadStoredProfile | src/app/services/user-profile.service.ts:50-56 | a stored profile is loaded as it is and nothing is written |
| UserProfiles.LoadNullLiteral | src/app/services/user-profile.service.ts:53-56 | stored "null" gives no profile and writes nothing, for administrators too |
| UserProfiles.LoadCorruptEntry | src/app/services/user-profile.service.ts:57-74 | an unparseable entry is removed, then replaced by the defaults for an administrator |
| UserProfiles.LoadWithoutEntry | src/app/services/user-profile.service.ts:62-74 | no usable entry: an administrator gets the defaults with their id, persisted; anyone else gets nothing and nothing is written |
| UserProfiles.LoadTouchesOnlyOwnKey | src/app/services/user-profile.service.ts:49-75 | loading changes no key but the user's own |
| UserProfiles.LoadIdempotent | src/app/services/user-profile.service.ts:49-75 | a second load yields the same profile and storage as the first |
| UserProfiles.SaveThenLoad | src/app/services/user-profile.service.ts:79-83 | a saved profile is what the owner's next load yields, and that load writes nothing |
| UserProfiles.SaveKeepsOtherUsers | src/app/services/user-profile.service.ts:79-83 | saving one user's profile does not change another user's load |
| UserProfiles.UserProfileService.constructor | src/app/services/user-profile.service.ts:26 | the service starts without a profile |
| UserProfiles.UserProfileService.HasProfile | src/app/services/user-profile.service.ts:32 | true exactly when there is a live profile |
| UserProfiles.UserProfileService.OnIdentityChange | src/app/services/user-profile.service.ts:36-43 | signing in loads that user's profile; signing out clears the live profile and keeps the storage |
| UserProfiles.UserProfileService.LoadProfile | src/app/services/user-profile.service.ts:49-75 | the live profile and the storage become the load result of the old storage |
| UserProfiles.UserProfileService.SaveProfile | src/app/services/user-profile.service.ts:79-83 | the live profile is the saved one, and the storage holds it under its owner's key |
| UserProfiles.UserProfileService.ClearProfile | src/app/services/user-profile.service.ts:88-90 | the live profile is cleared; the storage is not touched |
| Catalog.Categories | src/app/services/product.service.ts:210 | one category per product, in product order |
| Catalog.FeaturedAreTopRated | src/app/services/product.service.ts:218-219 | no featured product is rated below a product that was not returned |
| Catalog.ProductService.constructor | src/app/services/product.service.ts:32-162 | the catalogue is a new array holding the seed products |
| Catalog.ProductService.GetProducts | src/app/services/product.service.ts:170-172 | the catalogue array itself |
| Catalog.ProductService.GetProductById | src/app/services/product.service.ts:175-178 | the first product with the id, or none exactly when there is none |
| Catalog.ProductService.GetProductsByCategory | src/app/services/product.service.ts:181-187 | in catalogue order, exactly the products whose lower-cased category equals the lower-cased argument |
| Catalog.ProductService.SearchProducts | src/app/services/product.service.ts:193-201 | in catalogue order, exactly the products whose lower-cased name or description contains the lower-cased term; the empty term returns all |
| Catalog.ProductService.GetCategories | src/app/services/product.service.ts:208-211 | every product category exactly once, in order of first occurrence |
| Catalog.ProductService.GetFeaturedProducts | src/app/services/product.service.ts:214-221 | the catalogue is sorted in place into a permutation by descending rating; the result is its first min(4, n) products, none rated below one left out |
| Truncate.Transform | src/app/pipes/truncate.pipe.ts:33-37 | the empty text gives the empty text; a text within the limit comes back as it is; a longer text gives its first max(limit, 0) characters followed by the trail |
| Truncate.PrefixTo | src/app/pipes/truncate.pipe.ts:36 | `substring(0, end)` with a negative end counting as 0 |
| Truncate.TransformEmpty | src/app/pipes/truncate.pipe.ts:34 | the empty text gives the empty text |
| Truncate.TransformWithinLimit | src/app/pipes/truncate.pipe.ts:35-37 | a text within the limit is returned as it is |
| Truncate.TransformOverLimit | src/app/pipes/truncate.pipe.ts:35-36 | a longer text becomes its first `limit` characters and the trail, of length limit plus trail length |
| Truncate.TransformNegativeLimit | src/app/pipes/truncate.pipe.ts:35-36 | a negative limit leaves only the trail |
| Truncate.TransformKeepsPrefix | src/app/pipes/truncate.pipe.ts:35-37 | with a non-negative limit, the first min(limit, length) characters are kept |
| Truncate.TransformDefaults | src/app/pipes/truncate.pipe.ts:33 | the defaults are a limit of 100 and the trail "..." |
| StarRating.GetStars | src/app/components/product-card/product-card.component.ts:58-70 | five slots, each the slot kind of its position |
| StarRating.StarAt | src/app/components/product-card/product-card.component.ts:61-67 | slot i is full exactly when the rating reaches i, half exactly when it lies in [i - 0.5, i), empty otherwise |
| StarRating.Stars | src/app/components/product-card/product-card.component.ts:58-70 | five slots, the k-th of kind `StarAt(rating, k)` |
| StarRating.StarsShape | src/app/components/product-card/product-card.component.ts:60-68 | full slots form a prefix, and at most one half slot follows them, then only empty slots |
| StarRating.StarsFullCount | src/app/components/product-card/product-card.component.ts:61-62 | the slots that are full are exactly the first ⌊rating⌋ |
| StarRating.StarsExample | src/app/components/product-card/product-card.component.ts:56 | 3.5 stars give full, full, full, half, empty |

## Left out

- Observables. The RxJS plumbing (`of`, `throwError`, `subscribe`) is not modelled. Each
  service reply is a `Result` argument.
- The order service and the authentication service are not part of this model. The order
  service's reply and the signed-in identity are parameters.
- Signals. Angular's `signal`, `computed` and `effect` are plain fields and explicit
  methods. The profile effect is `OnIdentityChange`, which is called with each new identity.
- Floating point. Prices, totals and ratings are integers, so float rounding (79.99, sums of
  totals) is not modelled. So are fractional `limit` arguments of the `truncate` pipe.
- Number formatting. Ids are assumed to be safe integers (magnitude below 2^53), so the
  decimal form in a storage key is exact. Larger ids, which JavaScript rounds and writes in
  exponent form from 10^21 on, are not modelled.
- Dates. `registeredAt` is an integer timestamp, so `new Date(...).getTime()`, `NaN` dates
  and `formatDate` are not modelled.
- Text. Lower-casing is ASCII, with no Unicode case folding. A string's length is its
  number of elements, not its UTF-16 code units.
- JSON. A stored value is one of three kinds: the text written for a profile, the text
  `"null"`, or unparseable text. It is assumed that parsing the text written for a profile
  gives that profile back. Other JSON values are not modelled, such as a number or an
  object that is not a profile.
- Shared objects. `UserService.toggleUserStatus` changes the status inside the user object
  itself. The arrays returned earlier by `getAllUsers` and `searchUsers` hold the same
  objects, so in the source they see the change at once. Users are values here, so that
  sharing is not captured. The admin view then replaces its entry with the reply, so its
  final state is the same.
- Shared arrays. The admin views' `orders` and `users` arrays may be shared with the
  services that produced them; that sharing is not modelled. The catalogue array handed
  out by `getProducts` is modelled as shared.
- The status-workflow table is a plain object, so a status named like an `Object.prototype`
  member (for example `"constructor"`) would find an inherited value. Such statuses are
  not modelled; every status outside the table has no next status.
- Presentation. The CSS-class helpers (`getStatusClass`, `getRoleClass`) and the
  navigation, registration, cart page and app configuration files are not modelled, and
  neither is the product card's `onAddToCart` event.
- Records. The order's line items and creation date are not modelled. The seed products
  and seed users are not modelled either: their constructors take any seed.
- AdminUsers.GetUserProfile: the comment says "address only — no payment", but the code
  returns the whole stored record, card fields included. The model returns the record as
  stored and states no privacy property.
- The comment in `getFeaturedProducts` wants products "from different categories". That
  is not what the code does, and is not modelled.
