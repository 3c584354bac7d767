# Sweet shop: inventory and session model

A Dafny model of the state logic behind a confectionery storefront. The
storefront keeps everything in memory:

- **Inventory store** (`SweetsProvider`). One ordered sequence of `Sweet`
  records. Add, update, delete, purchase and restock each replace it with an
  append, a `map` or a `filter` of the old sequence. Modelled as the pure
  transforms `Added`, `Updated`, `Deleted`, `Purchased` and `Restocked` in
  module `Inventory`. The class `SweetStore` holds the `sweets` field, and
  its methods reassign it through those transforms.
- **Session store** (`AuthProvider`). At most one user. Login and register
  are stubs that only check the shape of their inputs, then build the user
  from them. Logout clears the user. Modelled as the class
  `Session.SessionStore`.
- **Shop listing**. The catalogue filtered by a case-insensitive text search,
  an optional category and an inclusive price range. Modelled in module
  `Shop`.
- **Admin dashboard**. The access gate, the add-item form gate and its
  defaults, the per-item pending restock amounts, and three statistics:
  item count, total stock and out-of-stock count. Modelled in module `Admin`,
  with the class `AdminPage`.
- **Record types**. `Sweet`, the seven-value category and the colour and
  label tables. Modelled in module `SweetTypes`.

The inventory invariant is `Consistent`: no negative stock, and no two items
with the same id.

- Purchase keeps the invariant.
- Delete keeps it.
- Restock keeps it when the amount is non-negative.
- Add keeps it when the new id is fresh and the new stock is non-negative.
- Update keeps it when the patch keeps the id and sets no negative stock.

The id condition matters. `purchaseSweet` checks only the first item with
the id (`find`), but it decrements every item with that id (`map`). So with a
repeated id, stock can reach -1 (`PurchaseWithRepeatedIdGoesNegative`). The
source takes ids from the clock and never checks them. The model therefore
takes the id as a parameter of `AddSweet`. Freshness appears as a hypothesis
in the contract, not as a guarantee.

The model follows the code in three places where a stricter store might be
expected:

- `purchaseSweet` returns a boolean, not an error value that tells "not
  found" apart from "no stock".
- `restockSweet` accepts any amount, including a negative one. Only the admin
  handler refuses amounts that are not positive.
- `updateSweet` and `deleteSweet` do nothing when the id is absent. They
  report nothing.

Module `Scenarios` holds small client methods: selling the last unit,
restocking a sold-out item by five, deleting twice, and a failed then
successful login. Each one checks its outcome from the store contracts and
the lemmas about the transforms.

## Model

| member | source | states |
|---|---|---|
| SweetTypes.CategoriesListed | src/types/sweet.ts:11-18 | there are exactly seven categories, and the category list offers each exactly once |
| SweetTypes.KeyInjective | src/types/sweet.ts:11-18 | the seven category string literals are pairwise distinct |
| SweetTypes.ColorInjective | src/types/sweet.ts:20-28 | the colour table is total and no two categories share a colour |
| SweetTypes.LabelInjective | src/types/sweet.ts:30-38 | the label table is total and no two categories share a label |
| SweetTypes.LabelCapitalisesKey | src/types/sweet.ts:30-38 | each label is the category name with its first letter upper-cased |
| SweetTypes.WithIdRoundTrip | src/context/SweetsContext.tsx:20-23 | the item built by add keeps every supplied field unchanged and carries the given id |
| SweetTypes.WithoutIdRoundTrip | src/types/sweet.ts:1-9 | an item is exactly its id plus its six other fields |
| Inventory.Find | src/context/SweetsContext.tsx:38 | `find` returns the index of the first item with the id, or none exactly when no item has it |
| Inventory.MapWhereKeepsIds | src/context/SweetsContext.tsx:27-51 | an id-keeping map (as in update, purchase and restock) keeps the length and the sequence of ids |
| Inventory.MapWhereAbsent | src/context/SweetsContext.tsx:27-51 | update, purchase and restock change nothing when no item has the id |
| Inventory.ApplyNoChange | src/context/SweetsContext.tsx:29 | an empty patch leaves an item unchanged |
| Inventory.ApplyMerge | src/context/SweetsContext.tsx:29 | applying two patches in turn equals applying their merge, where later fields win |
| Inventory.ApplyIdempotent | src/context/SweetsContext.tsx:29 | applying a patch twice equals applying it once |
| Inventory.AddAppends | src/context/SweetsContext.tsx:19-25 | add grows the length by one, keeps all earlier items in order, and puts the new item with the given fields and id last |
| Inventory.AddKeepsConsistent | src/context/SweetsContext.tsx:19-25 | adding an item with a fresh id and non-negative stock keeps the invariant |
| Inventory.UpdateTouchesOnlyMatching | src/context/SweetsContext.tsx:27-31 | update patches exactly the items with the id, leaves every other item as it was, and keeps the length |
| Inventory.UpdateIdempotent | src/context/SweetsContext.tsx:27-31 | repeating an update with the same id and patch changes nothing more |
| Inventory.UpdateKeepsConsistent | src/context/SweetsContext.tsx:27-31 | a patch that keeps the id and sets no negative stock keeps the ids and the invariant |
| Inventory.DeleteRemovesOnlyId | src/context/SweetsContext.tsx:33-35 | after delete, an item is present iff it was present and has a different id; the rest keep their order |
| Inventory.DeleteLength | src/context/SweetsContext.tsx:33-35 | delete shortens the sequence by exactly the number of items with the id |
| Inventory.DeleteIdempotent | src/context/SweetsContext.tsx:33-35 | deleting the same id a second time changes nothing |
| Inventory.DeleteAbsent | src/context/SweetsContext.tsx:33-35 | deleting an absent id leaves the sequence unchanged |
| Inventory.DeleteExactlyOne | src/context/SweetsContext.tsx:33-35 | with distinct ids, deleting a present id removes exactly one item |
| Inventory.DeleteKeepsConsistent | src/context/SweetsContext.tsx:33-35 | delete keeps the invariant |
| Inventory.PurchaseGuard | src/context/SweetsContext.tsx:37-39 | with distinct ids, the purchase guard holds iff some item has the id and positive stock |
| Inventory.PurchaseRefusedAbsent | src/context/SweetsContext.tsx:38-39 | purchase is refused when no item has the id |
| Inventory.PurchaseRefusedSoldOut | src/context/SweetsContext.tsx:38-39 | purchase is refused when the first item with the id has stock zero or below |
| Inventory.PurchaseIsRestockOfMinusOne | src/context/SweetsContext.tsx:41-43 | the purchase update is a restock by -1: it takes exactly one unit and changes nothing else |
| Inventory.PurchaseKeepsConsistent | src/context/SweetsContext.tsx:37-45 | a purchase that passes the guard keeps the ids, and stock never goes negative |
| Inventory.PurchaseWithRepeatedIdGoesNegative | src/context/SweetsContext.tsx:37-45 | with two items sharing an id (stock 1, then 0), the guard passes and the second item's stock becomes -1 |
| Inventory.RestockKeepsConsistent | src/context/SweetsContext.tsx:47-51 | restocking by a non-negative amount keeps the ids and the invariant |
| Inventory.RestockAdds | src/context/SweetsContext.tsx:47-51 | restock adds the amount to the stock of the items with the id; every other field and item is unchanged |
| Inventory.SweetStore.constructor | src/context/SweetsContext.tsx:17 | the store starts from the given initial catalogue |
| Inventory.SweetStore.AddSweet | src/context/SweetsContext.tsx:19-25 | the new state is the old one plus the new item at the end; the invariant holds if the id is fresh and the stock non-negative |
| Inventory.SweetStore.UpdateSweet | src/context/SweetsContext.tsx:27-31 | the new state is the patched sequence with the same length; the ids and the invariant are kept under an id-keeping patch with no negative stock |
| Inventory.SweetStore.DeleteSweet | src/context/SweetsContext.tsx:33-35 | the new state is the filtered sequence, no item has the id, and the invariant is kept |
| Inventory.SweetStore.PurchaseSweet | src/context/SweetsContext.tsx:37-45 | returns true iff the guard holds; then takes one unit, otherwise changes nothing; the invariant is kept |
| Inventory.SweetStore.RestockSweet | src/context/SweetsContext.tsx:47-51 | the new state is the restocked sequence; the invariant is kept when the amount is non-negative |
| Session.LocalPart | src/context/AuthContext.tsx:29 | the derived name is the prefix of the email up to its first `@`, or the whole email if it has none |
| Session.LocalPartOfAddress | src/context/AuthContext.tsx:29 | the name derived from `user@domain` is `user` when `user` has no `@` |
| Session.LoginAdminIff | src/context/AuthContext.tsx:26-31 | a logged-in user is an admin iff "admin" occurs in the email; the email is kept verbatim and the id is "1" |
| Session.LoginExamples | src/context/AuthContext.tsx:25-31 | `a@b.com` with `secret1` logs in as "a", not an admin; `admin@x.com` is an admin; a 3-character password is refused |
| Session.SessionStore.constructor | src/context/AuthContext.tsx:21 | a new session has no user |
| Session.SessionStore.Login | src/context/AuthContext.tsx:23-35 | succeeds iff the email is non-empty and the password has at least six characters; on success the derived user replaces any current one, otherwise the user is unchanged |
| Session.SessionStore.Register | src/context/AuthContext.tsx:37-49 | succeeds iff name and email are non-empty and the password has at least six characters; the new user is never an admin; on failure the user is unchanged |
| Session.SessionStore.Logout | src/context/AuthContext.tsx:51-53 | always leaves no user and not authenticated, so a second logout changes nothing |
| Text.ContainsIffOccurs | src/context/AuthContext.tsx:30 | `includes` holds iff the substring occurs at some position |
| Shop.FilteredExactly | src/pages/Shop.tsx:16-23 | the listing is an ordered subsequence of the catalogue; an item is in it iff it matches search, category and price, with every copy kept |
| Shop.EmptyQueryMatchesAll | src/pages/Shop.tsx:17-18 | an empty query matches every item |
| Shop.SearchIgnoresQueryCase | src/pages/Shop.tsx:17-18 | lower-casing the query does not change which items match |
| Shop.NoFilterListsAll | src/pages/Shop.tsx:16-23 | no query, no category and every price in range list the whole catalogue unchanged |
| Shop.DefaultRangeHidesOutOfRange | src/pages/Shop.tsx:14-20 | under the default range `[0, 100]`, no item priced above 100 or below 0 is listed |
| Shop.FilterAgainChangesNothing | src/pages/Shop.tsx:16-23 | filtering the listing again with the same inputs returns the same listing |
| Admin.AdminViewReachable | src/pages/Admin.tsx:73-75 | no session and no registered user reach the dashboard; a logged-in user reaches it iff "admin" is in the email |
| Admin.StatsAfterAdd | src/pages/Admin.tsx:248-271 | after an add, the item count grows by one and the total stock by the new stock; the out-of-stock count grows by one iff the new stock is 0 |
| Admin.StockCoversInStockItems | src/pages/Admin.tsx:259-271 | with no negative stock, out-of-stock is at most the item count, and total stock is at least the number of items not sold out |
| Admin.StockAfterRestock | src/pages/Admin.tsx:259 | after a restock, the total stock grows by the amount times the number of items with the id |
| Admin.StockAfterPurchase | src/pages/Admin.tsx:259 | with distinct ids, a purchase that passes the guard lowers the total stock by exactly one |
| Admin.NewSweetGate | src/pages/Admin.tsx:77-90 | the form is refused iff name, price or quantity is empty; an accepted item keeps the typed fields and gets the default description or image when that field is empty |
| Admin.AdminPage.constructor | src/pages/Admin.tsx:59-71 | the page starts with an empty form, a closed dialog and no pending amounts |
| Admin.AdminPage.EditForm | src/pages/Admin.tsx:155-223 | the form takes the typed values; nothing else changes |
| Admin.AdminPage.SetAddDialogOpen | src/pages/Admin.tsx:138 | the dialog opens or closes; nothing else changes |
| Admin.AdminPage.HandleAddSweet | src/pages/Admin.tsx:77-95 | an incomplete form changes nothing; otherwise the item goes at the end of the store, the dialog closes and the form is cleared |
| Admin.AdminPage.HandleDelete | src/pages/Admin.tsx:97-100 | the store deletes the id |
| Admin.AdminPage.SetRestockInput | src/pages/Admin.tsx:320-326 | the pending amount for the item becomes the parsed input, or 0 for non-numeric input; other entries are unchanged |
| Admin.AdminPage.HandleRestock | src/pages/Admin.tsx:102-109 | restocks only when the pending amount (missing counts as 0) is positive, then resets that entry to 0 and keeps the rest; the invariant is kept and total stock never drops |

## Left out

- Markup, styling and animation (the components and the page JSX) have no behaviour to state.
- Navigation and notifications are library calls. The redirect is the value `RedirectToLogin`. Toasts are dropped.
- Ids come from `Date.now()`, a clock read. They are method parameters instead. Uniqueness is a hypothesis, not a guarantee.
- Prices are JavaScript numbers. They are modelled as `real`. `NaN` from `parseFloat`/`parseInt` is not modelled. `HandleAddSweet` receives the parsed price and quantity. `toFixed(2)` display formatting is dropped.
- `toLowerCase` covers only ASCII letters. Password length counts characters, not UTF-16 code units.
- React state semantics are not modelled. `purchaseSweet` checks the rendered snapshot but writes through a functional updater. Each operation is one atomic step. Batching and stale closures are out of scope.
- The `async` login and register have no awaits. They are synchronous methods.
- The mock catalogue is not part of this model. The store starts from any given sequence.
- An update key explicitly set to `undefined` is treated like an absent key. `Partial<Sweet>` allows it, and spreading it would overwrite the field.
- The product card's login check before purchase is left out. It belongs to a presentation component.
- The edit dialog (`editingSweet`) is never used. No page calls `updateSweet`.
- The `useAuth`/`useSweets` errors outside a provider are React wiring.
