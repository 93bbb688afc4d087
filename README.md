# Inventory state store, modelled in Dafny

This project models the in-memory state store of a single-user, browser-based
inventory and barcode-label tool ("Primal Barcode Pro"). The store holds the
product catalog, the ordered category list, a bounded activity log, the
company profile, the settings (currency and low-stock threshold), the master
password with the session's logged-in flag, and the ids selected for bulk
printing.

The model has two halves, as the application does:

- **Handlers** (`Store.dfy`, module `StateStore`): a class `Store` with one
  field per part of the state and one method per handler. The handlers cover
  recording an activity, submitting the product form (add or edit), deleting a
  product, adding and deleting a category, select-all and one-item selection,
  login, logout, saving settings, export and import. Each method states its
  complete new state in terms of the old one. Each method also states when
  the result satisfies the store's `Consistent()` invariant: unique product
  ids, distinct category names, a log of at most 100 entries and a selection
  without repeats. Most handlers keep it unconditionally. Adding a product
  keeps it only when the id used is new. The constructor and a successful
  import establish it only when the stored or imported products have unique
  ids, the categories are distinct and the log has at most 100 entries; the
  import also needs the selection to have no repeats. Otherwise they can break
  it: nothing in app.js checks an imported document.
- **Views** (`Views.dfy`): pure functions for the dashboard totals, the
  product search, the low-stock report and the per-category counts. Lemmas
  give each one an independent characterisation.

The remaining files hold what both halves use. `Seqs.dfy` has the
order-preserving filter behind every `.filter` call, with its facts.
`Text.dfy` has lower-casing and substring search. `Inventory.dfy` has the
records, the bounded log and the lookup by id. `Scenarios.dfy` holds short
handler runs whose results follow from the contracts alone.

Clock readings (`Date.now()`, `toLocaleString()`), generated ids and every
form value are parameters. Storage, rendering, file reading and JSON decoding
are not modelled: the backup document arrives already decoded, as a record
whose parts may be missing (`Snapshot`).

Points where the code is modelled as it is written:

- Deleting a product does not remove its id from the selection
  (app.js:647), so the model claims no "selection ⊆ products" invariant.
  `Scenarios.DeletedProductStaysSelected` shows a deleted id staying selected.
- Edit mode does not check that `findIndex` found the id (app.js:616-617).
  In JavaScript, `products[-1] = product` creates a property that no array
  operation sees. The model therefore has no precondition here: with a
  missing id the product list is unchanged and the "Updated Product" entry is
  still logged.
- The form's editing id wins over a fresh id even in add mode (app.js:604).
  The product form's hidden editing id is never cleared when the add dialog
  opens (DOM code, not modelled), so an add after an edit reuses the edited
  id. `Scenarios.AddWithLeftoverEditingId` shows the duplicate id.
  `SubmitProduct` promises to keep ids unique only when the id used is new.
- No handler checks the category or the required fields, and editing or
  deleting a missing id fails silently (app.js:602-627, 645-650). The model
  has no error results for these cases either.
- Recording pops at most one entry (app.js:48). An imported log that is
  already longer than 100 entries therefore stays that long.
- Password truthiness: an empty password counts as unset, both at login
  (app.js:505) and on import (app.js:457). Storage reads turn an empty stored
  password into `null` (app.js:19).

## Model

| member | source | states |
|---|---|---|
| `StateStore.Store.constructor` | app.js:6-26 | each stored part is used when present and otherwise takes its default (three default categories, "Primal Pro", currency ₹ and threshold 10); an empty stored password counts as none; the session flag comes from the session; the selection starts empty; the invariant holds when the stored ids are unique, the stored categories distinct and the stored log within the bound |
| `Inventory.MakeEntry` | app.js:40-46 | the entry takes its id from the clock's milliseconds and its timestamp from the clock's display form, with the given type, action and details |
| `StateStore.Store.AddLog` | app.js:39-50 | the new log is `LogPush` of the old log and the entry built from the clock reading; a log within the bound stays within it, and the store's invariant is kept |
| `Inventory.LogPush` | app.js:47-48 | the new entry is at index 0; the length grows by one below 100 and otherwise stays the same; the entries after the head are the old entries, in order, minus the last one when the log overflowed |
| `Inventory.LogPushBounded` | app.js:48 | recording into a log of at most 100 entries leaves at most 100 |
| `Inventory.RecordAllKeepsNewest` | app.js:47-48 | recording a batch into a bounded log gives the first 100 of (the batch newest first, then the old log) |
| `Inventory.RecordManyFromEmpty` | app.js:47-48 | after more than 100 records from empty, exactly 100 remain; the newest is at the head, entry k is the k-th newest, and the earliest records are gone |
| `Inventory.FindIndex` | app.js:616 | the result is -1 exactly when no product has the id; otherwise it is the first index whose product has the id |
| `Inventory.FindIndexMissing` | app.js:616 | the lookup fails exactly when the id is not among the products' ids |
| `Inventory.Ids` | app.js:477 | the id list has one entry per product, in collection order |
| `Inventory.WithoutProduct` | app.js:647 | the products left after deleting an id: a subsequence holding every occurrence of every product with another id and no product with that id |
| `Seqs.Without` | app.js:672 | the value is gone, every other value keeps all its occurrences, and the order is kept (also the unticking at app.js:487) |
| `Inventory.IdsWithoutProduct` | app.js:647 | deleting products by id removes exactly that id from the id list, keeping the order |
| `Inventory.WithoutProductUniqueIds` | app.js:647 | deleting products by id keeps ids unique |
| `Seqs.WithoutDistinctLength` | app.js:672 | removing a name that occurs once in a duplicate-free list shortens the list by exactly one |
| `Inventory.IdsReplace` | app.js:617 | replacing a product with one that has the same id leaves the id list unchanged |
| `Inventory.IdsAppend` | app.js:620 | appending a product appends its id to the id list |
| `StateStore.Store.SubmitProduct` | app.js:602-627 | the id used is the non-empty editing id or else the fresh id; edit replaces only the first entry with that id and keeps the count and every other entry (a missing id leaves the list as it was); add appends one product and keeps the earlier ones; either way one entry is logged; ids stay unique when the id used is new or the form is in edit mode |
| `StateStore.Store.DeleteProduct` | app.js:645-650 | exactly the products with the id are removed, the rest keep their order, the selection is unchanged, and the invariant is kept |
| `StateStore.Store.SubmitCategory` | app.js:634-643 | a name already present (exact match) changes nothing and returns false; otherwise the name is appended, the existing order is kept and one entry is logged; category names stay distinct |
| `StateStore.Store.DeleteCategory` | app.js:670-675 | deletion is refused, with the list unchanged, exactly when some product is filed under the name; otherwise every occurrence of the name is removed, the rest keep their order, and products are not touched; when the names were distinct and the name was listed, the list is exactly one shorter |
| `StateStore.Store.ToggleSelectAll` | app.js:474-480 | ticked selects exactly the product ids in collection order and unticked clears the selection; the result does not depend on the previous selection, so repeating the call changes nothing |
| `StateStore.Store.ToggleItemSelection` | app.js:482-490 | ticking appends the id only when it is absent; unticking removes every occurrence and keeps the other ids in order; afterwards the id is selected exactly when ticked, other ids are unaffected, and a selection without repeats stays so |
| `StateStore.Store.HasPassword` | app.js:505 | a password counts as set only when present and non-empty, as JavaScript truthiness has it |
| `StateStore.Store.Login` | app.js:501-521 | with no password set, the candidate becomes the password and the session logs in; if the candidate equals the password, the session logs in; any other candidate changes nothing |
| `StateStore.Store.Logout` | app.js:413-417 | clears the logged-in flag and keeps the password and the invariant |
| `StateStore.Store.SaveSettings` | app.js:394-411 | profile and settings are replaced by the form values; a non-empty new password replaces the password and logs "Updated Security" before "Updated Settings"; an empty one keeps the password and logs only "Updated Settings" |
| `StateStore.Store.Export` | app.js:419-427 | the backup document has products, categories, logs, profile and settings all present and the password is the store's own, so importing it is never refused |
| `StateStore.Store.ExportData` | app.js:419-436 | the document is the state before the export; the export is then logged |
| `StateStore.Store.ImportData` | app.js:449-457 | a document missing products or categories is refused and changes nothing; otherwise products and categories are replaced, logs become the document's or empty, and profile, settings and a non-empty password are taken from the document or kept; the invariant holds afterwards when the document's ids are unique, its categories distinct, its log within the bound and the selection had no repeats |
| `Scenarios.ExportThenImport` | app.js:419-457 | an export followed by an import of its document restores every field as it was before the export |
| `Scenarios.FirstRunLogin` | app.js:501-521 | first run sets the password; after logout "xyz" is rejected and "abc" logs in again |
| `Scenarios.DeletedProductStaysSelected` | app.js:645-650 | a selected product that is deleted keeps its id in the selection |
| `Scenarios.CategoryLifecycle` | app.js:634-675 | a second add of the same name is refused; deletion is refused while a product uses the category and allowed once that product is deleted |
| `Scenarios.AddWithLeftoverEditingId` | app.js:604-620 | an add submitted with a leftover editing id files a second product under that id |
| `Seqs.Filter` | app.js:647 | the result is a subsequence of the input in original order; it holds every occurrence of each value that passes and nothing else (the shared meaning of the `.filter` calls at app.js:175, 227, 358, 487, 647 and 672) |
| `Seqs.FilterKeepsAll` | app.js:175-179 | when every element passes, the filter returns its input unchanged |
| `Seqs.FilterNoDuplicates` | app.js:487 | filtering a sequence without repeats gives one without repeats |
| `Views.TotalStockAppend` | app.js:143 | the stock total of a concatenation is the sum of the two totals |
| `Views.TotalStock` | app.js:143 | the sum of all stocks; when no stock is negative, the total is not negative |
| `Views.TotalStockReplace` | app.js:143 | replacing one product changes the total by exactly the new stock minus the old |
| `Views.TotalStockAdd` | app.js:143 | adding a product adds its stock to the total |
| `Views.Dashboard` | app.js:141-162 | the category and product cards show the list lengths, the stock card shows the total stock, and the recent-activity list is the newest min(5, log length) entries, newest first |
| `Views.DashboardShowsNewest` | app.js:162 | right after an entry is recorded, the dashboard lists it first |
| `Views.Matches` | app.js:175-178 | a product matches when its lower-cased name or barcode, or its present and non-empty brand, contains the term; stated by positions in `Views.MatchesByOccurrence` |
| `Views.Search` | app.js:174-179 | the result is a subsequence of the products in original order; it holds exactly the products whose lower-cased name, barcode or non-empty brand contains the lower-cased query, with their multiplicities |
| `Views.SearchEmptyQuery` | app.js:174-179 | an empty query lists every product in order |
| `Views.MatchesByOccurrence` | app.js:176-178 | a product matches exactly when the term occurs at some position of its lower-cased name, barcode or non-empty brand |
| `Views.SearchByOccurrence` | app.js:174-179 | search stated by positions of occurrence instead of the search algorithm |
| `Views.SearchNoMatch` | app.js:174-179 | a query that no product matches gives an empty table |
| `Text.Includes` | app.js:176 | the empty term is found in every string, and a term longer than the string is never found; stated exactly in `Text.IncludesMeansOccurs` |
| `Text.IncludesMeansOccurs` | app.js:176 | substring search succeeds exactly when some position of the string starts a copy of the term |
| `Text.Lower` | app.js:174 | lower-casing keeps the length and maps each ASCII capital to its small letter, leaving other characters alone |
| `Text.LowerIdempotent` | app.js:174-176 | lower-casing twice is lower-casing once |
| `Views.LowStockItems` | app.js:226-227 | the low-stock list is the products with stock at or below the threshold, in order |
| `Views.Status` | app.js:250 | a product is "Low Stock" when its stock is at or below the threshold, "In Stock" otherwise; related to the card in `Views.LowStockCardMatchesTable` |
| `Views.StatusColumn` | app.js:248-250 | one status per product, in collection order, each "Low Stock" exactly when stock ≤ threshold |
| `Views.LowStockCardMatchesTable` | app.js:227-250 | the low-stock count on the card equals the number of table rows marked "Low Stock" |
| `Views.LowStockBoundary` | app.js:227-250 | stock equal to the threshold is low and one above it is not (the boundary is inclusive) |
| `Scenarios.OneLowProduct` | app.js:226-227 | one product with stock 5 against the default threshold 10 gives a low-stock count of 1 |
| `Views.CategoryUsage` | app.js:357-358 | one row per category, in order, each with the number of products whose category equals it exactly |
| `Views.ProductsIn` | app.js:358 | the products filed under a category by exact match, in order: a subsequence holding every occurrence of each such product and nothing else |
| `Views.UsageCount` | app.js:358 | the count shown beside a category, never more than the number of products; `Views.UsageCountCons` gives its value product by product |
| `Views.InUse` | app.js:671 | the delete guard holds exactly when some product in the list has that category |
| `Views.UsageZeroIffUnused` | app.js:671 | the count shown beside a category (app.js:358) is zero exactly when the delete guard allows deleting it |
| `Views.CategoryCountsCoverProducts` | app.js:357-358 | with distinct category names and every product filed under one of them, the counts add up to the number of products |

## Left out

- Rendering (HTML templates, class toggles, the login overlay of `checkAuth`, `applyState`, the bulk bar of `updateBulkBar`, `renderActivity`, `populateCategories`, the form prefill of `editProduct`). All of it is display; the views above model what it displays.
- Storage writes (`saveState`) and the session flag in session storage. This is persistence I/O. The one rule in it, that the password key is written only when a password is set, matches how the constructor reads it back.
- File reading, download links, `Blob`/`URL` and JSON encoding and decoding in export and import. This is I/O and foreign parsing. Import takes an already-decoded `Snapshot`, and a file that fails to parse is not modelled.
- The page reload after a successful import. It restarts the application from storage, which would also clear the selection and the current view.
- `JsBarcode`, `window.print`, `printSingle` and `performBulkPrint`. These are an external renderer and a print dialog.
- `alert` and `confirm`. Only the branch taken after confirmation is modelled (deleting a product); the alert branches are the `false` results.
- `Date.now()`, `toLocaleString()` and `Math.random()`. These are clock and randomness and become parameters. Both entries written by `saveSettings` receive the same clock reading.
- Prices and the inventory value (`parseFloat`, `toFixed`). This is floating point; a price is kept as the text the form gave.
- `parseInt` coercion and NaN. Stock and threshold are integers. An empty or missing stock counts as 0 in the dashboard total (app.js:143) but is NaN in the stock report (app.js:227, 249-250), so that product is never low; any other non-numeric stock is NaN in both, never low, and makes the total NaN. Neither case is modelled.
- Theme, sidebar and current-view switching. This is UI state.
- Text.Lower: only ASCII letters are lower-cased; JavaScript's `toLowerCase` also maps non-ASCII letters, and that mapping is not modelled.
