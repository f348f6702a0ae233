# Online shop: the store's routes and the admin and storefront lists, in Dafny

This project models the core of a small online shop. The shop has an Express and Mongoose
backend and a React frontend.

The backend side is a pure state machine over a document store (`Models.Store`). The store
holds three maps, for categories, subcategories and products, plus an id allocator.

- `CategoryRoutes` covers `POST`, `GET` and `DELETE /api/categories`.
  - Create saves the category, then one subcategory per name, then writes the id list back.
  - Delete removes the category, then its subcategories.
  - A `Fault` parameter names the store call that fails. This exposes the partial states
    these non-atomic sequences leave behind.
- `ProductRoutes` covers `POST`, `GET`, `PUT` and `DELETE /api/products`. It models:
  - the `imageUrl` rule;
  - the 404 paths;
  - update validators running before the lookup;
  - `populate` giving null for a deleted category.
- `Upload` covers the name multer gives an uploaded image. The clock is a parameter.
- `Models` holds the Product and Category schemas and the `required` rule for strings.

The frontend side models the list operations of the three pages, each page a datatype.

- `Dashboard` is the storefront (`UserDashboard.jsx`): four sorts, the price-range and
  category filters, and the reset. `Sorting` gives the stable sort. `Collation` gives the
  name order.
- `ProductsPage` is the admin product table and form (`Products.jsx`): add, update, edit,
  delete, reset and submit.
- `CategoriesPage` is the admin category table (`Categories.jsx`): the comma-separated
  subcategory input, add, delete and the delete dialog.
  - `SentRequestCreates` connects this page's request to the backend's create route.
- Shared pieces:
  - `Seqs` holds `filter` and the replacing `map`.
  - `Text` holds JavaScript's `split` and `trim`.
  - `Common` holds replies, faults and client responses.

Server responses, the browser's confirm dialog and the product form's validity check are
parameters of the page functions.

## Model

| member | source | states |
|---|---|---|
| Models.ValidateProduct | backend/models/Product.js:3-10 | A product document exists exactly when name and description are present and non-empty and price and stock are present. Image and category are optional. The document keeps each given field. |
| CategoryRoutes.NewSubcategories | backend/routes/categoryRoutes.js:15-22 | Every subcategory save is issued, as `Promise.all` does. The ids cid+1..cid+n are written except the one whose save fails. Each points back at the category and carries its name in input order. |
| CategoryRoutes.CreateCategory | backend/routes/categoryRoutes.js:7-33 | A missing or empty name is rejected with nothing written. A failed category save writes nothing. A failed subcategory save or a failed write-back of the id list leaves the category with an empty list and every subcategory save that went through in place, with nothing rolled back. Create succeeds exactly when the name is valid and every write it issues succeeds. The status is 201 or 500. Existing records are never altered, products stay untouched, and the allocator invariant holds. |
| CategoryRoutes.CreateSucceeds | backend/routes/categoryRoutes.js:11-28 | A successful create leaves the category holding its new subcategories' ids in input order, with each subcategory pointing back. The reply is that category with bare ids. |
| CategoryRoutes.CreatedCategory | backend/routes/categoryRoutes.js:11-28 | A successful create adds exactly one category, under an id no record had. It holds the new subcategory ids in input order. |
| CategoryRoutes.CreatedReply | backend/routes/categoryRoutes.js:22-28 | The reply of a successful create carries the new id and name, and at position i the bare id of the i-th new subcategory. |
| CategoryRoutes.CreatedSubcategories | backend/routes/categoryRoutes.js:15-22 | Each requested name becomes a subcategory under a fresh id, in input order, pointing back at the new category. |
| CategoryRoutes.CreatedNoOtherSubcategory | backend/routes/categoryRoutes.js:15-22 | A successful create adds no subcategory beyond the new ids. |
| CategoryRoutes.CreateWithoutNames | backend/routes/categoryRoutes.js:14-26 | Without subcategory names no subcategory is written, and the category's list stays empty. |
| CategoryRoutes.CreatePreservesLinked | backend/routes/categoryRoutes.js:7-33 | A successful create keeps every category-subcategory link mutual in both directions. |
| CategoryRoutes.CreateFailureBreaksLink | backend/routes/categoryRoutes.js:16-25 | If the write-back of the id list fails, the subcategories already saved point at a category that does not list them. |
| CategoryRoutes.Resolve | backend/routes/categoryRoutes.js:38 | Populating a subcategory id list yields only ids that have a document, each named by its document, and is never longer than the list. When all ids exist, every id is named in order. |
| CategoryRoutes.ResolveKeepsPresent | backend/routes/categoryRoutes.js:38 | The populated list's ids are the stored id list with the ids that have no document removed: every present id is kept, in stored order. |
| CategoryRoutes.ResolveDropsMissing | backend/routes/categoryRoutes.js:38 | With id 1 stored and id 2 missing, populating [1, 2] gives only id 1 with its name. |
| CategoryRoutes.ListCategories | backend/routes/categoryRoutes.js:36-44 | Lists every category with its subcategory ids populated, or answers 500. |
| CategoryRoutes.ListResolvesLinked | backend/routes/categoryRoutes.js:38 | In a linked store, the list shows every subcategory of every category by name, in stored order. |
| CategoryRoutes.CreateAnswersNames | backend/routes/categoryRoutes.js:11-28 | A successful create answers with the requested name and, at each position, the bare id of a stored subcategory carrying the name requested at that position. |
| CategoryRoutes.CreateThenList | backend/routes/categoryRoutes.js:7-44 | After a create, the list shows the new category with each requested subcategory name in input order. |
| CategoryRoutes.CreatedThenList | backend/routes/categoryRoutes.js:11-44 | Listing the store a successful create leaves shows the new category's name and, at each position, the requested subcategory name under its new id. |
| CategoryRoutes.ListShowsNewCategory | backend/routes/categoryRoutes.js:36-44 | A category whose subcategory ids are consecutive and all stored is listed with those subcategories populated by name, in order. |
| CategoryRoutes.DeleteCategory | backend/routes/categoryRoutes.js:48-65 | An absent id answers 404 and changes nothing. A failed first call changes nothing. Success removes the category and exactly the subcategories that point at it. A failed second call removes only the category. No failure touches a subcategory. Products and the allocator are untouched, and the allocator invariant holds afterwards. |
| CategoryRoutes.DeletePreservesLinked | backend/routes/categoryRoutes.js:52-58 | A successful delete keeps every link mutual. |
| CategoryRoutes.DeleteFailureOrphans | backend/routes/categoryRoutes.js:52-58 | If `deleteMany` fails, the category's subcategories remain and point at a deleted category. |
| CategoryRoutes.DeleteLeavesProductsDangling | backend/routes/categoryRoutes.js:52-58 | Deleting a category keeps the products that reference it, still holding that reference. |
| Upload.DecimalValue | backend/routes/productRoutes.js:12 | The decimal form of the upload time reads back as that time. |
| Upload.UploadNameRoundTrip | backend/routes/productRoutes.js:12 | The stored name splits back into the upload time and the original file name. |
| Upload.UploadNamesCollide | backend/routes/productRoutes.js:7-14 | Two uploads get the same path exactly when they share the millisecond and the original name. |
| Upload.UploadPath | backend/routes/productRoutes.js:7-14 | The stored path is the name inside `uploads/`, and that name parses back to the upload time and the original name. |
| ProductRoutes.CreateProduct | backend/routes/productRoutes.js:19-30 | Create succeeds exactly when the four required fields pass and the save succeeds. Negative prices and a missing category are accepted. The stored product has the body's fields. `imageUrl` is the upload's path or null. On failure nothing changes and the status is 500. |
| ProductRoutes.PopulateCategory | backend/routes/productRoutes.js:35 | A category reference is populated exactly when its category exists. Otherwise it shows as null, never as a bare id. |
| ProductRoutes.ListProducts | backend/routes/productRoutes.js:33-40 | Lists every product, each with its category populated. |
| ProductRoutes.DeleteProduct | backend/routes/productRoutes.js:43-56 | An absent id answers 404 and changes nothing. Success removes exactly that product. |
| ProductRoutes.CreateThenDeleteRestores | backend/routes/productRoutes.js:19-56 | Deleting a product right after creating it succeeds and leaves the products as they were before the create. |
| ProductRoutes.UpdateProduct | backend/routes/productRoutes.js:59-81 | An empty name or description is rejected before the lookup, so a missing id then answers 500 and not 404. A valid update of an absent id answers 404. Otherwise only that product changes, and the reply is the stored document. |
| ProductRoutes.UpdateOverwritesGivenFields | backend/routes/productRoutes.js:63-71 | Fields the update sets take the new values, including an `imageUrl` in the body when no file came. Fields it omits keep their stored values. |
| ProductRoutes.Apply | backend/routes/productRoutes.js:63-71 | An update that sets no field leaves the stored product unchanged. |
| ProductRoutes.ApplyComposes | backend/routes/productRoutes.js:63-71 | Two successive updates leave the product as one update of their merged fields would. Repeating an update changes nothing more. |
| ProductRoutes.UpdateKeepsRequiredFields | backend/routes/productRoutes.js:71 | The update validators accept an update exactly when, written over a valid stored product, it leaves name and description non-empty. An omitted field always passes. |
| ProductRoutes.UpdateWithoutFileKeepsImage | backend/routes/productRoutes.js:63-69 | An update with no file and no `imageUrl` field keeps the stored image path. |
| ProductRoutes.UpdateWithFileSetsImage | backend/routes/productRoutes.js:67-69 | An update with a file stores that upload's path. |
| ProductRoutes.UpdateIdempotent | backend/routes/productRoutes.js:71 | Repeating the same update leaves the same store and reply. |
| ProductRoutes.ListAfterCreatePopulates | backend/routes/productRoutes.js:19-40 | A product created with an existing category lists with that category populated. |
| ProductRoutes.ListAfterCategoryDeleteShowsNull | backend/routes/productRoutes.js:35 | After its category is deleted, a product lists with a null category. |
| Collation.CompareAntisymmetric | frontend/src/components/UserDashboard.jsx:37 | Swapping the two names flips the sign of the comparison. |
| Collation.CompareZero | frontend/src/components/UserDashboard.jsx:37 | Names compare equal exactly when they are equal. |
| Collation.CompareTransitive | frontend/src/components/UserDashboard.jsx:37 | "Not after" is transitive. |
| Collation.Compare | frontend/src/components/UserDashboard.jsx:37 | The comparison answers -1, 0 or 1, and a name sorts before any longer name it is a prefix of. |
| Sorting.InOrderTotal | frontend/src/components/UserDashboard.jsx:36-54 | For every comparator, of two products one may precede the other. |
| Sorting.InOrderTransitive | frontend/src/components/UserDashboard.jsx:36-54 | Every comparator's "may precede" relation is transitive. |
| Sorting.Insert | frontend/src/components/UserDashboard.jsx:36-54 | Inserting into a sorted list keeps it sorted and adds exactly that product. |
| Sorting.Sort | frontend/src/components/UserDashboard.jsx:36-54 | The result is sorted under the comparator and is a permutation of the input. |
| Sorting.SortKeepsSorted | frontend/src/components/UserDashboard.jsx:36-54 | Sorting an already sorted list changes nothing. |
| Sorting.SortStable | frontend/src/components/UserDashboard.jsx:36-54 | The sort is stable on every input: the products the comparator ranks level with any given product come out in the order they went in, as `Array.prototype.sort` guarantees. |
| Sorting.InsertFilter | frontend/src/components/UserDashboard.jsx:36-54 | Inserting a product puts it behind every product already there that ranks level with it. |
| Sorting.PriceSortsOrderPrices | frontend/src/components/UserDashboard.jsx:46-54 | Low-to-high yields non-decreasing prices. High-to-low yields non-increasing prices. |
| Sorting.NameSortsOrderNames | frontend/src/components/UserDashboard.jsx:36-44 | A-Z yields ascending names. Z-A yields descending names. |
| Dashboard.Loaded | frontend/src/components/UserDashboard.jsx:16-17 | After the fetch, the full list is shown and nothing is selected. |
| Dashboard.SortBy | frontend/src/components/UserDashboard.jsx:36-54 | Sorting reorders only the displayed list, into a sorted permutation. The full list and the selection are kept. |
| Dashboard.SortByStable | frontend/src/components/UserDashboard.jsx:36-54 | Products the sort ranks level keep the order they had on display. |
| Dashboard.FilterByPriceRange | frontend/src/components/UserDashboard.jsx:56-59 | The display becomes exactly the full list's products priced in [min, max], in order, each with its multiplicity. The selected category is kept. |
| Dashboard.FilterByCategory | frontend/src/components/UserDashboard.jsx:61-65 | The display becomes exactly the full list's products whose populated category has that id, in order, and the category becomes selected. |
| Dashboard.ResetFilters | frontend/src/components/UserDashboard.jsx:67-70 | The full list is shown again and the selection is cleared. |
| Dashboard.ResetUndoesFilters | frontend/src/components/UserDashboard.jsx:56-70 | After a category filter, or a price filter and a sort, the reset returns the view to how it was loaded. |
| Dashboard.FiltersStartFromFullList | frontend/src/components/UserDashboard.jsx:56-65 | A filter's result does not depend on what was displayed before, so filters do not compose. |
| Dashboard.PriceFilterKeepsStaleSelection | frontend/src/components/UserDashboard.jsx:56-65 | A price filter after a category filter keeps the category highlighted and shows products of any category. |
| Dashboard.PriceFilterKeepsQualifyingList | frontend/src/components/UserDashboard.jsx:56-59 | If every product is in range, the price filter shows the whole list unchanged. |
| Dashboard.PriceButtonsOverlapAndGap | frontend/src/components/UserDashboard.jsx:93-104 | A price of 100 lies in two button ranges. Prices of 500.5 and 1000.5 lie in none. |
| Dashboard.PriceButtonsOnDisplay | frontend/src/components/UserDashboard.jsx:93-104 | A listed product priced 100 is shown by the first two price buttons. One priced 500.5 is shown by none of the four. |
| Seqs.Filter | frontend/src/components/Products.jsx:157 | `filter` keeps only passing elements, in their original order, and is never longer than its input. |
| Seqs.FilterCount | frontend/src/components/Products.jsx:157 | A passing element appears in the filtered list as often as in the input. A failing one does not appear. |
| Seqs.FilterMembership | frontend/src/components/Products.jsx:157 | An element is in the filtered list exactly when it is in the list and passes. |
| Seqs.FilterAppend | frontend/src/components/Products.jsx:157 | Filtering a list with one element appended is the filter of the list followed by that element if it passes. |
| Seqs.Replace | frontend/src/components/Products.jsx:123-125 | Position by position, matching elements become the new value and the others stay. |
| Seqs.FilterIgnoresReplaced | frontend/src/components/Products.jsx:123-157 | A filter that rejects every replaced element and its replacement sees the same list before and after replacing. |
| Text.Split | frontend/src/components/Categories.jsx:48 | `split` gives one more piece than there are separators, and no piece contains the separator. |
| Text.JoinSplit | frontend/src/components/Categories.jsx:48 | Joining the pieces of a split gives back the input. |
| Text.SplitJoin | frontend/src/components/Categories.jsx:48 | Splitting joined pieces that lack the separator gives back the pieces. |
| Text.Trim | frontend/src/components/Categories.jsx:48 | `trim` yields the slice of the input left after removing leading and trailing whitespace. The result has no whitespace at either end. |
| Text.TrimKeepsTrimmed | frontend/src/components/Categories.jsx:48 | `trim` leaves a string with no edge whitespace unchanged. |
| ProductsPage.ResetForm | frontend/src/components/Products.jsx:165-170 | Clears the form, image, editing id and validated flag, and keeps the table. |
| ProductsPage.AddProduct | frontend/src/components/Products.jsx:56-91 | An invalid form or failed request only sets the validated flag. Success appends the returned product and resets the form. |
| ProductsPage.UpdateProduct | frontend/src/components/Products.jsx:93-132 | On success, rows with the edited id become the returned product, other rows stay, and the form resets. Otherwise only the validated flag is set. |
| ProductsPage.EditProduct | frontend/src/components/Products.jsx:134-145 | Edit loads the product's fields and drops the image. The form gets a category only when the category is populated. A null category sets only the editing id. |
| ProductsPage.DeleteProduct | frontend/src/components/Products.jsx:147-163 | After a confirmed, successful request, the table is the old table without that id's rows, in order, with every other row as often as before. Otherwise nothing changes. |
| ProductsPage.Submit | frontend/src/components/Products.jsx:178 | While editing, success replaces the edited rows in place. Otherwise success appends a row. |
| ProductsPage.AddThenDeleteRestores | frontend/src/components/Products.jsx:85-157 | Deleting a product just added, with a fresh id, restores the table. |
| ProductsPage.UpdateTouchesOnlyEditedRows | frontend/src/components/Products.jsx:123-157 | An update changes no row other than the edited id's. |
| CategoriesPage.Loaded | frontend/src/components/Categories.jsx:18-34 | The fetched list replaces the table. A failed fetch changes nothing. |
| CategoriesPage.ParseSubcategories | frontend/src/components/Categories.jsx:48 | The input yields one name per comma-separated piece, count of commas plus one. Name i is piece i with whitespace trimmed from both ends, so names have no comma and no edge whitespace. |
| CategoriesPage.Request | frontend/src/components/Categories.jsx:37-60 | A request is sent exactly when both inputs are non-empty. It carries the name and the parsed subcategory names. |
| CategoriesPage.AddCategory | frontend/src/components/Categories.jsx:37-68 | The validated flag is always set. Success appends the returned category and clears both inputs. Otherwise nothing else changes. |
| CategoriesPage.ShowDeleteModal | frontend/src/components/Categories.jsx:85-88 | Opens the dialog on that id and leaves the table and inputs alone. |
| CategoriesPage.HideModal | frontend/src/components/Categories.jsx:172-178 | Closes the dialog and changes nothing else. |
| CategoriesPage.DeleteCategory | frontend/src/components/Categories.jsx:70-83 | On success, exactly the rows with the selected id go, in order, every other row kept as often as before, and the dialog closes. On failure nothing changes. |
| CategoriesPage.ParseJoinRoundTrip | frontend/src/components/Categories.jsx:48 | Names without commas and edge whitespace, typed comma-separated, parse back to themselves. |
| CategoriesPage.ParseKeepsEmptyPieces | frontend/src/components/Categories.jsx:48 | "a,,b" asks for three subcategories, one with an empty name. |
| CategoriesPage.SentRequestCreates | frontend/src/components/Categories.jsx:47-61 | A sent request always passes the server's name check. A successful create makes one subcategory per piece, named by the trimmed piece. The appended row holds bare ids. |
| CategoriesPage.ShowThenDeleteRemoves | frontend/src/components/Categories.jsx:77-88 | Opening the dialog on a row and confirming leaves exactly the rows with other ids. |

## Left out

- HTTP routing, JSON serialisation and authentication headers are not modelled; routes are functions of the store and the parsed body.
- Route and page I/O is not modelled. Each store call's outcome is a `Fault` parameter. Each client request's outcome is a `Response` parameter. The upload clock (`Date.now()`) is a parameter.
- multer's disk write and its `uploads/` directory handling are not modelled. Only the name and path rule is.
- Mongoose casting is not modelled: form strings to numbers and ObjectIds, and an empty or malformed id. Bodies arrive already typed, with a missing field as `None`.
- Map order is not modelled. `find()` returns documents in natural order, and `ListCategories` and `ListProducts` return maps keyed by id.
- backend/models/Subcategory.js is not part of this model. Subcategory saves are therefore never rejected, including for an empty name.
- Collation.Compare: orders names by code point, not by `localeCompare`'s locale-aware collation, which is outside Dafny's reach. It keeps the sign convention, but it is a total order while `localeCompare` is only a total preorder: distinct strings that are canonically equivalent, such as "\u00e9" and "e\u0301", compare 0 under `localeCompare`. So Collation.CompareZero, and the classes of level products that Sorting.SortStable keeps in order, hold for the code-point order and not for `localeCompare`.
- `Fault` makes at most one store call of a request fail. Under `Promise.all` (backend/routes/categoryRoutes.js:22) several subcategory saves can fail together and leave more than one id missing; the model shows only one missing id per create.
- Prices and stock are exact `real` numbers rather than IEEE doubles. Rounding in `a.price - b.price` is not modelled.
- Concurrent requests are not modelled; each request runs to completion before the next.
- ProductRoutes.UpdateWithoutFileKeepsImage: holds only when the body has no `imageUrl` field. The route spreads the whole body into the update, so a body `imageUrl` applies without a file; ProductRoutes.UpdateOverwritesGivenFields states that case.
- ProductsPage.EditProduct: a null category throws in the handler. This is modelled as the editing id set and the form unchanged, which is what React applies from the queued updates.
- The product form's browser validity check is a parameter, because the file input is not a controlled field. The category form's check is computed from its two `required` inputs.
- Rendering is not modelled: table rows, button highlighting, the subcategory names joined for display, and the Login, Register, Header and App components.
- backend/server.js and backend/routes/authRoutes.js are not part of this model.
- The initial fetch in Products.jsx (lines 28-50) is not modelled. It only replaces the two lists with the server's.
