# Storefront cart and admin logic, in Dafny

This project models the client-side logic of a storefront single-page
application. It covers the shopping-cart store that the React context
provides, the persistence of that cart in one local-storage slot, the two
cart pages that drive the store, the sortable supplier table of the admin
screen, and the price filter of the product list. Every operation is a
pure function over immutable values, as it is inside React's
`setItems(current => ...)`.

Modules, one per source file:

- `Js`: `null` (`Option`) and the result of `parseInt`/`parseFloat` (`Number`: a value or NaN).
- `StringOrder`: JavaScript's `<` on strings, proved to be a strict total order.
- `CartStore` (`context/CartContext.tsx`): `CartItem`, `FindIndex`, `AddItem` (merge-on-add),
  `RemoveItem`, `UpdateQuantity`, `ClearCart`, `ItemCount`, and the rows a cart table shows.
- `CartPersistence` (`context/CartContext.tsx`): the load effect on mount and the save effect
  after every change. Local storage is an optional string, and JSON is a `Codec` parameter.
- `CartView` (`components/Cart.tsx`): the "+", "-" and Remove buttons and the empty/table view.
- `CartPage` (`components/entity/cart/CartPage.tsx`): subtotal, 5 percent discount, shipping of 10,
  grand total, and the `parseInt(value) || 1` quantity input.
- `AdminSuppliers` (`components/admin/AdminSuppliers.tsx`): the (field, order) sort state, its
  comparator, a stable sort, and the header arrow.
- `ProductFilter` (`components/entity/product/ProductFilter.tsx`): the (min text, max text) state
  and its three handlers.

The code does not guard the following cases, and the model follows it:

- `addItem` does not reject a quantity of zero or below. `AddItem` appends or merges any quantity.
- `updateQuantity` with a quantity of zero or below does not remove the entry. `UpdateQuantity`
  keeps it with that quantity, and `UpdateToZeroIsNotRemoval` proves the difference.
- Quantities are not kept at 1 or more. The "-" button takes a row from 1 to 0 and then below 0.
- The context offers no total price, only `getItemCount`. The order total exists only in
  CartPage.tsx, as `subtotal`.
- On a merge, the stored entry keeps its own name and price. The subtotal grows at the stored
  price (`AddItemSubtotalMerged`).
- A slot that does not parse is not kept. The save effect that runs on mount overwrites it with the
  encoding of the empty cart (`CorruptSlotStartsEmpty`).

## Model

| member | source | states |
|---|---|---|
| CartStore.FindIndex | frontend/src/context/CartContext.tsx:49 | -1 exactly when no entry has the id; otherwise an entry with the id, and no earlier entry has it |
| CartStore.AddItem | frontend/src/context/CartContext.tsx:46-64 | a new product is appended at the end, with the earlier entries unchanged; a present product keeps the length, and only its first entry changes, by the added quantity, with every other field kept |
| CartStore.AddItemMergesAt | frontend/src/context/CartContext.tsx:49-58 | when entry i is the first with the id, adding is exactly replacing entry i by itself with the quantities summed |
| CartStore.AddItemKeepsUniqueIds | frontend/src/context/CartContext.tsx:46-64 | if product ids are unique before an add, they are unique after it |
| CartStore.AddItemHoldsProduct | frontend/src/context/CartContext.tsx:46-64 | after an add the cart contains the added product id |
| CartStore.RepeatedAddsMerge | frontend/src/context/CartContext.tsx:46-64 | adding one product any number of times to a cart without it yields one new last entry, whose quantity is the sum of the added quantities; earlier entries are unchanged, whether or not their ids are unique |
| CartStore.RepeatedAddsKeepUniqueIds | frontend/src/context/CartContext.tsx:46-64 | repeated adds of one product to a cart with unique ids that lacks it keep the ids unique |
| CartStore.ItemCount | frontend/src/context/CartContext.tsx:80-84 | the item count is non-negative when every quantity is |
| CartStore.AddItemCount | frontend/src/context/CartContext.tsx:80-84 | after an add, the item count grows by exactly the added quantity, whether it merged or appended |
| CartStore.ItemCountAppend | frontend/src/context/CartContext.tsx:81 | the count of a concatenation is the sum of the counts |
| CartStore.RemoveItem | frontend/src/context/CartContext.tsx:66-69 | no entry with the id remains; the cart shrinks when the id was present and is unchanged when it was absent |
| CartStore.RemoveItemMembers | frontend/src/context/CartContext.tsx:68 | the kept entries are exactly the entries of other products |
| CartStore.RemoveItemAppend | frontend/src/context/CartContext.tsx:68 | removal distributes over concatenation, so the kept entries stay in their original order |
| CartStore.RemoveItemUnique | frontend/src/context/CartContext.tsx:66-69 | with unique ids, removing entry i's product gives the cart without entry i, the rest in order |
| CartStore.RemoveItemIdempotent | frontend/src/context/CartContext.tsx:68 | removing the same id twice equals removing it once |
| CartStore.RemoveItemKeepsUniqueIds | frontend/src/context/CartContext.tsx:66-69 | removal keeps product ids unique |
| CartStore.UpdateQuantity | frontend/src/context/CartContext.tsx:71-78 | the length is kept; entries with the id get quantity q, whatever its sign, with all other fields kept; other entries are unchanged |
| CartStore.UpdateQuantityKeepsEntries | frontend/src/context/CartContext.tsx:71-78 | every position keeps its product id, so the product is present after the update exactly when it was before |
| CartStore.UpdateToZeroIsNotRemoval | frontend/src/context/CartContext.tsx:71-78 | for a present product, setting quantity 0 differs from removing it |
| CartStore.UpdateQuantityLastWins | frontend/src/context/CartContext.tsx:71-78 | two updates of one product equal the second update alone |
| CartStore.UpdateQuantityUnique | frontend/src/context/CartContext.tsx:71-78 | with unique ids, updating entry i's product rewrites only entry i, and the count changes by q minus the old quantity |
| CartStore.UpdateQuantityKeepsUniqueIds | frontend/src/context/CartContext.tsx:71-78 | an update keeps product ids unique |
| CartStore.ClearCart | frontend/src/context/CartContext.tsx:86-89 | the cleared cart is empty and its item count is 0 |
| CartStore.LineTotal | frontend/src/components/entity/cart/CartPage.tsx:80 | a line total is non-negative for a non-negative price and quantity, 0 for quantity or price 0, and the price itself for quantity 1 |
| CartStore.Rows | frontend/src/components/entity/cart/CartPage.tsx:80 | one row per entry, in cart order, each showing price times quantity |
| CartPersistence.Load | frontend/src/context/CartContext.tsx:27-38 | a missing or empty slot, or one that does not parse, leaves the initial empty cart; a parsed cart is adopted as is |
| CartPersistence.Mount | frontend/src/context/CartContext.tsx:24-44 | after mounting, the items are exactly what the load effect gives (empty for a missing, empty or unparsable slot, otherwise the parsed cart), and the slot holds their encoding |
| CartPersistence.Dispatch | frontend/src/context/CartContext.tsx:40-89 | the new items are the action's transition of the old ones (add, remove, set quantity or clear), and the slot then holds their encoding; after Clear both are empty |
| CartPersistence.RunMirrors | frontend/src/context/CartContext.tsx:40-44 | however many actions follow, the slot keeps holding the encoding of the current items |
| CartPersistence.ApplyKeepsUniqueIds | frontend/src/context/CartContext.tsx:46-89 | each of the four transitions keeps product ids unique |
| CartPersistence.RunKeepsUniqueIds | frontend/src/context/CartContext.tsx:46-89 | a session that starts with unique product ids keeps them unique after every action |
| CartPersistence.ReloadRestoresItems | frontend/src/context/CartContext.tsx:27-44 | if the codec reads back what it wrote, remounting from the slot restores the same items and item count |
| CartPersistence.CorruptSlotStartsEmpty | frontend/src/context/CartContext.tsx:28-36 | unparsable slot text leaves the cart empty, and the slot is then overwritten with the empty cart's encoding |
| CartView.Increase | frontend/src/components/Cart.tsx:75 | "+" raises the row's quantity by one, keeps its other fields, and leaves other products' rows unchanged |
| CartView.Decrease | frontend/src/components/Cart.tsx:65 | "-" lowers the row's quantity by one with no lower bound, and leaves other products' rows unchanged |
| CartView.RemoveRow | frontend/src/components/Cart.tsx:88 | Remove leaves no row for that product, and the cart gets shorter |
| CartView.Render | frontend/src/components/Cart.tsx:7-84 | the empty view is shown exactly when the cart is empty; otherwise one row per entry, with total price times quantity |
| CartView.IncreaseChangesOnlyRow | frontend/src/components/Cart.tsx:75 | with unique ids, "+" changes exactly that row's quantity and nothing else |
| CartView.IncreaseThenDecrease | frontend/src/components/Cart.tsx:65-75 | with unique ids, "+" then "-" on the same row gives back the original cart |
| CartView.DecreaseFromOneKeepsRow | frontend/src/components/Cart.tsx:65 | "-" on quantity 1 keeps the row, with the same product and quantity 0 |
| CartView.RemoveRowDeletesRow | frontend/src/components/Cart.tsx:88 | with unique ids, Remove deletes exactly that row and keeps the others in order |
| CartPage.Subtotal | frontend/src/components/entity/cart/CartPage.tsx:13 | the subtotal is non-negative when all prices and quantities are |
| CartPage.SubtotalAppend | frontend/src/components/entity/cart/CartPage.tsx:13 | the subtotal of a concatenation is the sum of the subtotals |
| CartPage.SubtotalIsSumOfRows | frontend/src/components/entity/cart/CartPage.tsx:13 | the subtotal equals the sum of the row totals the table shows |
| CartPage.EmptyCartTotals | frontend/src/components/entity/cart/CartPage.tsx:13-16 | an empty cart has subtotal 0, discount 0, and grand total equal to the shipping charge |
| CartPage.DiscountAmount | frontend/src/components/entity/cart/CartPage.tsx:7-14 | the discount is one twentieth of the subtotal, so it is between 0 and the subtotal when the subtotal is non-negative |
| CartPage.GrandTotal | frontend/src/components/entity/cart/CartPage.tsx:15-16 | the grand total is 0.95 times the subtotal plus 10, so it lies between 10 and subtotal plus 10 for a non-negative subtotal |
| CartPage.QuantityFromInput | frontend/src/components/entity/cart/CartPage.tsx:73 | the result is never 0: NaN and 0 become 1, and any other integer passes through, negatives included |
| CartPage.ChangeQuantity | frontend/src/components/entity/cart/CartPage.tsx:72-76 | editing a row's input gives it the fallback quantity, never 0, keeps its other fields and the cart length, and leaves other products' rows unchanged |
| CartPage.QuantityInputExamples | frontend/src/components/entity/cart/CartPage.tsx:73 | typing 0 or a non-number sets quantity 1; typing -3 sets quantity -3 |
| CartPage.WidgetSession | frontend/src/context/CartContext.tsx:46-84 | two adds of one product at 9.99 (2, then 3) give one row of 5 with subtotal 49.95; updating it to 0 keeps the row, with count 0 |
| CartPage.Render | frontend/src/components/entity/cart/CartPage.tsx:13-18 | the empty view is shown exactly when the cart is empty; otherwise row totals are price times quantity, the shown subtotal is the cart's subtotal, shipping is 10, the discount is a twentieth of the subtotal and the grand total is 0.95 times it plus 10 |
| CartPage.SubtotalReplace | frontend/src/components/entity/cart/CartPage.tsx:13 | replacing one entry changes the subtotal by the difference of the two line totals |
| CartPage.LineTotalMerge | frontend/src/components/entity/cart/CartPage.tsx:80 | raising a quantity by n raises the line total by n units at the entry's price |
| CartPage.AddItemSubtotalMerged | frontend/src/context/CartContext.tsx:49-58 | adding a product already in the cart raises the subtotal at the stored price; the new item's price is ignored |
| CartPage.AddItemSubtotalAppended | frontend/src/context/CartContext.tsx:59-61 | adding a new product raises the subtotal by its own price times quantity |
| StringOrder.Less | frontend/src/components/admin/AdminSuppliers.tsx:73-75 | a proper prefix is less than the longer string, and no string is less than the empty string |
| StringOrder.LessIsLexicographic | frontend/src/components/admin/AdminSuppliers.tsx:73-75 | one string is less than another exactly when it is a proper prefix of it, or has the smaller character at the first position where they differ |
| StringOrder.LessIrreflexive | frontend/src/components/admin/AdminSuppliers.tsx:73 | no string is less than itself |
| StringOrder.LessTransitive | frontend/src/components/admin/AdminSuppliers.tsx:73 | string less-than is transitive |
| StringOrder.LessTrichotomous | frontend/src/components/admin/AdminSuppliers.tsx:73 | any two strings are equal or ordered one way or the other |
| StringOrder.LessAsymmetric | frontend/src/components/admin/AdminSuppliers.tsx:73-75 | two strings are never each less than the other |
| AdminSuppliers.HandleSort | frontend/src/components/admin/AdminSuppliers.tsx:40-47 | the clicked field becomes active; if it was already active the order flips, otherwise it resets to ascending |
| AdminSuppliers.InitialSortShowsNameAscending | frontend/src/components/admin/AdminSuppliers.tsx:24-25 | on first render the name header carries the up arrow and no other header has one |
| AdminSuppliers.HandleSortTwiceRestores | frontend/src/components/admin/AdminSuppliers.tsx:40-42 | two clicks on the active field restore the state |
| AdminSuppliers.HandleSortNewFieldTwice | frontend/src/components/admin/AdminSuppliers.tsx:43-46 | two clicks on a new field leave it active and descending |
| AdminSuppliers.Key | frontend/src/components/admin/AdminSuppliers.tsx:53-70 | the compared string is the supplier's name, contact person, email or phone, as the active field selects |
| AdminSuppliers.KeyIgnoresIdAndDescription | frontend/src/components/admin/AdminSuppliers.tsx:49-77 | changing a supplier's id or description never changes how it compares |
| AdminSuppliers.Compare | frontend/src/components/admin/AdminSuppliers.tsx:49-77 | the result is -1, 0 or 1; it is 0 exactly for equal keys; it is negative when the key order matches the chosen direction |
| AdminSuppliers.DescNegatesAsc | frontend/src/components/admin/AdminSuppliers.tsx:72-76 | the descending comparator is the negation of the ascending one |
| AdminSuppliers.CompareAntisymmetric | frontend/src/components/admin/AdminSuppliers.tsx:72-76 | swapping the arguments negates the comparator |
| AdminSuppliers.InOrderTransitive | frontend/src/components/admin/AdminSuppliers.tsx:72-76 | the comparator's non-positive relation is transitive |
| AdminSuppliers.Insert | frontend/src/components/admin/AdminSuppliers.tsx:49 | inserting into a sorted table yields a sorted table with the same rows plus the new one |
| AdminSuppliers.SortSuppliers | frontend/src/components/admin/AdminSuppliers.tsx:49-77 | the table is a permutation of the suppliers, and every pair of rows is in comparator order |
| AdminSuppliers.SortedAscNonDecreasing | frontend/src/components/admin/AdminSuppliers.tsx:72-73 | in ascending mode the selected field never decreases down the table |
| AdminSuppliers.SortedDescNonIncreasing | frontend/src/components/admin/AdminSuppliers.tsx:74-76 | in descending mode the selected field never increases down the table |
| AdminSuppliers.SortIcon | frontend/src/components/admin/AdminSuppliers.tsx:79-84 | a header has an arrow exactly when it is the active field: up when ascending, down when descending |
| AdminSuppliers.HandleSortMovesIcon | frontend/src/components/admin/AdminSuppliers.tsx:40-84 | after a click only the clicked header has an arrow, and it points up when that header was not active before |
| ProductFilter.Bound | frontend/src/components/entity/product/ProductFilter.tsx:13-14 | an empty text is reported as null and any other text as its parseFloat value |
| ProductFilter.HandleMinPriceChange | frontend/src/components/entity/product/ProductFilter.tsx:11-16 | only the min text changes; the report's max comes from the stored max text |
| ProductFilter.HandleMaxPriceChange | frontend/src/components/entity/product/ProductFilter.tsx:18-23 | only the max text changes; the report's min comes from the stored min text |
| ProductFilter.HandleClearFilters | frontend/src/components/entity/product/ProductFilter.tsx:25-29 | both texts become empty and (null, null) is reported |
| ProductFilter.StepReportsNewState | frontend/src/components/entity/product/ProductFilter.tsx:11-29 | for every event, the report is exactly the reading of the state the handler leaves |
| ProductFilter.EmptyInputIsNull | frontend/src/components/entity/product/ProductFilter.tsx:13-21 | an input left empty is never reported as a number |
| ProductFilter.ClearIdempotent | frontend/src/components/entity/product/ProductFilter.tsx:25-29 | clearing twice equals clearing once |
| ProductFilter.MinMaxChangesCommute | frontend/src/components/entity/product/ProductFilter.tsx:11-23 | changing min then max, or max then min, ends in the same state and the same last report |
| ProductFilter.RunEndsWithClear | frontend/src/components/entity/product/ProductFilter.tsx:25-29 | any run of events that ends with Clear leaves both inputs empty |

## Left out

- React plumbing is not modelled: effect scheduling, batching, development-mode double effects,
  and the context provider. Handlers are modelled as seeing the state of the latest render.
- `useCart` throwing outside a provider is not modelled. Neither is any JSX, styling, or `toFixed`
  formatting.
- JavaScript numbers are not IEEE doubles here: product ids and quantities are `int` and prices are
  `real`, with no rounding or overflow. `parseInt` and `parseFloat` are parameters returning
  a number or NaN.
- JSON is not modelled. `JSON.stringify`/`JSON.parse` are the `Codec` parameters, and a parse that
  throws is `None`. A parse that succeeds with a value of another shape (e.g. `null`) is not
  modelled: the code adopts it unchecked.
- Console logging is left out.
- Writes to local storage are modelled as always succeeding. A storage quota error is not modelled.
- Cart.tsx reads `totalPrice` from the context and `imgName` from each item. Neither exists in the
  context type or `CartItem`, so its footer and image are not modelled.
- CartView.Render: for a non-empty cart, Cart.tsx (the page routed at `/cart`) throws a TypeError
  at Cart.tsx:103, because `totalPrice` is undefined and `totalPrice.toFixed(2)` fails. Nothing is
  drawn, and the "+", "-" and Remove buttons inside the table are never shown. The model describes
  the table the code tries to draw, and `Increase`, `Decrease` and `RemoveRow` describe what those
  buttons would do. CartPage.tsx, which App.tsx does not route, draws the
  same rows without the failing footer.
- The navigation badge (Navigation.tsx) is not modelled. It reads `totalItems`, which the context
  does not provide.
- The rest of AdminSuppliers.tsx is not modelled: fetching and deleting over HTTP, the confirm and
  alert dialogs, the edit form that does not save, and the admin redirect.
- Suppliers.tsx (a fetch-and-render page) and App.tsx (routing) are not modelled.
- StringOrder.Less compares Unicode scalar values, while JavaScript compares UTF-16 code units.
  The two orders agree on text without characters outside the Basic Multilingual Plane.
- AdminSuppliers.SortSuppliers: stability is not proved. `Array.prototype.sort` is stable, and
  the insertion sort that models it is stable too, but the contract states only permutation and
  order. So rows with equal keys are not pinned to their input order.
- CartPage.Render: the summary figures are stated as exact reals; the rounding that `toFixed(2)`
  does on display is not modelled.
