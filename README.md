# Restaurant ordering UI — verified model

This project models the logic inside the pages of a small Next.js restaurant
application. It proves, in Dafny, what that logic guarantees. Five parts are modelled:

- **Dish customization dialog** (`CustomizeDish`). It keeps one in-progress record:
  - the ingredients excluded from the dish,
  - the chosen preparation,
  - the selected add-ons,
  - a quantity that never drops below 1,
  - a free-text note.

  It also shows a live price for the record.
- **The customer's order**. Three modules cover it:
  - `ClientMenu` is the menu page. A plain add merges into the dish's uncustomized line; a customized add always appends a new line.
  - `Cart` is the cart page: quantity changes with clamping, line prices, and the subtotal, 16% tax and total.
  - `OrderLines` holds what both pages share: removing lines by id, counting items, and the running total.
- **Kitchen board** (`Kitchen`). Each dish advances enviado → recibido → preparando → listo. The order's status (pendiente / en-proceso / completado) is derived from its dishes whenever one of them changes.
- **Admin order history** (`OrderHistory`): search by order id or customer, pages of ten orders, previous/next controls, and status tabs.
- **Admin menu list** (`AdminMenu`): search, delete, availability switch, category labels and category tabs.

Supporting modules:
- `Catalog` holds the dishes and the per-dish ingredient, preparation and add-on tables. The menu page and the cart page each carry an identical copy of the add-on table; one shared table is used here.
- `Strings` provides decimal rendering of ids, ASCII lower-casing and substring search.
- `Seqs` provides `Array.prototype.filter` and its laws.
- `Wrappers` provides `Option` and `Result`.

React `useState` updaters are modelled as functions from the old state to the new one. The `forEach` accumulation loops become methods with `while` loops, each proved equal to a specification function:
- `CustomizeDish.ComputeTotal` models `calcularPrecioTotal`;
- `OrderLines.ItemPrice` and `OrderLines.TotalPrice` model `getTotalPrice`;
- `Cart.LinePrice` models `calcularPrecioItem`.

Money is `int`, because every price in the data is a whole number; tax is `real`. A customized line's id uses the clock reading `Date.now()`, which becomes a parameter `now`.

Edge cases the model keeps as the code has them:
- An unknown line id makes `updateQuantity`, `removeItem` and `removeFromOrder` do nothing; no error is reported.
- The dialog does not check that an ingredient, preparation or add-on id belongs to the dish being customized.
- A dish opens the customization dialog when it has an entry in any of the three tables, even an empty one. JavaScript treats an empty array as true.
- There is no operation that clears or cancels an order.

## Model

| member | source | states |
|---|---|---|
| Strings.Contains | app/admin/menu/page.tsx:92-93 | `includes`: the empty string is in every string, and a string found is no longer than the one searched |
| Strings.ContainsOccurrence | app/admin/menu/page.tsx:92-93 | every occurrence of the query, wherever it sits, is found |
| Strings.ContainsFindsOccurrence | app/admin/menu/page.tsx:92-93 | whatever is reported found actually occurs at some index |
| Catalog.AddOnsFor | app/cliente/menu/page.tsx:209 | a dish without an add-on entry offers no add-ons (`adicionalesDisponibles[id] \|\| []`) |
| Catalog.PreparationsFor | app/cliente/menu/page.tsx:106-116 | a dish without a preparation entry offers none |
| Catalog.IngredientsFor | app/cliente/menu/page.tsx:89-104 | a dish without an ingredient entry offers none |
| Catalog.HasCustomizationOptions | app/cliente/menu/page.tsx:139-144 | a dish that does not open the dialog has no ingredients, preparations or add-ons to offer |
| Catalog.EmptyEntryOpensDialog | app/cliente/menu/page.tsx:139-144 | a dish whose only table entry is an empty add-on list still opens the dialog, with nothing to offer |
| Catalog.AddOnSumNonNegative | components/platillo-personalizado-modal.tsx:126-131 | with non-negative add-on prices, the add-on surcharge is never negative |
| Catalog.AddOnSumMonotone | components/platillo-personalizado-modal.tsx:126-131 | selecting more add-ons never lowers the surcharge |
| Catalog.AddOnSumSameMembers | components/platillo-personalizado-modal.tsx:128 | the surcharge depends only on which ids are selected, not on their order or repetition (`includes`) |
| Catalog.AddOnSumIgnoresUnknown | app/cliente/carrito/page.tsx:246-251 | a selected id the catalog does not offer adds nothing |
| Catalog.AddOnSumNothingSelected | app/cliente/carrito/page.tsx:245 | with nothing selected the surcharge is 0 |
| Catalog.SeededOptions | app/cliente/menu/page.tsx:89-129 | of the six seeded dishes exactly the burger and the pizza open the dialog; every seeded add-on price is non-negative |
| CustomizeDish.Start | components/platillo-personalizado-modal.tsx:62-68 | a new record has no exclusions, no add-ons, quantity 1 and an empty note; the preparation is the first preparation's id, or "" when there is none |
| CustomizeDish.Toggle | components/platillo-personalizado-modal.tsx:84-98 | the id's membership flips and no other id's membership changes; an absent id is appended at the end; a list without duplicates stays without duplicates |
| CustomizeDish.ToggleKeepsOrder | components/platillo-personalizado-modal.tsx:84-114 | unchecking a present id removes it and keeps the other ids in their order |
| CustomizeDish.ToggleTwiceAbsent | components/platillo-personalizado-modal.tsx:84-98 | toggling an absent id twice gives back exactly the original list |
| CustomizeDish.ToggleTwiceMembers | components/platillo-personalizado-modal.tsx:84-98 | toggling any id twice restores the set of members |
| CustomizeDish.ToggleExcludedIngredient | components/platillo-personalizado-modal.tsx:84-98 | flips the ingredient's exclusion and leaves preparation, add-ons, quantity and note unchanged |
| CustomizeDish.ToggleAddOn | components/platillo-personalizado-modal.tsx:100-114 | flips the add-on's selection and leaves every other field unchanged |
| CustomizeDish.ChangeQuantity | components/platillo-personalizado-modal.tsx:116-121 | the new quantity is q + delta when that is at least 1, otherwise 1; other fields are unchanged |
| CustomizeDish.SetPreparation | components/platillo-personalizado-modal.tsx:229-230 | only the preparation changes |
| CustomizeDish.SetNote | components/platillo-personalizado-modal.tsx:291-292 | only the note changes |
| CustomizeDish.DecrementEnabled | components/platillo-personalizado-modal.tsx:159 | the minus button is enabled exactly when pressing it would lower the quantity by one rather than be clamped |
| CustomizeDish.DecrementControl | components/platillo-personalizado-modal.tsx:159 | on a valid record the minus button is disabled exactly at quantity 1 |
| CustomizeDish.ComputeTotal | components/platillo-personalizado-modal.tsx:123-134 | the loop's result is (price + surcharge of the offered add-ons selected) × quantity |
| CustomizeDish.TotalIgnoresNonPriceFields | components/platillo-personalizado-modal.tsx:123-134 | excluding an ingredient, choosing a preparation or writing a note never changes the price |
| CustomizeDish.SelectingAddOnNeverLowersTotal | components/platillo-personalizado-modal.tsx:124-131 | with non-negative prices, selecting an extra add-on never lowers the price |
| CustomizeDish.RaisingQuantityNeverLowersTotal | components/platillo-personalizado-modal.tsx:124-131 | with non-negative prices, raising the quantity never lowers the price |
| CustomizeDish.BurgerWithBaconAndGuacamole | components/platillo-personalizado-modal.tsx:123-134 | the burger (120) with extra bacon and guacamole costs 155 |
| OrderLines.RemoveLine | app/cliente/menu/page.tsx:189-191 | keeps exactly the lines with another id; an unknown id changes nothing; positive quantities stay positive |
| OrderLines.RemoveLineKeepsOrder | app/cliente/carrito/page.tsx:148-149 | removal keeps the surviving lines in their order (it distributes over concatenation) |
| OrderLines.ItemCount | app/cliente/carrito/page.tsx:157-159 | with positive quantities the item count is at least the number of lines |
| OrderLines.ItemCountAppend | app/cliente/menu/page.tsx:199-201 | the item count of two joined orders is the sum of their counts |
| OrderLines.SubtotalAppend | app/cliente/carrito/page.tsx:161-177 | the subtotal of two joined orders is the sum of their subtotals |
| OrderLines.PlainLineTotal | app/cliente/carrito/page.tsx:242-255 | a line without customization costs price × quantity |
| OrderLines.ItemPrice | app/cliente/menu/page.tsx:205-216 | price × quantity plus each selected add-on's price × quantity equals (price + surcharge) × quantity, the line price `calcularPrecioItem` computes |
| OrderLines.TotalPrice | app/cliente/carrito/page.tsx:161-177 | `getTotalPrice` is the sum of the line prices |
| ClientMenu.PlainLineId | app/cliente/menu/page.tsx:155 | a plain line's id is the dish id's decimal digits and never contains a dash |
| ClientMenu.CustomLineId | app/cliente/menu/page.tsx:170 | a customized line's id starts with the dish's plain id and contains a dash |
| ClientMenu.PlainLineIdInjective | app/cliente/menu/page.tsx:155 | two different dishes never get the same plain line id |
| ClientMenu.LineIdsDistinct | app/cliente/menu/page.tsx:155-170 | a plain line's id never equals a customized line's id |
| ClientMenu.IncrementPlain | app/cliente/menu/page.tsx:162-164 | every uncustomized line of the dish gains one unit and every other line is unchanged |
| ClientMenu.AddItemToOrder | app/cliente/menu/page.tsx:152-180 | a plain add merges into the dish's uncustomized line when one exists, else appends a 1-unit line whose id is the dish id; a customized add always appends a line with the dialog's quantity and record |
| ClientMenu.PlainQuantityBounds | app/cliente/menu/page.tsx:193-197 | `getItemQuantity` sums the dish's uncustomized lines: with positive quantities the badge is never negative and never exceeds the order's item count |
| ClientMenu.PlainQuantityNone | app/cliente/menu/page.tsx:193-197 | a dish without an uncustomized line shows badge 0 |
| ClientMenu.PlainQuantitySnoc | app/cliente/menu/page.tsx:193-197 | appending a line moves only its own dish's badge, and only when it is uncustomized |
| ClientMenu.IncrementPlainQuantity | app/cliente/menu/page.tsx:159-164 | the merge raises the merged dish's badge by one and no other dish's |
| ClientMenu.IncrementPlainItemCount | app/cliente/menu/page.tsx:159-164 | the merge adds exactly one unit to the order |
| ClientMenu.PlainAddKeepsOnePlain | app/cliente/menu/page.tsx:157-167 | a plain add keeps at most one uncustomized line per dish |
| ClientMenu.PlainAddKeepsValid | app/cliente/menu/page.tsx:155-167 | a plain add keeps quantities positive, one plain line per dish and well-formed ids |
| ClientMenu.PlainAdd | app/cliente/menu/page.tsx:157-167 | a plain add raises that dish's badge by 1, leaves every other badge alone and adds one item |
| ClientMenu.CustomAppendKeepsValid | app/cliente/menu/page.tsx:168-179 | appending a customized line with a positive quantity and a dashed id keeps an order valid |
| ClientMenu.CustomizedAdd | app/cliente/menu/page.tsx:168-179 | a customized add appends one line, keeps every existing line, moves no badge, adds the dialog's quantity to the item count, and its id differs from every plain line's |
| ClientMenu.RepeatedPlainAddsValid | app/cliente/menu/page.tsx:157-167 | any run of plain adds keeps the order valid |
| ClientMenu.RepeatedPlainAdds | app/cliente/menu/page.tsx:157-167 | n plain adds raise the dish's badge by exactly n and keep one plain line per dish |
| ClientMenu.PlainAddToSingleLine | app/cliente/menu/page.tsx:159-164 | a plain add to an order holding only that dish's plain line raises its quantity by one and adds no line |
| ClientMenu.PlainAddsOnSingleLine | app/cliente/menu/page.tsx:159-164 | on an order holding only a plain line of the dish, n more plain adds raise that line's quantity by n and add no line |
| ClientMenu.PlainAddsFromEmpty | app/cliente/menu/page.tsx:157-167 | from an empty order, n plain adds leave one line with quantity n |
| ClientMenu.AddToOrder | app/cliente/menu/page.tsx:137-150 | a dish with a table entry opens the dialog and leaves the order alone; any other dish is added plainly |
| ClientMenu.HandleConfirm | app/cliente/menu/page.tsx:242-246 | the confirmed record becomes a new last line unchanged, with its quantity; with no dish selected nothing happens |
| ClientMenu.ConfirmedLineCostsDialogTotal | components/platillo-personalizado-modal.tsx:123-139 | the confirmed line costs exactly what the dialog showed |
| ClientMenu.CardRemoveDropsPlainLine | app/cliente/menu/page.tsx:286 | the card's minus button removes the whole uncustomized line, so the badge drops to 0, and customized lines stay |
| ClientMenu.RemoveKeepsValid | app/cliente/menu/page.tsx:189-191 | removing a line keeps the order valid: quantities positive, one plain line per dish, well-formed ids |
| ClientMenu.RunKeepsValid | app/cliente/menu/page.tsx:137-191 | any run of plain adds, confirmed customizations with a valid record, and removals keeps a valid order valid |
| ClientMenu.BuiltOrdersAreValid | app/cliente/menu/page.tsx:137-191 | every order the page builds from the empty one is valid |
| ClientMenu.SendOrder | app/cliente/menu/page.tsx:221-229 | an empty order is rejected; any other order is sent unchanged |
| Cart.AdjustLine | app/cliente/carrito/page.tsx:136-143 | a matching line's quantity becomes max(1, q + delta) with every other field kept; a non-matching line is unchanged |
| Cart.UpdateQuantity | app/cliente/carrito/page.tsx:133-146 | every line is adjusted in its place; an unknown id changes nothing; no quantity drops below 1 |
| Cart.PlusThenMinusRestores | app/cliente/carrito/page.tsx:315-324 | plus then minus on a line gives back the cart it started from |
| Cart.MinusAtOneIsNoOp | app/cliente/carrito/page.tsx:137 | minus at quantity 1 changes nothing |
| Cart.UpdateQuantityItemCount | app/cliente/carrito/page.tsx:157-159 | changing one line's quantity moves the item count by exactly that line's change |
| Cart.LinePrice | app/cliente/carrito/page.tsx:242-255 | `calcularPrecioItem`'s loop computes (price + surcharge) × quantity |
| Cart.Tax | app/cliente/carrito/page.tsx:374 | the 16% tax of a non-negative subtotal lies between 0 and the subtotal |
| Cart.GrandTotal | app/cliente/carrito/page.tsx:379 | the total shown, subtotal × 1.16, is the subtotal plus the tax line |
| Cart.SeededCartSummary | app/cliente/carrito/page.tsx:29-73 | the loaded cart's lines cost 155, 300 and 50, giving 4 items, subtotal 505, tax 80.80 and total 585.80 |
| Kitchen.NextStatus | app/cocina/ordenes/page.tsx:220-233 | each status moves one step up the progression; listo stays listo |
| Kitchen.NextStatusProgress | app/cocina/ordenes/page.tsx:220-233 | the progression never goes back, and listo is its only fixed point |
| Kitchen.ReachesListo | app/cocina/ordenes/page.tsx:220-233 | every status reaches listo after 3 − rank steps and stays there |
| Kitchen.DerivedStatus | app/cocina/ordenes/page.tsx:134-140 | completado iff every dish is listo (also with no dishes); en-proceso iff not all listo and some dish has left enviado; pendiente iff there are dishes and all are enviado |
| Kitchen.DerivedStatusMonotone | app/cocina/ordenes/page.tsx:134-140 | dishes further along never make the order's status go back |
| Kitchen.UpdateItems | app/cocina/ordenes/page.tsx:123-132 | only the dishes with the id take the new status and time stamp |
| Kitchen.UpdateItemStatus | app/cocina/ordenes/page.tsx:119-150 | only the order with the id changes: its dishes are updated and its status is derived again; every other order is untouched |
| Kitchen.UpdateKeepsConsistency | app/cocina/ordenes/page.tsx:134-145 | after any update, consistent orders stay consistent and an order whose dishes are all listo is completado |
| Kitchen.AdvanceButtonSteps | app/cocina/ordenes/page.tsx:307-309 | the advance button, offered only before listo, moves that dish exactly one step on |
| Kitchen.CompleteOnlyWhenInconsistent | app/cocina/ordenes/page.tsx:327 | "Completar Orden" is shown only for an order whose status disagrees with its dishes |
| Kitchen.TabOrders | app/cocina/ordenes/page.tsx:263-264 | "todos" shows every order; a status tab shows exactly the board's orders in that status, and never more orders than the board has |
| Kitchen.TabOrdersKeepOrder | app/cocina/ordenes/page.tsx:263-264 | a tab keeps the board's order: the tab of two joined boards is the two tabs joined |
| OrderHistory.FilterOrders | app/admin/ordenes/page.tsx:57-59 | keeps exactly the orders whose id contains the query or whose lower-cased customer contains the lower-cased query; the empty query keeps all |
| OrderHistory.FilterOrdersKeepsOrder | app/admin/ordenes/page.tsx:57-59 | the search keeps matching orders in their order |
| OrderHistory.PageSlice | app/admin/ordenes/page.tsx:99-102 | page p holds filtered[(p−1)·10 + k] at row k, at most 10 rows, exactly 10 on a full page, the remainder on the last page and none past it |
| OrderHistory.TotalPages | app/admin/ordenes/page.tsx:103 | the fewest pages of ten that hold n orders (ceil(n/10)); 0 only for no orders |
| OrderHistory.PageSliceRange | app/admin/ordenes/page.tsx:99-102 | page p is the stretch from index (p−1)·10 to p·10, cut at the end of the list |
| OrderHistory.PagesPrefix | app/admin/ordenes/page.tsx:99-103 | pages 1..k joined are the first 10·k orders |
| OrderHistory.PagesPartition | app/admin/ordenes/page.tsx:99-103 | pages 1..totalPages joined are exactly the filtered orders |
| OrderHistory.OrderOnExactlyOnePage | app/admin/ordenes/page.tsx:99-103 | the order at index i is on page i/10 + 1 (within 1..totalPages), at row i mod 10, and no other page's range holds it |
| OrderHistory.ShowPagination | app/admin/ordenes/page.tsx:232 | the controls are shown exactly when the matching orders fill at least two pages |
| OrderHistory.PrevPage | app/admin/ordenes/page.tsx:237 | one page back, never below 1 |
| OrderHistory.NextPage | app/admin/ordenes/page.tsx:249 | one page on, never past the last page |
| OrderHistory.ControlsKeepPageInRange | app/admin/ordenes/page.tsx:232-250 | while the controls are shown, previous and next keep the page within 1..totalPages |
| OrderHistory.PageInRangeShowsOrders | app/admin/ordenes/page.tsx:99-102 | a page in range shows at least one order whenever any order matches |
| OrderHistory.TypeQueryAsWritten | app/admin/ordenes/page.tsx:161 | typing changes the query and keeps the current page |
| OrderHistory.SearchAfterPagingShowsNothing | app/admin/ordenes/page.tsx:161 | after paging to 2, a search leaving 1..10 matches shows no order, hides the controls and leaves the page out of range |
| OrderHistory.SearchMesa1FindsTen | app/admin/ordenes/page.tsx:57-59 | searching "mesa 1" among the eleven example orders finds the ten "Mesa 1" orders |
| OrderHistory.SearchMesa1OnPage2 | app/admin/ordenes/page.tsx:161 | on eleven orders, next then the search "mesa 1": ten orders match, page 2 is empty, no controls |
| OrderHistory.TypeQuery | app/admin/ordenes/page.tsx:161 | the corrected search: the page is reset to 1, which is always in range, so matching orders are on screen |
| OrderHistory.RunKeepsPageInRange | app/admin/ordenes/page.tsx:161-250 | with the corrected search, every run of searches and control presses keeps the page in range and shows matching orders |
| OrderHistory.StatusText | app/admin/ordenes/page.tsx:78-91 | every status gets one of the four labels; the "Desconocido" fallback is never shown |
| OrderHistory.StatusLabelsDistinct | app/admin/ordenes/page.tsx:78-91 | the four status labels differ |
| OrderHistory.TabRows | app/admin/ordenes/page.tsx:204-205 | a tab's rows are exactly the current page's orders of that status ("todos": all of them) |
| OrderHistory.TabRowsKeepOrder | app/admin/ordenes/page.tsx:204-205 | a tab keeps the page's rows in their order |
| OrderHistory.TabShowsCurrentPageOnly | app/admin/ordenes/page.tsx:204-205 | a tab shows at most ten rows, all from the current page |
| AdminMenu.SearchItems | app/admin/menu/page.tsx:89-94 | keeps exactly the dishes whose lower-cased name or description contains the lower-cased query; the empty query keeps all |
| AdminMenu.SearchItemsKeepsOrder | app/admin/menu/page.tsx:90-94 | the search keeps the matching dishes in their menu order |
| AdminMenu.SearchIgnoresQueryCase | app/admin/menu/page.tsx:92-93 | lower-casing the query first changes nothing: the search is case-insensitive in the query |
| AdminMenu.DeleteItem | app/admin/menu/page.tsx:97-98 | keeps exactly the dishes with another id; an absent id changes nothing |
| AdminMenu.DeleteThenSearch | app/admin/menu/page.tsx:89-98 | after a delete the search shows what it showed before, without that dish, in the same order |
| AdminMenu.ToggleAvailability | app/admin/menu/page.tsx:107-110 | flips availability only on the dishes with the id and keeps every other field and dish |
| AdminMenu.ToggleTwiceRestores | app/admin/menu/page.tsx:107-110 | switching twice restores the menu |
| AdminMenu.DeleteItemKeepsOrder | app/admin/menu/page.tsx:97-98 | deleting a dish leaves the other dishes in their order |
| AdminMenu.ToggleNotice | app/admin/menu/page.tsx:112-120 | the notice is one of the two titles, and reads "Platillo no disponible" exactly when the first dish with the id was available before the change |
| AdminMenu.FirstWithId | app/admin/menu/page.tsx:112 | `find` returns the first dish with the id |
| AdminMenu.ToggleNoticeNamesNewState | app/admin/menu/page.tsx:112-120 | the notice, read from the menu before the change, names the dish's availability after it |
| AdminMenu.CategoryText | app/admin/menu/page.tsx:123-137 | the label is "Desconocido" exactly for categories outside the five known ones |
| AdminMenu.CategoryLabelsDistinct | app/admin/menu/page.tsx:123-137 | different known categories have different labels |
| AdminMenu.TabItems | app/admin/menu/page.tsx:216-217 | "todos" shows every found dish; a category tab shows exactly the found dishes of that category, never more cards than found dishes |
| AdminMenu.TabItemsKeepOrder | app/admin/menu/page.tsx:216-217 | a tab keeps the found dishes in their order |
| AdminMenu.DishOnOneCategoryTab | app/admin/menu/page.tsx:204-217 | a found dish of a known category is on exactly one category tab |

## Left out

- Rendering (JSX, cards, badges, images, icons), toast notices other than the availability notice, the dialog's section expand/collapse switches, and the display of names in the cart's specification text: presentation only.
- Redirects (`window.location.href`) and the cart's `enviarPedido`, which only shows a notice and redirects: navigation.
- `setTimeout` loading delays and `useEffect`: timer plumbing.
- Clock and random values. `Date.now()` is the parameter `now`. Time stamps are opaque strings. The randomly generated order history is replaced by any list of orders.
- The kitchen's seeded orders: their time stamps come from the clock.
- Date and time formatting, badge colours and icons.
- Floating-point money and `toFixed(2)`. Prices are whole numbers, so money is `int` and the tax is an exact `real`. Display rounding is not modelled.
- JavaScript numbers are doubles. The model's integers are unbounded, so behaviour past 2^53 is not modelled.
- Strings.Lower: lower-cases ASCII letters only; `toLowerCase` also folds accented and other Unicode letters.
- ClientMenu.CustomizedAdd: states that a customized line's id differs from every plain line's id, not from other customized lines' ids. Two customized adds of one dish within the same clock millisecond get the same id.
- Kitchen.NextStatus: the source's fallback for a status outside the four values has no counterpart, because the status type admits only those four.
- Kitchen.CompleteOnlyWhenInconsistent: covers only when the "Completar Orden" button is shown. The button has no click handler in the source, so pressing it does nothing.
- The category tabs of the customer menu page are a display filter and are not modelled.
- Status labels of the kitchen page and its badge colours are not modelled.
- The reports, dashboard, order-status, landing and menu-edit pages are not part of this model. They hold fixed figures, static data and navigation.

## Findings

| source | as written | input that shows it | evidently intended | confidence | as-written member | corrected member |
|---|---|---|---|---|---|---|
| app/admin/ordenes/page.tsx:161 | Typing in the search box changes only the query. The current page (line 43) is kept, and the slice for that page (lines 100-102) is cut from the new, shorter result. | Eleven orders, ten of them for customer "Mesa 1". Press next to reach page 2, then type "mesa 1". Ten orders match, page 2 shows none of them, and the controls (line 232) are hidden because only ten match, so there is no way back to page 1 short of changing the search. | A new search starts again at page 1. | medium; not executed | OrderHistory.SearchAfterPagingShowsNothing | OrderHistory.TypeQuery |
