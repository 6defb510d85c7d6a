# Storefront cart store, in Dafny

This project models the logic core of a client-side storefront widget (`script.js`):

- **the cart store.** This is an ordered list of cart lines `{id, title, price, quantity}`. It is changed by `addToCart`, `updateQuantity`, `removeItem` and `emptyCart`. After every change that completes, the list is copied to local storage (`saveCart`). At page load the list is restored from there (`loadCartFromStorage`).
- **the totals of the cart panel.** The loop in `renderCart` accumulates the total price (Σ price × quantity) and the item count (Σ quantity).
- **the contact-form check.** A blank name or message is rejected first. Otherwise the trimmed email must match `^[^\s@]+@[^\s@]+\.[^\s@]+$`.

Files:

- `cart_items.dfy` (module `CartItems`) holds the values: `Product`, `Item` and `Option`. It also holds `Find` (the model of `Array.prototype.find`), the cart invariants `UniqueIds`, `PositiveQuantities` and `WellFormed`, and the mutations `addToCart`, `updateQuantity` and `removeItem` as pure functions of the old cart: `Added`, `QuantityUpdated`, `Spliced`. The sums `Total` and `Count` are here too, with lemmas that state what each mutation does to the lines and to the sums.
- `cart_store.dfy` (module `CartStore`) holds the class `Store`. Its fields are `products`, `cart` and `stored`; `stored` is the value under the `"cart"` key, `None` while the key is absent. Its methods update these fields in place, as the script does with its globals. `AddToCart`, `UpdateQuantity` and `RemoveItem` are proved against `Added`, `QuantityUpdated` and `Spliced`; the other methods state their new fields directly. `Totals` is the accumulation loop, proved against `Total` and `Count`.
- `contact_form.dfy` (module `ContactForm`) holds the ECMAScript white-space set, `Trim`, and the regular expression as a decomposition (`MatchesEmailPattern`). It also holds its four-condition reading (`LooksLikeEmail`), a lemma that the two agree, and the submit handler's verdict (`CheckSubmission`).

Decisions:

- Prices, ids and quantities are integers.
- Positions are `int`. In `updateQuantity`, a negative or too-large position finds no line, so the call returns before saving. `removeItem` follows `splice(start, 1)`: a negative start counts from the end, and a start at or past the end removes nothing. In both of those cases the cart is still saved.
- The operations do not demand well-formed carts, because the script does not check what it loads. Each method promises instead that a well-formed cart stays well-formed.

## Model

| member | source | states |
|---|---|---|
| CartItems.Find | script.js:112 | the result is the first position whose element satisfies the predicate; None exactly when no element does |
| CartItems.FindFirst | script.js:117 | when position k holds the first match, `find` yields k |
| CartItems.RemoveAt | script.js:193 | dropping one line shortens the cart by exactly 1; the lines before keep their positions and those after shift down by one, in order |
| CartItems.Added | script.js:111-126 | addToCart as a function of the old cart and the catalog; its behaviour is stated by AddToExistingLine, AddNewLine, AddUnknown, AddKeepsWellFormed and AddTwice |
| CartItems.QuantityUpdated | script.js:188-193 | updateQuantity as a function of the old cart; its behaviour is stated by UpdateOutOfRange, UpdateKeepsLine, UpdateDropsLine and UpdateKeepsWellFormed |
| CartItems.Spliced | script.js:201 | `cart.splice(index, 1)` as a function of the old cart; its behaviour is stated by SpliceInRange, SplicePastEnd, SpliceFromEnd, SpliceBeforeStart and SpliceKeepsWellFormed |
| CartItems.Total | script.js:142-146 | Σ price × quantity over the lines; Store.Totals proves the loop computes it, and the add/update/remove lemmas state how each mutation moves it |
| CartItems.Count | script.js:142-147 | Σ quantity over the lines; Store.Totals proves the loop computes it, and the add/update/remove lemmas state how each mutation moves it |
| CartItems.AddToExistingLine | script.js:111-115 | a product already in the cart: that line's quantity rises by 1; length, every other line, its other fields unchanged; count +1 and total + that line's price |
| CartItems.AddNewLine | script.js:116-125 | an id not in the cart but in the catalog: exactly one line appended at the end with the catalog's id, title and price and quantity 1; count +1 and total + the product's price |
| CartItems.AddUnknown | script.js:116-118 | addToCart stops early exactly when the id is in neither the cart nor the catalog |
| CartItems.AddKeepsWellFormed | script.js:111-126 | addToCart keeps ids unique and every quantity at least 1 |
| CartItems.AddTwice | script.js:111-125 | adding the same catalog product twice to a cart without it gives one line of quantity 2, never two lines |
| CartItems.AddTwiceScenario | script.js:111-125 | catalog [{1, "A", 1000}], empty cart, add(1) twice: cart [{1, "A", 1000, 2}], total 2000, count 2 |
| CartItems.UpdateOutOfRange | script.js:188-190 | updateQuantity returns early (no change, no save) exactly when no line is at the position |
| CartItems.UpdateKeepsLine | script.js:192 | a quantity that stays positive: only that line changes, by delta; count + delta, total + price × delta |
| CartItems.UpdateDropsLine | script.js:192-193 | a quantity driven to 0 or below: that line is removed, the length drops by 1, the others keep their order; the sums lose that line's share |
| CartItems.UpdateKeepsWellFormed | script.js:188-197 | updateQuantity keeps ids unique and every quantity at least 1 |
| CartItems.SpliceInRange | script.js:199-204 | removeItem at a position in range deletes exactly that line and keeps the rest in order; the sums lose that line's share |
| CartItems.SplicePastEnd | script.js:199-201 | removeItem at a position at or past the end, or on an empty cart at any position, leaves the cart unchanged |
| CartItems.SpliceFromEnd | script.js:201 | a negative position within the length removes the line that far from the end |
| CartItems.SpliceBeforeStart | script.js:201 | a negative position beyond the length removes the first line |
| CartItems.SpliceKeepsWellFormed | script.js:199-204 | removeItem keeps a well-formed cart well-formed, whatever the position |
| CartStore.Store.constructor | script.js:3-4 | the script starts with an empty catalog and an empty cart, with storage as the browser left it |
| CartStore.Store.CatalogLoaded | script.js:66 | a successful fetch replaces the catalog |
| CartStore.Store.SaveCart | script.js:215-217 | after saving, the stored copy equals the live cart |
| CartStore.Store.LoadCartFromStorage | script.js:219-221 | the cart becomes the stored copy, or empty when the key is absent; loading right after a save reproduces the cart |
| CartStore.Store.AddToCart | script.js:111-132 | the cart becomes `Added` of the old cart; on the early return the cart and the stored copy are untouched, otherwise the stored copy equals the new cart; well-formedness is kept |
| CartStore.Store.UpdateQuantity | script.js:188-197 | the cart becomes `QuantityUpdated` of the old cart; a position without a line changes nothing and saves nothing, otherwise the stored copy equals the new cart; well-formedness is kept |
| CartStore.Store.RemoveItem | script.js:199-204 | the cart becomes the old cart after `splice(index, 1)`, the stored copy equals it, well-formedness is kept |
| CartStore.Store.EmptyCart | script.js:206-210 | the cart is empty and the stored copy equals it |
| CartStore.Store.Totals | script.js:142-147 | the loop's total is Σ price × quantity and its count Σ quantity over the current cart |
| CartStore.OpenPage | script.js:7-8 | page load gives a new store whose cart is the stored copy, or empty when the key is absent |
| CartStore.Reload | script.js:219-221 | after any completed mutation, reloading the page reproduces the same cart |
| ContactForm.Trim | script.js:237 | `trim` drops exactly the leading and trailing white space: the result is an infix with white space on both sides, neither end is white space, and it is empty iff the input is all white space |
| ContactForm.MatchesEmailPattern | script.js:243 | the regular expression's test, as a decomposition local `@` domain `.` tail with each part a non-empty run without white space or `@`; EmailPatternReading states what it accepts |
| ContactForm.EmailPatternReading | script.js:243 | the pattern accepts a string iff it has exactly one `@`, no white space, a non-empty local part, and a `.` in the domain that is neither its first nor its last character |
| ContactForm.CheckSubmission | script.js:232-248 | the form is rejected as incomplete iff the name or the message is all white space; it is accepted iff neither is and the trimmed email reads as local@domain with an inner dot |
| ContactForm.BlankBeforeEmail | script.js:237-241 | with a blank name or message the verdict is "incomplete", whatever the email |

## Left out

- `fetchProducts` and `renderProducts` are left out: the network fetch, the asynchronous flow, the HTML cards and the click wiring. The catalog is a given sequence, installed by `CatalogLoaded`.
- The DOM building in `renderCart` is left out, and so is its early return when the container element is missing. Also left out: the `toLocaleString("es-AR")` formatting, and re-rendering after each mutation. Only the two sums are kept.
- `JSON.stringify` and `JSON.parse` are left out. Storage holds the list itself, so the model cannot show stored text that is malformed or of the wrong shape (missing fields, strings where numbers belong, `null`). The stored list may still break the cart invariants, because the script never checks what it parses, so the invariants are stated as kept if they held before, not assumed on load.
- Storage reads and writes are assumed to succeed. In the script, `localStorage.setItem` can throw (quota exceeded, storage blocked). Every mutation changes `cart` before `saveCart` runs, so the live cart would keep the change while the stored copy keeps its old value; `renderCart` would be skipped and a reload would lose the change. The model has no such outcome: `SaveCart` always ends with the stored copy equal to the cart, and `Reload` relies on that. Likewise, a throwing `getItem` or `JSON.parse` in `loadCartFromStorage` stops the page's start-up handler at that point; `LoadCartFromStorage` and `OpenPage` always complete.
- JavaScript numbers are not modelled. Prices and quantities are unbounded integers, not floating point. A `data-i` string that `Number()` turns into NaN is not modelled either, because positions are integers.
- Left out as UI: the cart panel toggle (`setupCartPanelToggle`), the modal dialogs (`mostrarAlerta`, `mostrarConfirmacion`, including the `callback(false)` when the overlay is missing), the buy button's empty-cart alert, the confirm that guards `emptyCart`, and `openCartPanel` after an add.
- In the submit handler, `preventDefault` and the alert texts are left out. The verdict names which of the two alerts is shown, or that the submission goes through.
