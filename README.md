# Techno-shop storefront: catalog and cart state

A Dafny model of the state logic of the storefront page `src/pages/Index.tsx`. The page keeps
two ordered collections and writes each one to browser local storage after every change:

- the **catalog**, a sequence of `Product {id, name, price, category, image}`;
- the **cart**, a sequence of `CartItem`, which is a product's fields plus a `quantity`.

The handlers replace a collection wholesale with a new sequence computed by `filter`, `map`,
`find` or spread. The model follows that structure:

- `Types` holds the two record types.
- `Seqs` holds `Filter` and `Map`, the array combinators the page uses, and `RemoveKey`, the
  filter-by-id that both delete handlers use. Their laws cover order under concatenation, the
  identity filter, idempotence and key uniqueness.
- `Catalog` holds the seed catalog, the add-product validation and append, and delete by id.
- `Cart` holds `find`, add to cart, remove, quantity change and the total, all as functions on
  sequences. It also states the invariant that ids are distinct and every quantity is at least 1.
- `Store` holds the page state as a class. Its `products` and `cart` fields are reassigned by
  the handlers. Ghost fields `storedProducts` and `storedCart` model the two storage keys
  (`None` is an absent key). Every handler keeps `Persisted()`: storage holds what the state holds.

Quantity changes keep a line rather than delete it. In `updateQuantity`, a line whose new
quantity would be zero or less is returned **unchanged** (line 134). The trailing `filter`
(line 137) therefore removes only lines whose stored quantity was already not positive.
Decrementing a line at quantity 1 leaves it in the cart with quantity 1:
`Cart.UpdateQuantityAtFloor` proves that the cart is unchanged.

Prices and quantities are mathematical integers. The new product's id (`Date.now().toString()`)
and its parsed price (`parseFloat` of the price text) are parameters of `HandleAddProduct`.
Storage contents read at load time are parameters of `Store.Load`.

## Model

| member | source | states |
|---|---|---|
| `Catalog.AddProduct` | src/pages/Index.tsx:69-88 | if name, price text or category is empty, the catalog is unchanged; otherwise it grows by exactly one product at the end, the old products are a prefix, and the new product carries the given id, name, price and category, with image `/placeholder.svg` when the image text is empty |
| `Catalog.AddPreservesUnique` | src/pages/Index.tsx:79-87 | appending under an id not already in the catalog keeps catalog ids pairwise distinct |
| `Catalog.DeleteUndoesAdd` | src/pages/Index.tsx:87-99 | deleting the id just added under a fresh id gives back the original catalog (delete is add's inverse) |
| `Catalog.DeleteProduct` | src/pages/Index.tsx:98-99 | no product with the id is left, every product with another id is kept, and nothing new appears |
| `Catalog.DeleteAbsent` | src/pages/Index.tsx:99 | deleting an id that is not in the catalog is a no-op |
| `Catalog.DeleteIdempotent` | src/pages/Index.tsx:99 | deleting the same id twice is the same as deleting it once |
| `Catalog.DeleteKeepsOrder` | src/pages/Index.tsx:99 | delete distributes over concatenation, so survivors keep their relative order |
| `Catalog.DeletePreservesUnique` | src/pages/Index.tsx:99 | deleting keeps catalog ids pairwise distinct |
| `Catalog.DeleteFromSeed` | src/pages/Index.tsx:45-49 | deleting id `'2'` from the seed leaves the products `'1'` and `'3'`, in that order and unchanged |
| `Cart.Find` | src/pages/Index.tsx:108 | `find` returns nothing exactly when no line has the id; otherwise it returns the first line with that id |
| `Cart.FindUnique` | src/pages/Index.tsx:108 | in a cart with distinct ids, `find` returns the one line carrying the id |
| `Cart.AddToCart` | src/pages/Index.tsx:107-117 | the cart's length stays the same when the id is present and grows by one otherwise; afterwards a line with the id exists |
| `Cart.AddToCartExisting` | src/pages/Index.tsx:108-114 | a product already in a cart with distinct ids: that line's quantity rises by exactly 1, its stored name, price, category and image are kept, and every other line is unchanged |
| `Cart.AddToCartNew` | src/pages/Index.tsx:115-116 | a product not in the cart: the old cart plus one line with the product's fields and quantity 1 at the end |
| `Cart.AddToCartPreservesWellFormed` | src/pages/Index.tsx:107-117 | adding keeps cart ids distinct and every quantity at least 1 |
| `Cart.RemoveFromCart` | src/pages/Index.tsx:125-126 | no line with the id is left, every line with another id is kept, and nothing new appears |
| `Cart.RemoveAbsent` | src/pages/Index.tsx:126 | removing an id that is not in the cart is a no-op |
| `Cart.RemoveIdempotent` | src/pages/Index.tsx:126 | removing twice is the same as removing once |
| `Cart.RemoveKeepsOrder` | src/pages/Index.tsx:126 | remove distributes over concatenation, so the remaining lines keep their order |
| `Cart.RemovePreservesWellFormed` | src/pages/Index.tsx:126 | removing keeps cart ids distinct and quantities at least 1 |
| `Cart.RemoveUndoesAdd` | src/pages/Index.tsx:115-126 | removing a product just added to a cart that lacked it gives back the original cart |
| `Cart.UpdateQuantity` | src/pages/Index.tsx:130-137 | after any quantity change every line has quantity at least 1, and the cart is no longer than before |
| `Cart.UpdateQuantityDrops` | src/pages/Index.tsx:131-137 | the result is exactly the lines that were already positive, or that are targeted and lifted above 0, each adjusted, in the original order |
| `Cart.UpdateQuantityOnPositive` | src/pages/Index.tsx:131-137 | on a cart whose quantities are all positive nothing is dropped: the result has the same length and each line is only adjusted in place |
| `Cart.UpdateQuantitySets` | src/pages/Index.tsx:133-134 | in a well-formed cart with `quantity + delta > 0`, the targeted line's quantity becomes `quantity + delta` and every other line is unchanged |
| `Cart.UpdateQuantityAtFloor` | src/pages/Index.tsx:134-137 | in a well-formed cart with `quantity + delta <= 0`, the cart is unchanged and the targeted line is still present |
| `Cart.UpdateQuantityAbsent` | src/pages/Index.tsx:131-137 | a change for an id not in the cart only drops the lines whose quantity is already not positive |
| `Cart.UpdateQuantityPreservesWellFormed` | src/pages/Index.tsx:130-137 | from a cart with distinct ids, a quantity change yields distinct ids with every quantity at least 1 |
| `Cart.TotalPrice` | src/pages/Index.tsx:142-143 | the total of the empty cart is 0 |
| `Cart.TotalPriceIsSum` | src/pages/Index.tsx:142-143 | the left fold of `reduce` equals the sum of price × quantity over the lines |
| `Cart.TotalPriceConcat` | src/pages/Index.tsx:143 | the total is additive over concatenation |
| `Cart.TotalPriceExample` | src/pages/Index.tsx:143 | lines at 1000 × 2 and 500 × 1 total 2500 |
| `Cart.TotalPriceNonNegative` | src/pages/Index.tsx:143 | with non-negative prices and positive quantities the total is not negative |
| `Cart.TotalAfterAdd` | src/pages/Index.tsx:108-116 | adding a product to a cart with distinct ids raises the total by the price stored in its existing line, or by the product's price if it had no line |
| `Store.Store.Load` | src/pages/Index.tsx:38-57 | a stored catalog is used as is, otherwise the three-product seed is installed and written; a stored cart is used as is, otherwise the cart is empty and nothing is written |
| `Store.Store.SaveProducts` | src/pages/Index.tsx:59-62 | the catalog and its stored copy both become the new sequence; the cart is untouched |
| `Store.Store.SaveCart` | src/pages/Index.tsx:64-67 | the cart and its stored copy both become the new sequence; the catalog is untouched |
| `Store.Store.HandleAddProduct` | src/pages/Index.tsx:69-96 | reports whether the form was complete, sets the catalog to `Catalog.AddProduct` of the old one, writes storage only on success, and keeps catalog ids distinct when the id is fresh |
| `Store.Store.HandleDeleteProduct` | src/pages/Index.tsx:98-105 | sets the catalog to `Catalog.DeleteProduct` of the old one and writes it; the cart is untouched |
| `Store.Store.AddToCart` | src/pages/Index.tsx:107-123 | sets the cart to `Cart.AddToCart` of the old one, writes it to storage (`storedCart == Some(cart)`), and keeps the cart invariant |
| `Store.Store.RemoveFromCart` | src/pages/Index.tsx:125-128 | sets the cart to `Cart.RemoveFromCart` of the old one, writes it to storage (`storedCart == Some(cart)`, even when the cart is empty), and keeps the cart invariant |
| `Store.Store.UpdateQuantity` | src/pages/Index.tsx:130-140 | sets the cart to `Cart.UpdateQuantity` of the old one and writes it to storage (`storedCart == Some(cart)`, even when the cart is empty); afterwards every quantity is at least 1, and ids are distinct if they were |
| `Store.Store.TotalPrice` | src/pages/Index.tsx:142-144 | the displayed total is the sum of price × quantity over the current cart |

## Left out

- Rendering: the navigation, the five views and the page switch are presentation only. They
  include the branch that sends `'cart'` to the home view.
- Toast notifications: they change no state. `HandleAddProduct` returns `added` to say which one is shown.
- Local storage and JSON: reading and writing are modelled as ghost fields.
  The serialisation round trip of `JSON.stringify` and `JSON.parse` is taken as the identity and not verified.
- `Date.now()`: a clock call. The new id is a parameter, and nothing makes it unique.
  Catalog id uniqueness is therefore proved only when the caller's id is fresh.
- `parseFloat`, NaN and floating-point prices: prices are integers, and the parsed price is a parameter.
  A price text that does not parse as a number is not modelled.
- `toLocaleString` price formatting: presentation only.
- React hooks: the first render, with empty collections before the load effect runs, is not modelled.
  The form fields, their reset after a successful add, and the dialog's open flag are left out too.
- The record types are not checked at load time: whatever storage holds is taken as the collection.
  So the cart invariant holds after an operation only if it held before, and the `Store` contracts say so.
