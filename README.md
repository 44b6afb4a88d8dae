# Shopping cart state (`useCart`) in Dafny

`useCart()` creates one shopping cart: an ordered list of line items, each an
id, the product fields copied when it was first added, and a quantity. Three
operations change that list in place:

- `addToCart(product)` looks for the first item with the product's id. If it
  finds one, it adds one to that item's quantity. Otherwise it appends a copy
  of the product with quantity 1.
- `removeFromCart(id)` splices out the first item with that id. If there is
  none, it does nothing.
- `updateQuantity(id, quantity)` sets the first matching item's quantity to
  the given value, without checking it. If there is none, it does nothing.

The model has two modules.

- `CartSpec` (CartSpec.dfy) holds the values `Product` and `LineItem` and the
  first-match lookup `IndexOf`. It also gives reference definitions of the
  three operations on sequences (`Added`, `Removed`, `Updated`), written item
  by item, and the lemmas about them. These lemmas are the point-wise form of
  each operation (append, increment at the found index, `s[..i] + s[i+1..]`,
  overwrite at the found index), the no-op-when-absent rules, preservation of
  unique ids, removal being idempotent, the last update winning, and the
  quantities of a cart built by `addToCart` alone.
- `UseCart` (UseCart.dfy) holds the class `Cart`. Its field `items` is
  `cartItems`. `Find` is a while-loop scan that plays the part of
  `find`/`findIndex`, and the three methods are proved to leave `items` equal
  to the reference definitions applied to the old list. `Valid()` (unique ids)
  is kept by every method. The methods do not require it, because the
  returned `cartItems` can be changed from outside the cart, so the
  first-match behaviour is modelled for any list.

Ids are a type parameter with equality. The copied product fields are an
opaque type parameter `P`. Quantities are unbounded integers.

Quantities are not checked. `updateQuantity` stores any value, zero and
negative ones included (src/composables/useCart.js:45). So positivity is not
an invariant of the cart. It is proved only for carts changed by `addToCart`
alone (`AddAllKeepsInvariants`, `AddOnlyFromEmpty`).

## Model

| member | source | states |
|---|---|---|
| CartSpec.IndexOf | src/composables/useCart.js:30 | the result is -1 exactly when no item has the id; otherwise it is the position of the first item with that id |
| UseCart.Cart.Find | src/composables/useCart.js:16 | the linear scan returns the first position holding the id, or -1 when the id is absent |
| UseCart.Cart.constructor | src/composables/useCart.js:13 | a new cart is empty and satisfies the unique-id invariant |
| UseCart.Cart.AddToCart | src/composables/useCart.js:15-22 | the new list is the reference addToCart of the old list; unique ids are kept |
| UseCart.Cart.RemoveFromCart | src/composables/useCart.js:29-34 | the new list is the reference removeFromCart of the old list; when ids were unique they stay unique and the removed id no longer occurs |
| UseCart.Cart.UpdateQuantity | src/composables/useCart.js:42-47 | the new list is the reference updateQuantity of the old list; unique ids are kept |
| CartSpec.AddNew | src/composables/useCart.js:19-20 | with an absent id, exactly one item is appended at the end, with that id, the product's fields and quantity 1; all earlier items are unchanged |
| CartSpec.AddExisting | src/composables/useCart.js:16-18 | with an id first found at i, only item i changes, and only its quantity, by exactly +1; the new product's fields are discarded and length and order are unchanged |
| CartSpec.RemovePresent | src/composables/useCart.js:30-32 | with an id first found at i, the result is `s[..i] + s[i+1..]` and is one shorter |
| CartSpec.RemoveAbsent | src/composables/useCart.js:31 | with an absent id the list is unchanged |
| CartSpec.RemoveDeletesId | src/composables/useCart.js:30-32 | in a cart with unique ids, the removed id no longer occurs |
| CartSpec.RemoveTwice | src/composables/useCart.js:29-34 | in a cart with unique ids, removing an id twice gives the same list as removing it once |
| CartSpec.UpdatePresent | src/composables/useCart.js:43-45 | with an id first found at i, only item i's quantity changes, and it becomes exactly q; ids, fields, order and length are unchanged |
| CartSpec.UpdateAbsent | src/composables/useCart.js:44 | with an absent id the list is unchanged, whatever q is |
| CartSpec.UpdateOverwrites | src/composables/useCart.js:45 | two updates of one id give the same list as the last update alone |
| CartSpec.AppendKeepsUnique | src/composables/useCart.js:20 | appending an item with a new id keeps ids unique |
| CartSpec.QuantityChangeKeepsUnique | src/composables/useCart.js:18 | changing only one item's quantity keeps ids unique |
| CartSpec.AddKeepsUnique | src/composables/useCart.js:16-20 | addToCart keeps ids unique |
| CartSpec.RemoveKeepsUnique | src/composables/useCart.js:30-32 | removeFromCart keeps ids unique |
| CartSpec.UpdateKeepsUnique | src/composables/useCart.js:43-45 | updateQuantity keeps ids unique |
| CartSpec.QuantityAfterAdd | src/composables/useCart.js:16-20 | one addToCart raises the quantity seen for the product's id by exactly 1 and leaves every other id's quantity unchanged |
| CartSpec.AddKeepsPositive | src/composables/useCart.js:17-20 | addToCart keeps every quantity at least 1 |
| CartSpec.QuantityAfterAddAll | src/composables/useCart.js:15-22 | after a run of addToCart calls, an id's quantity has grown by the number of calls that carried it |
| CartSpec.AddAllKeepsInvariants | src/composables/useCart.js:15-22 | a run of addToCart calls keeps ids unique and quantities at least 1 |
| CartSpec.AddOnlyFromEmpty | src/composables/useCart.js:15-22 | from an empty cart, using only addToCart: ids are unique, each item's quantity is the number of times its id was added (at least 1), and an id is present exactly when it was added |
| UseCart.Scenario | src/composables/useCart.js:12-47 | add A, add A, add B, set B's quantity to 5 and remove A: the cart ends as the single item B with quantity 5 |

## Left out

- Vue's `reactive` wrapper and its change notification (src/composables/useCart.js:1, 13). It is observability only and has no logic; `cartItems` is a plain sequence field.
- Object spread of the product's fields (line 20). The fields are an opaque payload copied unchanged. A product that itself has a `quantity` field is not modelled, because spread order makes the new item's quantity 1 anyway.
- JavaScript number semantics of `quantity` (floats, NaN, `++` on a non-number). Quantities are unbounded integers.
- Strict `===` on ids of mixed JavaScript types. Ids are one type with equality.
- Products without an `id` field. In JavaScript that is undefined-field behaviour.
- Object identity of line items. In the source, `find` returns the item object and the code changes it in place, so a caller holding that object sees the change. The model treats items as values inside the cart's sequence, so such aliasing is not captured. The list's contents and order are captured.
- The returned handle object (lines 49-54). It only re-exports the list and the three operations.
