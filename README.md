# Shopping-cart state container, modelled in Dafny

This project models the cart hook of a React Native shopping app
(`src/hooks/cart.tsx`). The cart is an ordered list of products. Each product
has an `id`, a `title`, an `image_url`, a `price` and a `quantity`. Three
operations change the cart:

- `addToCart` appends a new line with quantity 1, or adds one to the line with the same id;
- `increment` adds one to the matching line;
- `decrement` subtracts one from the matching line, but only when its quantity is positive.

Each operation builds a brand-new list from the current snapshot. It publishes
that list as the new state and then writes the whole list to the persistent
store under the key `@GoMarket`. On mount, the cart starts empty and is seeded
from the store when a value is stored under that key.

The model has two parts, following the source's own split:

- `CartTransitions` (`cart_transitions.dfy`) holds the list computations as pure
  functions: `Find` (`Array.prototype.find` by id), `Increment`, `Decrement` and
  `AddToCart`. Lemmas state what each one does to lengths, ids, quantities and
  the total number of items.
- `CartProvider` (`cart_provider.dfy`) holds the provider's mutable state as the
  class `Cart`. It has two fields: `products`, the published state cell, and
  `store`, the key-value store. Each method assigns the next snapshot to both.
  `Session` replays the usage example: add, add, then decrement three times.

`Wrappers` (`wrappers.dfy`) holds the `Option` type used for `find`'s result.

Quantities are unbounded integers, not naturals. That way "never negative" is
a property the operations keep, rather than something the type forces. The
data model says a cart holds at most one line per id and no negative
quantity. The code never checks either when it loads a stored list. The model
therefore states both as the invariant `Valid` and proves that each operation
preserves it. `Load` copies whatever is stored, as the code does.

## Model

| member | source | states |
|---|---|---|
| `CartTransitions.Find` | src/hooks/cart.tsx:45 | finds nothing exactly when no line carries the id; otherwise it returns a line of the cart with that id, and no earlier line has that id |
| `CartTransitions.Increment` | src/hooks/cart.tsx:66-72 | the next snapshot after `increment` has as many lines as the current one |
| `CartTransitions.IncrementAt` | src/hooks/cart.tsx:66-72 | every line keeps its id, title, image, price and position; its quantity goes up by one exactly when its id matches |
| `CartTransitions.IncrementAbsent` | src/hooks/cart.tsx:66-72 | when no line carries the id, `increment` yields a cart equal to the input |
| `CartTransitions.IncrementPresent` | src/hooks/cart.tsx:66-72 | in a cart with unique ids, the result is the input with only the matching line replaced by a copy whose quantity is one higher |
| `CartTransitions.IncrementKeepsInvariants` | src/hooks/cart.tsx:66-72 | the sequence of ids is unchanged, unique ids stay unique, and non-negative quantities stay non-negative |
| `CartTransitions.IncrementTotal` | src/hooks/cart.tsx:66-72 | with unique ids, the total quantity grows by one if the id is present and is unchanged otherwise |
| `CartTransitions.Decrement` | src/hooks/cart.tsx:82-88 | the next snapshot after `decrement` has as many lines as the current one (no line is removed) |
| `CartTransitions.DecrementAt` | src/hooks/cart.tsx:82-88 | every line keeps its id, title, image, price and position; its quantity goes down by one exactly when its id matches and the quantity is above 0 (the guard at line 84) |
| `CartTransitions.DecrementAbsent` | src/hooks/cart.tsx:82-88 | when no line carries the id, `decrement` yields a cart equal to the input |
| `CartTransitions.DecrementPresent` | src/hooks/cart.tsx:82-88 | with unique ids, a positive matching line is replaced by a copy one lower and nothing else changes; a matching line at 0 (or below) leaves the whole cart unchanged |
| `CartTransitions.DecrementKeepsInvariants` | src/hooks/cart.tsx:82-88 | the length and the sequence of ids are unchanged (the item is never removed); unique ids stay unique and no quantity becomes negative |
| `CartTransitions.DecrementTotal` | src/hooks/cart.tsx:82-88 | with unique ids, the total quantity drops by one exactly when the matching line has a positive quantity |
| `CartTransitions.AddToCart` | src/hooks/cart.tsx:44-56 | after `addToCart`, a line with the candidate's id is in the cart |
| `CartTransitions.AddToCartCases` | src/hooks/cart.tsx:44-56 | an absent id gives the old list, in order, plus one new line with the candidate's fields and quantity 1; a present id gives a list of the same length where only the matching line's quantity is one higher |
| `CartTransitions.AddToCartKeepsInvariants` | src/hooks/cart.tsx:44-56 | with unique ids, the length grows by exactly 0 (id present) or 1 (id absent), the total quantity grows by exactly 1, ids stay unique and quantities stay non-negative |
| `CartTransitions.TotalQuantityUpdate` | src/hooks/cart.tsx:49-55 | changing one line's quantity changes the total by the difference |
| `CartTransitions.TotalQuantityAppend` | src/hooks/cart.tsx:47 | appending a line adds its quantity to the total |
| `CartProvider.Cart.constructor` | src/hooks/cart.tsx:29 | the provider starts with an empty cart, over a store it does not change |
| `CartProvider.Cart.Load` | src/hooks/cart.tsx:32-37 | the store is only read; with a value under `@GoMarket` the cart becomes that list, without one the cart is unchanged |
| `CartProvider.Cart.AddToCart` | src/hooks/cart.tsx:42-62 | the published cart is the next snapshot and the store holds it under `@GoMarket`, other keys untouched; a valid cart stays valid and gains exactly one item |
| `CartProvider.Cart.Increment` | src/hooks/cart.tsx:64-78 | publishes and persists the next snapshot even when no line matches, in which case it equals the old cart; a valid cart stays valid |
| `CartProvider.Cart.Decrement` | src/hooks/cart.tsx:80-94 | publishes and persists the next snapshot; the ids are unchanged; an absent id leaves the cart equal; a valid cart stays valid |
| `CartProvider.Session` | src/hooks/cart.tsx:29-94 | from an empty store: add "p1" twice, decrement three times; the quantity ends at 0, not below, the line is still present, the store holds the published list, and reloading gives the same list |

## Left out

- The asynchronous store itself: `await`, suspension between publishing and persisting, and store errors. Each method publishes and persists in one step.
- JSON serialisation (`JSON.stringify` / `JSON.parse`). The store holds lists, not strings, so there is no serialise/deserialise round trip and no malformed-payload case.
- `Load` tests "a value is stored under the key". The code tests that the stored string is truthy. The two differ only for an empty string, which the code never writes.
- The stale-snapshot race. Each `useCallback` closes over the `products` it saw when it was created, so two calls before a re-render can lose an update. The model's methods always read the current `products` field.
- React wiring: the context, `useState`, `useMemo`, the provider element, and the `useCart` guard that throws outside a provider (src/hooks/cart.tsx:96-112).
- `price` is a JavaScript number the code never reads. It is modelled as a `real` that is only copied.
- `quantity` is an unbounded integer. Floating-point limits of a JavaScript number are not modelled.
- The spread `{ ...product, quantity: 1 }` copies any extra fields the argument carries. The candidate is modelled with exactly the four declared fields.
