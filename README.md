# Shopping-cart state machine (RocketShoes storefront)

This project models the cart provider of a storefront (`useCart`) and the cart
badge in its page header.

The provider holds four things:
- the cart, an ordered sequence of products, each with an `amount`;
- the product catalog;
- the stock table;
- the copy of the cart kept in the browser's storage slot `@RocketShoes:cart`.

It has three operations, `addProduct`, `removeProduct` and
`updateProductAmount`:
- `addProduct` and `updateProductAmount` check the request against the stock
  table. `removeProduct` does not read the stock table.
- A product without a positive stock record is rejected with the toast
  "Quantidade solicitada fora de estoque", and `setCart` is not called.
- A branch that maps over the cart hands the mapped cart to `setCart`. It can
  also show the toast, for an entry already at its stock or an amount above it.
- Adding a product that is missing from both the cart and the catalog neither
  changes the cart nor shows a toast.
- Every call then writes the cart to storage. The one exception is an update
  with a non-positive amount, which returns first.

The header counts the distinct product ids in the cart with a `reduce` whose
list of seen ids starts as `[-1]`. It then shows "1 item" or "<n> itens".

Files:
- `types.dfy` (module `Types`): products, stock records, the message, and the
  predicate "ids are distinct".
- `cart_lookup.dfy` (module `CartLookup`): the `find` lookups, the two `map`
  passes with the messages they raise, and the `filter` of `removeProduct`, as
  pure functions.
- `use_cart.dfy` (module `UseCart`): the three operations as transitions on a
  `CartState` value, and the lemmas about them. It also holds the class
  `CartProvider`, whose fields are `cart`, `products`, `stock`, `stored` and
  `log`. Its methods run the operations step by step, and each is proved to
  perform exactly its transition.
  The same file holds the operations as a state machine:
  - `Op` is one call of one of the three operations;
  - `Step` applies one `Op` to a state;
  - `Run` applies a sequence of them in order.
- `header.dfy` (module `Header`): the distinct-id fold as a loop, the label,
  and `BadgeText`, which composes the two into the text the header shows.

How the model reads the source:
- `setCart` takes effect at the end of a call. Inside a call, `cart` is the
  array captured when the call started.
- The `map` callbacks change the captured entries in place (`product.amount++`,
  `product.amount = amount`). So the array written to storage shows the new
  amounts: in those branches the stored copy equals the new cart.
- An appended entry (`[...cart, {...product, amount: 1}]`) and a removal
  (`cart.filter`) build a new array. The stored copy is then the cart from
  before the call, so storage lags one call behind.
- `updateProductAmount` with `amount <= 0` returns before writing to storage.
- Inside each `map`, a message is shown once per matching entry that fails the
  check. In a cart with distinct ids that is at most one message.
- Toasts become strings appended to `log`.

What reaches storage:
- The code persists the array captured at the start of the call, not the
  resulting cart (see `AddStoresCaptured`, `RemoveStoresCaptured`,
  `AppendNotStored`, `RemovalNotStored`).
- A removal reaches storage only at the next call that writes.
- Amounts are changed in place.

## Model

| member | source | states |
|---|---|---|
| CartLookup.FindStock | src/hooks/useCart.tsx:40 | finds nothing exactly when no record has this id with a positive amount; otherwise finds the first such record |
| CartLookup.Find | src/hooks/useCart.tsx:42 | finds nothing exactly when no entry has this id; otherwise finds the first entry with that id (also used for the catalog lookup at line 55) |
| CartLookup.FindInUniqueCart | src/hooks/useCart.tsx:42 | in a cart with distinct ids, the lookup returns the one entry with that id |
| CartLookup.IncrementAll | src/hooks/useCart.tsx:44-53 | same length; each entry of the id whose amount is below the limit gains one; every other entry is unchanged |
| CartLookup.IncrementRefusals | src/hooks/useCart.tsx:44-53 | every message is the out-of-stock message; there are none exactly when every entry of the id is below the limit |
| CartLookup.IncrementRefusalsOfUniqueEntry | src/hooks/useCart.tsx:45-50 | with distinct ids, no message if the entry is below the limit, exactly one otherwise |
| CartLookup.AssignAll | src/hooks/useCart.tsx:91-100 | same length; when the amount is within the limit, each entry of the id takes that amount; every other entry is unchanged |
| CartLookup.AssignRefusals | src/hooks/useCart.tsx:91-100 | every message is the out-of-stock message; none exactly when the amount is within the limit or no entry has the id |
| CartLookup.AssignRefusalsOfUniqueEntry | src/hooks/useCart.tsx:92-97 | with distinct ids and the entry present, no message if the amount is within the limit, exactly one otherwise |
| CartLookup.Without | src/hooks/useCart.tsx:72 | keeps exactly the entries with other ids; no entry of the id is left; an absent id leaves the cart as it was |
| CartLookup.WithoutAppend | src/hooks/useCart.tsx:72 | filtering a concatenation filters each part, so relative order is kept |
| CartLookup.WithoutKeepsUnique | src/hooks/useCart.tsx:72 | filtering keeps the ids distinct |
| UseCart.Add | src/hooks/useCart.tsx:38-68 | leaves catalog and stock alone, always writes storage, and only appends to the message log |
| UseCart.Remove | src/hooks/useCart.tsx:70-78 | leaves catalog, stock and log alone; the cart does not grow |
| UseCart.Update | src/hooks/useCart.tsx:80-110 | leaves catalog and stock alone; the cart keeps its length; only appends to the log |
| UseCart.AddSoldOut | src/hooks/useCart.tsx:40-64 | when no stock record of the id has a positive amount: cart unchanged, exactly one message, captured cart stored |
| UseCart.AddIncrementsEntry | src/hooks/useCart.tsx:42-47 | in a cart with distinct ids, an entry below its stock gains exactly one; all other entries and the order are kept; no message; the new cart is stored |
| UseCart.AddAtLimit | src/hooks/useCart.tsx:46-50 | in a cart with distinct ids, an entry at or above its stock: cart unchanged, exactly one message, and the cart captured at the start of the call stored |
| UseCart.AddAppends | src/hooks/useCart.tsx:54-58 | a product in stock, in the catalog and not in the cart is appended at the end with amount 1; no message; the old cart is stored |
| UseCart.AddNotInCatalog | src/hooks/useCart.tsx:54-58 | a product in stock but missing from cart and catalog: the cart and the log stay as they were and no message is shown; storage receives the cart captured at the start of the call |
| UseCart.AddPreservesConsistent | src/hooks/useCart.tsx:40-58 | distinct ids and 1 <= amount <= stock hold after the call if they held before |
| UseCart.RemoveDropsEntries | src/hooks/useCart.tsx:72-74 | the new cart holds exactly the old entries of other ids; an absent id leaves the cart as it was; storage receives the cart captured at the start of the call |
| UseCart.RemoveUniqueEntry | src/hooks/useCart.tsx:72 | with distinct ids, removing entry k gives the cart without position k, the rest in order |
| UseCart.RemovePreservesConsistent | src/hooks/useCart.tsx:72 | distinct ids and 1 <= amount <= stock hold after the call if they held before |
| UseCart.UpdateNonPositive | src/hooks/useCart.tsx:85-87 | an amount of zero or less changes nothing: no message and no storage write |
| UseCart.UpdateSetsAmount | src/hooks/useCart.tsx:89-101 | in a cart with distinct ids, a positive amount within the stock replaces only that entry's amount; no message; the new cart is stored |
| UseCart.UpdateOverStock | src/hooks/useCart.tsx:93-97 | in a cart with distinct ids, an amount above the stock of an entry in the cart: cart unchanged, exactly one message, and the cart captured at the start of the call stored |
| UseCart.UpdateSoldOut | src/hooks/useCart.tsx:89-104 | a positive amount with no positive stock record: cart unchanged and exactly one message |
| UseCart.UpdateNotInCart | src/hooks/useCart.tsx:89-101 | a product in stock but not in the cart, any positive amount: the cart and the log stay as they were and no message is shown; storage receives the cart captured at the start of the call |
| UseCart.UpdatePreservesConsistent | src/hooks/useCart.tsx:85-101 | distinct ids and 1 <= amount <= stock hold after the call if they held before |
| UseCart.AddStoresCaptured | src/hooks/useCart.tsx:44-64 | the stored copy is the new cart when the call changed amounts in place, and the old cart when it appended |
| UseCart.RemoveStoresCaptured | src/hooks/useCart.tsx:72-74 | the stored copy is the cart from before the removal |
| UseCart.UpdateStoresCaptured | src/hooks/useCart.tsx:85-106 | with a positive amount the stored copy is the new cart; otherwise storage is not written |
| UseCart.RunPreservesConsistent | src/hooks/useCart.tsx:38-110 | over any sequence of the three operations, the ids stay distinct and every amount stays within 1 and its stock |
| UseCart.AddSoldOutRepeatedly | src/hooks/useCart.tsx:40-64 | adding a sold-out product n times keeps the cart and shows exactly n messages |
| UseCart.AppendNotStored | src/hooks/useCart.tsx:57-64 | adding to an empty cart gives a one-entry cart, while storage receives the empty cart captured at the start of the call |
| UseCart.RemovalNotStored | src/hooks/useCart.tsx:72-74 | removing one of two entries leaves both in storage |
| UseCart.CartProvider.constructor | src/hooks/useCart.tsx:25-33 | the cart starts as the stored copy, or empty when storage holds nothing; the log is empty |
| UseCart.CartProvider.AddProduct | src/hooks/useCart.tsx:38-68 | the new state is exactly `Add` of the old one, and the invariant is preserved |
| UseCart.CartProvider.RemoveProduct | src/hooks/useCart.tsx:70-78 | the new state is exactly `Remove` of the old one, and the invariant is preserved |
| UseCart.CartProvider.UpdateProductAmount | src/hooks/useCart.tsx:80-110 | the new state is exactly `Update` of the old one, and the invariant is preserved |
| UseCart.CartProvider.IncrementEntries | src/hooks/useCart.tsx:44-53 | the loop computes `IncrementAll` and logs `IncrementRefusals` |
| UseCart.CartProvider.AssignEntries | src/hooks/useCart.tsx:91-100 | the loop computes `AssignAll` and logs `AssignRefusals` |
| Header.CartSize | src/components/Header/index.tsx:11-22 | the size is the number of distinct ids in the cart other than -1, and at most the cart's length |
| Header.CountedSnoc | src/components/Header/index.tsx:12-16 | an entry whose id is -1 or already seen leaves the count alone; any other entry adds exactly one |
| Header.CountedBound | src/components/Header/index.tsx:11-22 | the count never exceeds the number of entries |
| Header.SeenIdNotCounted | src/components/Header/index.tsx:12-21 | appending an entry whose id is -1 or already present leaves the size unchanged |
| Header.SizeOfUniqueCart | src/components/Header/index.tsx:11-22 | a cart with distinct ids, none of them -1, has size equal to its length |
| Header.DecimalString | src/components/Header/index.tsx:35 | the numeral is non-empty, all digits, without a leading zero |
| Header.ParseDecimalString | src/components/Header/index.tsx:35 | reading the printed size back gives the size |
| Header.Label | src/components/Header/index.tsx:35 | the label is "1 item" exactly when the size is 1; otherwise it is the size's decimal numeral (digits, no leading zero, reading back as the size) followed by " itens" |
| Header.LabelDeterminesSize | src/components/Header/index.tsx:35 | two sizes with the same label are equal |
| Header.BadgeText | src/components/Header/index.tsx:11-35 | the badge text of a cart is the label of its number of distinct ids other than -1 |
| Header.LabelOfEmptyCart | src/components/Header/index.tsx:35 | size 0 reads "0 itens" |

## Left out

- React wiring (`createContext`, the provider component, `useCart`/`useContext`) and the header's markup are not modelled. They hold no logic of the cart.
- The two `api.get` calls in `useEffect` (REST I/O) are not modelled. The catalog and the stock table are constructor arguments; empty sequences stand for "not yet loaded".
- JSON is not modelled. Storage is a value of type `Option<seq<Product>>`: None means the slot is empty. Reading a value that is empty or fails to parse is out of scope.
- The `catch` arms and their messages are not modelled, because the model has no failing library calls.
- React's batching of `setCart` is not modelled. Each call is atomic, and `setCart` takes effect at the end of the call.
- Object identity is not modelled: entries are values. The in-place amount edits show up only where they are observable, in the stored copy.
- JavaScript numbers are doubles, but ids and amounts are unbounded integers here. Rounding of very large amounts is not modelled.
- Title, price and image are carried as an opaque `Details` value. No operation reads them.
