# Storefront cart and order lifecycle, in Dafny

This project models the core of a single-shop clothing storefront: a React
client that keeps a shopping cart and submits orders, and an Express server
that serves a fixed product catalog and stores users and orders in SQLite.

- **Cart** (`cart.dfy`): a cart is a list of lines. Each line is a snapshot
  of a product plus a selected size and a quantity, and is keyed by
  (product id, size). The three updaters `addToCart`, `updateCartQty` and
  `removeFromCart` are pure functions over the list. The navbar badge and
  the subtotal are left folds over it. The lemmas prove three things: the
  key stays unique and every quantity stays at least one; each updater
  touches only the line with its key; the badge and the subtotal move by
  exactly that line's change.
- **Storefront** (`storefront.dfy`): the root component's state (`cart`,
  `currentPage`, `orderSuccess`, `isCartOpen`) is a class. Its handlers
  replace the cart with the pure updater's result, and they keep the cart
  invariant. Submitting the order and handling its reply are two steps,
  and the cart drawer stays mounted in between: its plus button can raise
  a line's quantity while the order is in flight. That unit is not in the
  posted items, and an ok reply then empties the cart, so an ok reply can
  discard a unit that never reached the posted order. The model follows
  the code.
- **Checkout** (`checkout.dfy`): the total sent is the subtotal plus a flat
  shipping fee of 60. The order counts as placed only on a 2xx response. The
  cart is cleared and the success page shown only then. The request body's
  keys do not match what the server reads (see Findings).
- **Admin** (`admin.dfy`): each order row offers Ship, Deliver and Cancel
  unless its status is `delivered` or `cancelled`. After an ok reply the
  list is patched by order id without re-fetching. With distinct ids, exactly one
  order changes. A press and its reply are separate events: the buttons are
  gated on the status at the moment of the press, and the patch lands when
  the reply arrives. A terminal order with no request in flight never
  changes again. A request sent before it became terminal can still change
  it (see Findings), which a per-row lock while a request is in flight
  prevents.
- **Catalog** (`catalog.dfy`): the four-product constant and
  `GET /api/products/:id`. The id segment is converted by JavaScript's
  `parseInt`, modelled with its white space, sign, `0x` prefix and
  longest-digit-prefix rules. NaN is `None`.
- **Api** (`api.dfy`): the replies of `POST /api/register`,
  `POST /api/orders` and `PATCH /api/admin/orders/:id/status`, given the
  outcome of their single database statement.

Prices and quantities are integers, as in the catalog, so the folds do not
depend on their order. The source's `reduce` folds from the left; `Sum`
recurses on the last line to match.

## Model

| member | source | states |
|---|---|---|
| `Catalog.CatalogShape` | server.ts:74-139 | the catalog's ids are 1, 2, 3, 4 in order, so they are distinct |
| `Catalog.FindProduct` | server.ts:146 | `find` returns a product of the list whose id equals the parsed id; it returns nothing exactly when no product has that id, which is always so for NaN |
| `Catalog.FindUnique` | server.ts:146 | with distinct ids, looking up a listed product's id returns that very product |
| `Catalog.ParseInt` | server.ts:146 | a segment of only white space parses to NaN, and a negative result needs a leading minus sign |
| `Catalog.ParseUnsigned` | server.ts:146 | after the sign, the result is never negative, and a numeral starting with a digit 1-9 always gives a number |
| `Catalog.ParseDigits` | server.ts:146 | the digits parse to NaN exactly when there is no leading digit in the radix, and otherwise to a non-negative number |
| `Catalog.ParseDecimal` | server.ts:146 | `parseInt` reads back the decimal numeral of every natural number, ignoring a non-digit tail ("2abc", "2.5"); after a lone "0", an "x" would switch to hexadecimal |
| `Catalog.NoDigitIsNaN` | server.ts:146 | a segment with no decimal digit parses to NaN |
| `Catalog.GetProduct` | server.ts:145-152 | the reply is 200 with a catalog product whose id is the parsed segment exactly when some catalog product has that id; otherwise it is 404 "Product not found" |
| `Catalog.LookupByDecimalId` | server.ts:145-152 | every catalog product is served at its decimal id, with or without a non-digit tail |
| `Catalog.LookupNotFound` | server.ts:146-151 | a segment without digits, or one parsing to a number outside 1..4, answers 404 "Product not found" |
| `Catalog.HexSegment` | server.ts:146 | "0x3" parses to 3 and is answered with product 3 |
| `Api.Includes` | server.ts:51 | `includes` is true exactly when the substring occurs at some position |
| `Api.Register` | server.ts:41-57 | a successful insert answers `{success: true, userId}`; a thrown error answers 400 "Email already exists" exactly when its message contains "UNIQUE constraint failed", and 500 "Registration failed" otherwise |
| `Api.RegisterExamples` | server.ts:51-55 | a UNIQUE violation on users.email maps to 400; a disk I/O error maps to 500 |
| `Api.ReadOrderFields` | server.ts:155 | `totalAmount` and `customerName` are defined exactly when the body has those keys |
| `Api.PlaceOrder` | server.ts:154-168 | the order reply is 200 `{success: true, orderId}` exactly when the insert succeeded, else 500 "Failed to place order" |
| `Api.UpdateOrderStatus` | server.ts:180-189 | the status reply is 200 `{success: true}` exactly when the UPDATE did not throw, for any id and any status string |
| `Cart.FindLine` | src/App.tsx:1023 | `find` returns a line of the cart with the key, and nothing exactly when no line has it |
| `Cart.FoldSteps` | src/App.tsx:538 | both folds give 0 on the empty cart, and each line adds its quantity (badge) or price times quantity (subtotal) |
| `Cart.Count` | src/App.tsx:1059 | the badge adds up the quantities; with every quantity at least 1 it is at least the number of lines |
| `Cart.AddToCart` | src/App.tsx:1021-1032 | after adding, a line with the key is in the cart; the cart grows by one line exactly when the key was absent; existing lines keep their keys and positions |
| `Cart.IncrementLines` | src/App.tsx:1025-1029 | the map keeps the length, every product and size; a line changes exactly when it has the key, and its quantity never drops |
| `Cart.IncrementOnly` | src/App.tsx:1025-1029 | with unique keys the map increments exactly the one line with the key |
| `Cart.IncrementTotals` | src/App.tsx:1025-1029 | one more unit on a line raises the badge by exactly one |
| `Cart.IncrementSubtotal` | src/App.tsx:1025-1029 | one more unit on a line raises the subtotal by exactly that line's price |
| `Cart.UpdateQuantity` | src/App.tsx:1036-1044 | the map keeps the length, every product and size, and every line without the key; a line with the key gets the larger of 1 and quantity + delta |
| `Cart.AddExisting` | src/App.tsx:1021-1029 | adding a present key adds exactly one to that line's quantity, keeps the length and every other line; the badge grows by 1 and the subtotal by the line's recorded price |
| `Cart.AddNew` | src/App.tsx:1031 | adding an absent key appends one line at the end: the product's copy with the chosen size and quantity 1, keeping the old lines in order; badge +1, subtotal + the product's price |
| `Cart.AddPreservesValid` | src/App.tsx:1021-1032 | `addToCart` keeps keys unique and quantities at least 1 |
| `Cart.AddTwice` | src/App.tsx:1021-1032 | adding the same (product, size) twice to a cart without it gives one line of quantity 2, not two lines |
| `Cart.UpdateExisting` | src/App.tsx:1036-1044 | the matching line's quantity becomes max(1, quantity + delta), so never below 1; the length and every other line are unchanged; badge and subtotal change by that line only |
| `Cart.UpdateAbsent` | src/App.tsx:1036-1044 | with no matching line the update changes nothing |
| `Cart.DecrementAtOne` | src/App.tsx:1036-1044 | decrementing a line of quantity 1 leaves the cart as it was; only removal deletes a line |
| `Cart.UpdatePreservesValid` | src/App.tsx:1036-1044 | `updateCartQty` keeps keys unique and quantities at least 1 |
| `Cart.RemoveLines` | src/App.tsx:1046-1048 | a line survives removal exactly when it was in the cart and does not have the key; the result is no longer than the cart |
| `Cart.RemoveAbsent` | src/App.tsx:1046-1048 | removing an absent key leaves the cart unchanged |
| `Cart.RemoveSplice` | src/App.tsx:1046-1048 | in a cart with unique keys, removal deletes exactly the matching line and keeps the others in their relative order |
| `Cart.RemoveExisting` | src/App.tsx:1046-1048 | removing a present key shortens the cart by one line, and lowers the badge and the subtotal by that line's quantity and line total |
| `Cart.RemovePreservesValid` | src/App.tsx:1046-1048 | `removeFromCart` keeps keys unique and quantities at least 1 |
| `Checkout.CheckoutTotalExample` | src/App.tsx:643-658 | one line priced 1050 with quantity 2 gives a checkout total of 2160; an empty cart gives the fee alone |
| `Checkout.CatalogCheckoutTotal` | src/App.tsx:643-658 | for a cart of catalog products the checkout total is 1050 per unit counted in the badge, plus 60 |
| `Checkout.ServerMissesNameAndTotal` | src/App.tsx:652-660 | the server finds neither `customerName` nor `totalAmount` in the body the client posts; phone, address and items do arrive |
| `Checkout.ServerReadsCorrectedBody` | src/App.tsx:652-660 | with camel-case keys the server reads the name, phone, address, the checkout total and the item snapshot |
| `Checkout.ClientOrderBody` | src/App.tsx:654-660 | the posted body has exactly the keys `customer_name`, `phone`, `address`, `total_amount`, `items`; the items are the cart's lines and the total is subtotal plus 60 |
| `Checkout.PlacedIffStored` | src/App.tsx:663-665 | when the server's reply arrives, the order counts as placed exactly when the insert succeeded; a thrown `fetch` never does |
| `Admin.OfferedActions` | src/App.tsx:882 | a row offers actions exactly when its status is neither `delivered` nor `cancelled`, and only `shipped`, `delivered`, `cancelled` |
| `Admin.OfferedTransitions` | src/App.tsx:882-906 | the buttons allow `pending` to `delivered` and `shipped` to `shipped`; an unknown status gets all three actions; terminal statuses get none |
| `Admin.PatchOne` | src/App.tsx:798 | with distinct ids the patch changes the status of exactly the order with that id; the length and all other orders are unchanged |
| `Admin.PatchAbsent` | src/App.tsx:798 | an id no listed order has leaves the list unchanged |
| `Admin.PatchStatus` | src/App.tsx:798 | the patch keeps the length and changes only the status, of exactly the orders with the id, to the new status |
| `Admin.Step` | src/App.tsx:790-906 | a press sends a request only from a row that shows the button at that moment (and a Cancel only when confirmed); a reply patches the list by the id and status of its own request, only if ok; the list keeps its length and ids |
| `Admin.Run` | src/App.tsx:790-906 | any sequence of presses and replies keeps the list's length and ids |
| `Admin.StepIdleTerminal` | src/App.tsx:790-882 | one press or reply leaves a terminal order with no request in flight unchanged and sends no request about it |
| `Admin.IdleTerminalIsFinal` | src/App.tsx:790-906 | a terminal order with no request in flight never changes again, whatever presses and replies follow |
| `Admin.RaceRevivesDelivered` | src/App.tsx:790-895 | Deliver then Ship pressed on a pending order before the first reply, both answered ok, makes the order delivered and then shipped |
| `Admin.LockRefusesSecondPress` | src/App.tsx:882-895 | with a per-row lock the same presses and replies leave the order delivered |
| `Admin.LockedTerminalIsFinal` | src/App.tsx:790-906 | with a per-row lock and starting with no request in flight, a delivered or cancelled order never changes again |
| `Admin.PatchedIffUpdated` | src/App.tsx:797-798 | the client patches its list exactly when the server's UPDATE did not throw |
| `Admin.Panel.constructor` | src/App.tsx:764-765 | the panel starts with no orders and loading |
| `Admin.Panel.Loaded` | src/App.tsx:774-777 | the fetched list replaces the orders and loading ends |
| `Admin.Panel.UpdateStatus` | src/App.tsx:790-803 | the list is patched by id only after an ok reply; otherwise it is unchanged; its length never changes; the new list is the one `Admin.Step` gives for the reply to that one request |
| `Storefront.App.constructor` | src/App.tsx:976-983 | the app starts on the home page with an empty cart, the drawer closed and no confirmed order |
| `Storefront.App.CartCount` | src/App.tsx:1059 | the badge is the total number of units, never less than the number of lines |
| `Storefront.App.AddToCart` | src/App.tsx:1021-1034 | the cart becomes the result of adding, the drawer opens, and the cart invariant holds |
| `Storefront.App.UpdateCartQty` | src/App.tsx:1036-1044 | the cart becomes the result of the quantity update; the invariant holds and nothing else changes |
| `Storefront.App.RemoveFromCart` | src/App.tsx:1046-1048 | the cart becomes the result of the removal; the invariant holds and nothing else changes |
| `Storefront.App.HandleCheckoutComplete` | src/App.tsx:1050-1054 | the cart is emptied, the order is marked confirmed and the page becomes `success` |
| `Storefront.App.SubmitCheckout` | src/App.tsx:646-661 | the posted body carries the cart as it is at submit and a total of subtotal plus 60; nothing changes until the reply |
| `Storefront.App.CheckoutReplied` | src/App.tsx:663-669 | an ok reply empties the cart and shows the success page; any other reply or a thrown `fetch` leaves cart and page unchanged |
| `Storefront.App.IncrementDuringCheckout` | src/App.tsx:646-669 | a unit added with the drawer's plus button while the order is in flight is not in the posted items; the cart at reply time holds one unit more, and an ok reply empties it |

## Left out

- Rendering, animations, menus, page routing markup and the browser's form validation (the `required` fields) are presentation. The checkout handler is modelled without them.
- `fetch`, Express, the Vite middleware and static serving are not modelled. A request's outcome is a parameter: a response status, or a thrown error.
- The SQLite engine and its statements are not modelled. Each handler takes its statement's outcome as a parameter: a row id, or the thrown error's message. Whether an UPDATE matched a row, and the UNIQUE check itself, belong to the database.
- `/api/login`, `GET /api/products`, `GET /api/admin/orders`, the user session cache in `localStorage`, and JSON serialisation of items are left out. They are a database lookup, a constant reply, library serialisation and browser storage.
- The hard-coded admin credential check is left out. It is a fixed string comparison.
- Floating point is left out: the product `rating`, the `REAL` total column and the size-guide measurements.
- Catalog.ParseInt: JavaScript numbers are doubles. A numeral too long to be represented exactly parses here to its exact integer, not to a rounded one. No such value is a catalog id either way.
- Catalog.GetProduct: Express decodes percent-escapes in the path segment before `parseInt` sees it. The model starts from the decoded segment.
- Api.Register: an error without a `message` string would make the handler itself throw. The model assumes the thrown error has a message.
- `CheckoutPage`'s `isSubmitting` flag only disables the button during the request, and it is not modelled.
- Page navigation while an order is in flight is not modelled, and with it an `addToCart` from a product page during the request. An ok reply shows the success page whichever page is open.
- Size validation is absent from the model, as from the source: `addToCart` accepts any size and does not check it against `product.sizes`.

## Findings

| source | as written | input that shows it | evidently intended | confidence | as-written member | corrected member |
|---|---|---|---|---|---|---|
| src/App.tsx:790-799, 882-906 | a row's buttons stay live while its status request is in flight, and each reply patches the list as it is when the reply lands | one `pending` order: press Deliver, then Ship before the first reply; both replies ok, in order: the order becomes `delivered`, then `shipped` | a delivered or cancelled order never changes again, e.g. the row's buttons are disabled while its request is in flight | medium, not executed | `Admin.RaceRevivesDelivered` | `Admin.LockedTerminalIsFinal` |
| src/App.tsx:655-658, server.ts:155 | the client posts `customer_name` and `total_amount`, while the server reads `customerName` and `totalAmount` | any checkout, e.g. one line of 1050 × 2: the server sees `totalAmount` undefined instead of 2160, and no customer name | the server stores the customer name and the checkout total the client computed | high, not executed | `Checkout.ServerMissesNameAndTotal` | `Checkout.ServerReadsCorrectedBody` |

`Storefront.App.SubmitCheckout` returns the body the client actually
posts, with the keys as written. This keeps the client's behaviour
faithful, and the finding is stated against that body.
