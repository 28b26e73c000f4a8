# DropsMob shop: cart, orders and checkout message in Dafny

This project models the only stateful logic of the DropsMob shop front end.
The shop is a single-page React app that sells T-shirts and home appliances,
takes payment through e-Mola and confirms orders over WhatsApp. The model
covers four parts:

- **Cart engine.** The session cart is a list of lines keyed by product id.
  Add-to-cart merges into an existing line (+1) or appends a new line with
  quantity 1. Buy-now appends only when the product is absent. A quantity
  update clamps at `max(1, q + delta)`. Remove filters the line out. The cart
  invariant is that ids are unique and every quantity is at least 1
  (`Cart.Valid`). Besides the list view, the cart is also read as a mapping
  from product id to quantity (`Cart.QuantityOf`). Every operation is
  specified against that mapping and against the total
  Σ price·quantity (`Cart.Sum`).
- **Order ledger.** Finalizing a checkout snapshots the cart into an order.
  The order gets the total, status `Pendente` and the customer's name, e-Mola
  number and reference. It goes in front of the ledger (newest first), and
  then the cart is emptied. An operator may set any of the four statuses at
  any time. An unknown order id is a no-op.
- **Message encoder.** This builds the WhatsApp text and the
  `https://wa.me/<phone>?text=<message>` link. Line breaks are written as the
  literal `%0A`. The items are summarised as `"{q}x {name}"` joined by
  `" + "`. An empty address becomes `Não informado`. The model proves that
  the template is its twelve logical lines joined by `%0A`, and that a reader
  that decodes only `%0A` gets those lines back, separated by real line breaks. It
  also proves that the message can be read back out of the link.
- **Checkout gate.** The form's submit handler passes the form data on only
  when name, phone and reference are all non-empty. `App.Store.SubmitCheckout`
  composes the gate with order creation: a rejected form leaves the cart and
  the ledger untouched.

The session state (`cart`, `orders`) is the class `App.Store`. Its methods
assign the values computed by the pure functions in `Cart`, `Ledger` and
`Message`, just as each React handler passes a new array to `setCart` or
`setOrders`. Prices are whole amounts (`nat`). Quantities are `int`, because
a quantity update accepts any delta. The order id, the timestamp, the
store's WhatsApp number and the currency formatter are all parameters.

Three details of the code matter here:

- The required-field check lives in the checkout form
  (`components/Checkout.tsx:24`), not in order creation. `HandleFinalizeOrder`
  itself accepts any data. `SubmitCheckout` is the composition that has the
  validation guarantee.
- The address falls back to the placeholder only when it is the empty
  string. There is no trimming, so an address of blanks is sent as it is.
- The item summary is joined with `" + "`.

Files: `types.dfy` (types.ts), `cart.dfy`, `ledger.dfy`, `message.dfy` and
`app.dfy` (App.tsx), `checkout.dfy` (components/Checkout.tsx).

## Model

| member | source | states |
|---|---|---|
| Types.ParseCategory | types.ts:2-5 | exactly the two labels `Camisetas` and `Eletrodomésticos` are categories, and each parses back to the category it labels |
| Types.CategoryRoundTrip | types.ts:2-5 | reading a category's label gives back that category |
| Types.LineOf | types.ts:17-19 | a cart line built from a product keeps every product field and carries the given quantity |
| Types.LineIsProductAndQuantity | types.ts:17-19 | a cart line is exactly its product fields plus its quantity |
| Types.ParseStatus | types.ts:28 | exactly the four strings `Pendente`, `Pago`, `Em entrega`, `Concluído` are statuses |
| Types.StatusRoundTrip | types.ts:28 | reading a status label gives back that status |
| Cart.Find | App.tsx:46 | finds a line iff some line has the id; the line found is the first one with that id |
| Cart.FindUnique | App.tsx:46 | with unique ids, find returns the one line carrying the id |
| Cart.Reduce | App.tsx:78 | the left fold from `acc` equals `acc` plus Σ price·quantity |
| Cart.Total | App.tsx:78 | the total equals Σ price·quantity and is non-negative when every quantity is at least 1 |
| Cart.SumAppend | App.tsx:78 | the total of two concatenated lists is the sum of their totals |
| Cart.SumUpdate | App.tsx:78 | replacing one line changes the total by the difference of the two subtotals |
| Cart.AddToCart | App.tsx:44-51 | the product is in the result; the length grows only when the product was absent; the cart invariant is preserved |
| Cart.AddToCartExisting | App.tsx:46-48 | adding a product already present raises that line's quantity by 1 and leaves the length and every other line unchanged |
| Cart.AddToCartNew | App.tsx:50 | adding an absent product appends one quantity-1 line at the end |
| Cart.AddToCartQuantity | App.tsx:44-51 | as a mapping, the product's quantity rises by one and every other product's stays |
| Cart.AddTwiceMerges | App.tsx:44-51 | adding the same absent product twice gives one line of quantity 2, not two lines |
| Cart.AddToCartTotal | App.tsx:44-51 | the total rises by the price of the line that gained a unit: the existing line's price, or the product's price for a new line |
| Cart.BuyNow | App.tsx:55-59 | a product already present leaves the cart unchanged; an absent one is appended at the end as exactly the product with quantity 1; the invariant is preserved |
| Cart.BuyNowTotal | App.tsx:55-59 | the total rises by the product's price when buy-now adds a line, and is unchanged when the product was present |
| Cart.BuyNowQuantity | App.tsx:55-59 | as a mapping, an absent product gets quantity 1; a present one is not incremented; others stay |
| Cart.Max | App.tsx:66 | `Math.max`: the result is at least both arguments and is one of them |
| Cart.UpdateQuantity | App.tsx:63-71 | length and ids in order are unchanged; every line with the id ends with quantity at least 1; the invariant is preserved |
| Cart.UpdateQuantityAt | App.tsx:64-70 | with unique ids, only the matching line changes, to `max(1, q + delta)` |
| Cart.UpdateQuantityUnknown | App.tsx:64-70 | an id not in the cart leaves the cart identical |
| Cart.UpdateQuantityQuantity | App.tsx:63-71 | as a mapping, the product gets `max(1, q + delta)` and others keep theirs |
| Cart.UpdateQuantityTotal | App.tsx:63-71 | the total changes by price times the change in that line's quantity |
| Cart.Remove | App.tsx:73-75 | no line with the id remains; every remaining line came from the cart; an absent id leaves the cart unchanged |
| Cart.RemoveAppend | App.tsx:74 | filtering distributes over concatenation |
| Cart.RemoveAt | App.tsx:73-75 | removing the line at k leaves exactly the lines before and after it, in their original order |
| Cart.DropAt | App.tsx:74 | dropping one line shifts the later lines down by one and keeps ids unique |
| Cart.RemoveValid | App.tsx:73-75 | removing keeps the cart invariant |
| Cart.RemoveQuantity | App.tsx:73-75 | as a mapping, the removed product drops to 0 and every other product keeps its quantity |
| Cart.RemoveKeepsOther | App.tsx:73-75 | a product other than the removed one keeps its quantity |
| Cart.RemoveTotal | App.tsx:73-75 | the total drops by the removed line's subtotal |
| Ledger.NewOrder | App.tsx:78-90 | the order holds the cart lines and their Σ price·quantity, status `Pendente`, the customer's name, phone and reference, and the given id and date |
| Ledger.Place | App.tsx:92 | the new order is at index 0 and the earlier orders follow, unchanged |
| Ledger.NewestFirst | App.tsx:92 | placing A and then B yields B, A and then the earlier orders |
| Ledger.PlaceNewOrderConsistent | App.tsx:78-92 | after placing a new order, every order's total still agrees with its items |
| Ledger.UpdateStatus | App.tsx:110-112 | same length; orders with the id get the new status whatever their current one; every other field of every order, and every other order, is unchanged |
| Ledger.UpdateStatusUnknown | App.tsx:110-112 | an unknown order id leaves the ledger identical |
| Ledger.UpdateStatusLastWins | App.tsx:110-112 | two updates in a row leave the status of the second |
| Ledger.UpdateStatusRevertible | App.tsx:110-112 | with no transition rules, writing back the previous status restores the ledger exactly, for an order whose id no other order has (random ids can collide, and a shared id would be overwritten too) |
| Ledger.UpdateStatusConsistent | App.tsx:110-112 | a status update keeps every order's total consistent with its items |
| Message.DigitChar | App.tsx:79 | the character is a decimal digit with the given value |
| Message.NatToDecimal | App.tsx:79 | the digits are non-empty and all decimal; the only output starting with `0` is `"0"` itself, for zero |
| Message.DecimalRoundTrip | App.tsx:79 | reading the printed digits gives back the number |
| Message.IntToDecimal | App.tsx:79 | a whole number prints in JavaScript's plain form: its digits without leading zeros (only zero prints as `"0"`), with a leading `-` when negative, and reads back to that number |
| Message.Join | App.tsx:79 | `Array.prototype.join`: no parts give the empty string and one part gives that part; `JoinSnoc` adds each further part after the separator, which fixes the result for every list, and `JoinLacks` bounds its characters |
| Message.JoinSnoc | App.tsx:79 | joining one more part appends the separator and that part |
| Message.ItemLabel | App.tsx:79 | a line's label is its quantity in plain decimal without leading zeros (read back by `ParseDecimal`), then `x `, then the product name |
| Message.ItemLabels | App.tsx:79 | the labels are `"{q}x {name}"` for each line, in cart order |
| Message.ItemSummarySnoc | App.tsx:79 | the summary lists the lines in cart order, separated by `" + "` |
| Message.ItemSummary | App.tsx:79 | the summary is empty exactly when the cart is, and a one-line cart's summary is that line's label; `ItemSummarySnoc` gives the order of the rest |
| Message.AddressText | App.tsx:102 | a non-empty address is kept as it is; the placeholder appears exactly when the address is empty or is the placeholder itself |
| Message.Text | App.tsx:95-103 | the message template, literal for literal; `TextIsEscapedLines` states its shape and `MessageDecodes` what a reader gets from it |
| Message.TextIsEscapedLines | App.tsx:95-103 | the template equals its twelve logical lines joined by the literal `%0A` |
| Message.DecodeJoin | App.tsx:95-103 | lines without `%` joined by `%0A` decode to the same lines joined by line breaks |
| Message.MessageDecodes | App.tsx:95-103 | when no field contains `%`, decoding `%0A` yields the intended lines, separated by line breaks |
| Message.MessageHasNoNewline | App.tsx:95-103 | the message holds no literal line break unless a field does |
| Message.LinesLack | App.tsx:95-103 | `%` and line breaks enter a message line only through a field |
| Message.SummaryLacks | App.tsx:79 | a character that is not part of the `"{q}x "`/`" + "` framing enters the summary only through a product name |
| Message.Link | App.tsx:106 | the link begins with `https://wa.me/` followed by the store phone, ends with the message, and is exactly as long as those plus `?text=`, so nothing else sits between them; `LinkRoundTrip` reads the message back |
| Message.LinkRoundTrip | App.tsx:106 | the `text` parameter of the link is exactly the message when the store phone holds no `?` |
| Message.IndexOf | App.tsx:106 | the index found holds the first `?` of the link |
| Checkout.HandleSubmit | components/Checkout.tsx:22-29 | the data is confirmed iff name, phone and reference are all non-empty, and what is confirmed is the form data unchanged |
| Checkout.InitialFormRejected | components/Checkout.tsx:12-17 | the untouched form (all fields empty) is rejected |
| Checkout.AddressNotRequired | components/Checkout.tsx:24 | the outcome does not depend on the address, so an empty address never blocks submission |
| Checkout.DisplayedTotal | components/Checkout.tsx:19 | the amount shown is Σ price·quantity over the items |
| Checkout.DisplayedTotalIsOrderTotal | components/Checkout.tsx:19 | the amount shown equals the total recorded in the order created from the same items |
| App.Store.constructor | App.tsx:14-15 | a session starts with an empty cart and an empty ledger |
| App.Store.HandleAddToCart | App.tsx:44-53 | the cart becomes the add-to-cart result, with the product's quantity one higher; orders are unchanged; the invariant is kept |
| App.Store.HandleBuyNow | App.tsx:55-61 | the cart becomes the buy-now result, is unchanged when the product was present, and its total rises by the product's price otherwise; orders are unchanged |
| App.Store.UpdateCartQuantity | App.tsx:63-71 | the cart becomes the clamped update; orders are unchanged; the invariant is kept |
| App.Store.RemoveFromCart | App.tsx:73-75 | the cart becomes the filtered cart without the id; orders are unchanged; the invariant is kept |
| App.Store.HandleFinalizeOrder | App.tsx:77-108 | the snapshot order (old cart, its total, `Pendente`) goes in front of the unchanged earlier orders; the cart becomes empty; the link carries the message for the old cart |
| App.Store.SubmitCheckout | components/Checkout.tsx:22-29 | a form missing name, phone or reference yields no link and leaves cart and ledger untouched; otherwise the order is created from the form data and the cart is emptied |
| App.Store.UpdateOrderStatus | App.tsx:110-112 | the ledger becomes the status update and is identical for an unknown id; the cart is unchanged; totals stay consistent |

## Left out

- Loading and saving the cart and the orders in `localStorage`, with JSON parse and stringify (App.tsx:20-34), is I/O. The in-memory state of `App.Store` is authoritative, and the constructor starts from empty collections.
- Currency formatting with `Intl.NumberFormat('pt-MZ', MZN)` follows locale rules over floats. It enters as the function parameter `formatMZN`. The template's shape (`TextIsEscapedLines`) and the link round trip hold for whatever text it returns; the decoding lemmas (`MessageDecodes`, `MessageHasNoNewline`) assume that text contains no `%` and no line break.
- Prices are whole numbers (`nat`), not IEEE doubles, so no floating-point rounding is modelled.
- Message.IntToDecimal: prints whole numbers only. JavaScript's printing of fractional or exponent-form numbers is not modelled, because quantities are integers here.
- The order id from `Math.random` (App.tsx:82) and the timestamp from `new Date().toISOString()` (App.tsx:89) are parameters. Neither their format nor their uniqueness is modelled.
- `STORE_PHONE` is defined in constants.ts, which is not part of this model. It is a parameter of the link.
- Browser effects are not modelled: `alert` (App.tsx:52, components/Checkout.tsx:25), `window.open` (App.tsx:106) and view navigation with `setView`. The link that would be opened is returned instead.
- React's deferred state updates are not modelled: each handler's effect is applied at once. `handleBuyNow` reads the cart of the current render rather than `prev`, and in the sequential model the two are the same.
- Message.MessageDecodes: assumes no field, product name or currency text contains `%`. The source escapes only line breaks, so a `%`, `&` or `#` typed by a customer would be misread by a URL decoder. The proved reader decodes only `%0A`; a form-style decoder that also reads `+` as a space would turn the `" + "` separators of every summary with two or more items into blanks. Query-string parsing beyond the `text=` parameter is not modelled.
- The product search and category filter (App.tsx:36-42) are presentation and use Unicode `toLowerCase`. Adding a product to the catalog (App.tsx:210) is simple CRUD.
- The rendering-only components are not modelled: components/Cart.tsx, components/AdminPanel.tsx, components/Navbar.tsx and components/ProductCard.tsx. The AdminPanel status buttons only call `updateOrderStatus`, which is modelled.
- geminiService.ts is a network client for an external AI API.
