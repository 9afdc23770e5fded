# TakeARizStore storefront logic, modelled in Dafny

TakeARizStore is a Next.js shop. Customers fill a cart, sign up and place
orders. Admins manage products, orders and invoices. This project models the
parts of it that decide something, and proves what they promise:

- **The cart store** (`Cart.CartStore`). It holds an ordered list of items
  and supports add, update quantity, remove and clear. Items merge by id. The
  total is recomputed from the list. Prices and quantities that are not
  numbers are replaced on the way in. The cart-line buttons
  (`CartItemView`) and the quick-view dialog's quantity stepper
  (`QuickView.ProductQuickView`) drive this store.
- **The API routes** for orders, invoices, products and registration. Each
  one is a pure decision function and a method against a `Store.Database`
  snapshot of the four tables. The decision function runs the guards in the
  handler's order: authorisation, then the schema, then the existence and
  duplicate checks. It returns the status and, on 201, the row to insert.
  The method performs the insert. It keeps every table's primary key unique,
  one invoice per order and one user per email.
- **The middleware**'s decision for each request: pass, redirect to login,
  or redirect home.
- **The admin shell**: the role guard, the active navigation entry and the
  breadcrumbs built from the pathname.
- **The admin list pages**: their searches and status filter, product
  deletion, the discount badge, the remaining amount of an invoice and its
  links.
- **The environment settings** and their validation.

JavaScript numbers in the cart that may be `NaN` or not numbers at all are
`Cart.Num`, whose numeric values are whole numbers (see "## Left out").
Money amounts in the routes are `int` (Rupiah). Product prices, discounts and
unit prices in the routes are `real`. Times are integer milliseconds. The
store's ids and clock readings, the password hash, and the email and URL
validators are parameters. String lengths in the request schemas are counted
in UTF-16 code units, as JavaScript counts them (`Strings.Utf16Length`).
Tables are sequences. `orderBy: { createdAt: "desc" }` is modelled by
`Seqs.SortDesc`, which promises newest first and the same rows, and nothing
about the order of rows with equal times.

The comment at app/api/orders/route.ts:95 says the route verifies products
and calculates the correct total, but the code never does the calculation
(`calculatedTotal` stays 0). The model follows the code:

- the orders route stores `paidAmount` and `totalAmount` as sent
  (`OrdersRoute.CreatedOrderContents`, `OrdersRoute.OverpaymentAccepted`);
- `addToCart` merges lines by `id` alone, whatever their colour, size or
  material (`Cart.OptionsDoNotSplitLines`).

## Model

| member | source | states |
|---|---|---|
| Cart.Sanitized | context/cart-context.tsx:25-29 | A price that is not a number becomes 0 and a quantity that is not a number becomes 1; every other field is kept |
| Cart.Find | context/cart-context.tsx:32 | Finds an item exactly when one with that id is present; what it finds has that id and is in the cart |
| Cart.AddExisting | context/cart-context.tsx:31-45 | Adding an id already present keeps length and order; that item's quantity grows by the added quantity (non-number as 0 and 1) and every other item is untouched |
| Cart.AddAbsent | context/cart-context.tsx:47 | Adding an absent id appends the sanitised product at the end and leaves the rest as it was |
| Cart.OptionsDoNotSplitLines | context/cart-context.tsx:32-44 | The same product added in two colours gives one line holding both quantities, with the first colour |
| Cart.AddPreservesInvariant | context/cart-context.tsx:23-49 | Adding keeps every item numeric and the ids distinct |
| Cart.UpdateSpec | context/cart-context.tsx:51-56 | Keeps length, order and every field but the quantity of items with the id; that quantity becomes the given number, or 1 when it is not a number |
| Cart.UpdateAcceptsNonPositive | context/cart-context.tsx:53-55 | Zero and negative quantities are stored as given |
| Cart.UpdatePreservesInvariant | context/cart-context.tsx:51-56 | Updating keeps every item numeric and the ids distinct |
| Cart.RemoveSpec | context/cart-context.tsx:58-60 | Removal drops exactly the items with the id and keeps all others, each as often as before, in order |
| Cart.RemoveAbsent | context/cart-context.tsx:58-60 | Removing an absent id changes nothing |
| Cart.RemovePreservesInvariant | context/cart-context.tsx:58-60 | Removing keeps every item numeric and the ids distinct |
| Cart.TotalIsSum | context/cart-context.tsx:67-76 | For numeric items the left fold equals the plain sum of price times quantity; the empty cart totals 0 |
| Cart.TotalAppend | context/cart-context.tsx:67-76 | The total of two carts joined is the sum of their totals |
| Cart.TotalAfterAdd | context/cart-context.tsx:23-76 | Adding raises the total by the line price times the added quantity, or by the new line's price times quantity |
| Cart.TotalAfterRemove | context/cart-context.tsx:58-76 | With distinct ids, removing lowers the total by the removed line's total; an absent id leaves it unchanged |
| Cart.CartStore.constructor | context/cart-context.tsx:20-21 | The store starts with an empty cart and no customer details |
| Cart.CartStore.AddToCart | context/cart-context.tsx:23-49 | The cart becomes the added cart, the store invariant is kept, customer details are untouched |
| Cart.CartStore.UpdateQuantity | context/cart-context.tsx:51-56 | The cart becomes the updated cart, the invariant is kept, customer details are untouched |
| Cart.CartStore.RemoveFromCart | context/cart-context.tsx:58-60 | The cart becomes the filtered cart, the invariant is kept, customer details are untouched |
| Cart.CartStore.ClearCart | context/cart-context.tsx:62-65 | The cart is empty, the customer details are gone, and the total is 0 |
| Cart.CartStore.SetCustomerInfo | context/cart-context.tsx:21 | Stores the customer details and leaves the cart alone |
| CartItemView.Subtotal | components/cart-item.tsx:16-21 | Shown price times shown quantity: 0 for a non-number price, the price for a non-number quantity, and the line's share of the total for a numeric line |
| CartItemView.SubtotalsAddUpToTotal | components/cart-item.tsx:16-21 | For a numeric cart the subtotals shown add up to the cart total |
| CartItemView.IncreaseRequest | components/cart-item.tsx:23-25 | Asks for one more than the shown quantity |
| CartItemView.DecreaseRequest | components/cart-item.tsx:27-31 | Asks for one less exactly when the minus button is enabled (shown quantity above 1), and never for less than 1 |
| CartItemView.DecreaseKeepsAtLeastOne | components/cart-item.tsx:27-31 | Whatever the minus button stores for its line is at least 1 |
| CartItemView.HandleIncrease | components/cart-item.tsx:23-25 | The store's cart becomes the cart updated to the shown quantity plus one for this id |
| CartItemView.HandleDecrease | components/cart-item.tsx:27-31 | Above 1 the quantity for this id becomes the shown one minus one; otherwise the cart is unchanged |
| CartItemView.HandleRemove | components/cart-item.tsx:33-35 | Exactly this id is removed and none is left |
| QuickView.WithQuantity | components/product-quick-view.tsx:24 | The product as a cart item: its id and price, the chosen quantity, and no colour, size or material |
| QuickView.ShownPrice | components/product-quick-view.tsx:21 | The price, or 0 when it is not a number |
| QuickView.ProductQuickView.constructor | components/product-quick-view.tsx:16-17 | The stepper starts at 1 and the dialog is open |
| QuickView.ProductQuickView.IncreaseQuantity | components/product-quick-view.tsx:28-30 | Exactly one more |
| QuickView.ProductQuickView.DecreaseQuantity | components/product-quick-view.tsx:32-34 | One less while above 1, otherwise 1; the stepper never drops below 1 |
| QuickView.ProductQuickView.HandleAddToCart | components/product-quick-view.tsx:23-26 | Adds the product with the current quantity to the store and leaves the customer details alone, keeps the stepper value, then asks to close |
| QuickView.AddedFromDialog | components/product-quick-view.tsx:23-26 | The dialog raises the cart total by the line price (or shown price) times the chosen quantity |
| OrdersRoute.FindProduct | app/api/orders/route.ts:119 | Finds a row exactly when one has the id; the row found has it |
| OrdersRoute.FoundCountIff | app/api/orders/route.ts:97-109 | With unique catalogue ids, the found count equals the id count exactly when no id repeats and every id exists |
| OrdersRoute.PriceItemsSpec | app/api/orders/route.ts:118-130 | When every product is found, the items are priced in order, keeping product, quantity and options, each at its product's unit price |
| OrdersRoute.CreateOrderStatus | app/api/orders/route.ts:77-147 | POST answers 401 exactly without a token, 400 exactly for a failing body or a missing or repeated product, 500 only when the new id is taken, and 201 otherwise |
| OrdersRoute.CreatedOrderContents | app/api/orders/route.ts:112-130 | A created order belongs to the caller, stores paid and total amounts as sent, and keeps the items in order with their catalogue unit prices |
| OrdersRoute.UnitPriceBounds | app/api/orders/route.ts:120 | For a discount in [0, 100] the unit price lies between 0 and the price, and equals the price exactly when there is no discount or a zero one |
| OrdersRoute.OverpaymentAccepted | app/api/orders/route.ts:112-116 | An order paying more than its total is created |
| OrdersRoute.RepeatedProductRejected | app/api/orders/route.ts:97-109 | Two lines for one existing product are rejected with 400 |
| OrdersRoute.ListOrdersSpec | app/api/orders/route.ts:22-74 | GET answers 401 exactly without a token; otherwise it returns, newest first, every order for an admin and only the caller's own for anyone else |
| OrdersRoute.PostOrder | app/api/orders/route.ts:77-147 | The reply is the decision; on 201 exactly that order is appended and nothing else changes; keys stay unique |
| InvoicesRoute.InvoiceNumberFormat | app/api/invoices/route.ts:95 | "INV-" and at most eight digits denoting the clock modulo 10^8, exactly eight once the clock reaches 10^7 |
| InvoicesRoute.SameNumberSameLastDigits | app/api/invoices/route.ts:95 | Equal invoice numbers mean clocks equal modulo 10^8 |
| InvoicesRoute.CreateInvoiceSpec | app/api/invoices/route.ts:8-129 | 401, 400, 404 and 409 answer exactly their guards, in order; 500 exactly when the store refuses the `Date` or the id; every other request is created. A created invoice is for an existing order without one and stores the due date as `new Date` reads it, which falls after the schema's clock reading when `dayjs` reads the string the same way. It is numbered from the clock reading taken for the number and carries the store's creation time |
| InvoicesRoute.DueDateStoredInPast | app/api/invoices/route.ts:102 | On a server five hours west of UTC, a date-only due date passes the schema's future check and is stored an hour before the schema's clock reading |
| InvoicesRoute.IntendedDueDateInFuture | app/api/invoices/route.ts:8-13 | Storing the instant the schema checked, every created invoice falls due after the schema's clock reading, and every request the code accepts is still accepted |
| InvoicesRoute.ListInvoicesSpec | app/api/invoices/route.ts:16-54 | GET answers 401 exactly to non-admins; otherwise all invoices, newest first |
| InvoicesRoute.PostInvoice | app/api/invoices/route.ts:57-129 | The reply is the decision; on 201 exactly that invoice is appended and nothing else changes; at most one invoice per order |
| InvoicesRoute.InvoiceTwice | app/api/invoices/route.ts:86-92 | After a successful POST, a second POST for the same order is answered 409 |
| ProductsRoute.CreateProductSpec | app/api/products/route.ts:7-62 | 401 exactly to non-admins, 400 exactly to bodies failing the schema, whose length minimums count UTF-16 code units, 500 exactly when the store refuses the id; every other request is created. A created product stores every field as sent and is well formed |
| Strings.Utf16LengthBounds | app/api/products/route.ts:8-9 | A string's length in UTF-16 code units lies between its character count and twice that, and equals the count exactly when no character lies beyond U+FFFF |
| ProductsRoute.ListProductsSpec | app/api/products/route.ts:20-33 | GET needs no token and returns every product, newest first |
| ProductsRoute.PostProduct | app/api/products/route.ts:36-62 | The reply is the decision; on 201 exactly that product is appended and nothing else changes |
| RegisterRoute.Strip | app/api/auth/register/route.ts:47-49 | The reply's user carries every stored field except the password hash |
| RegisterRoute.Reply | app/api/auth/register/route.ts:47-49 | The reply keeps the status and strips the hash from any user |
| RegisterRoute.RegisterSpec | app/api/auth/register/route.ts:6-54 | 400 exactly for a body failing the schema, whose length minimums count UTF-16 code units; 409 exactly for a taken email; 500 exactly when the store refuses the id; every other request is registered. A new user has the hash of the password and role "USER", so is never an admin |
| RegisterRoute.PostRegister | app/api/auth/register/route.ts:12-54 | The reply is the stripped decision; on 201 exactly that user is appended; emails stay unique |
| Middleware.SomePublicIff | middleware.ts:17-19 | `some` over the public list holds exactly for a listed path or one under `/api/auth/` or `/products/` |
| Middleware.PublicPathsSpec | middleware.ts:9-19 | The public paths are the five listed ones and whatever lies under `/api/auth/` or `/products/` |
| Middleware.DecideSpec | middleware.ts:5-36 | Public pages and assets pass first; no token means the login redirect with the encoded URL; `/admin` paths pass exactly for admins and send others home; the rest pass |
| Middleware.AdminPagesGuarded | middleware.ts:31-33 | No `/admin` path passes for a non-admin |
| Middleware.AdminPrefixIsTextual | middleware.ts:31-33 | `/administrator` is treated as an admin page |
| Middleware.Handle | middleware.ts:38-40 | Paths the matcher skips pass; matched paths get the middleware's decision |
| Middleware.UnmatchedPaths | middleware.ts:38-40 | The matcher skips exactly the paths starting with `/api/auth`, `/_next/static`, `/_next/image`, or `/favicon`, any character and `ico` (and any path not starting with a slash); those pass whatever the token |
| Middleware.ApiWithoutTokenRedirected | middleware.ts:21-28 | Every API path not under `/api/auth`, so `/api/orders` and `/api/invoices` too, is redirected to login when there is no token |
| Env.Read | lib/env.ts:1-6 | An unset or empty variable gives the default, any other its value |
| Env.MissingKeysCases | lib/env.ts:10-12 | The missing keys are the database URL if empty, then the secret if empty |
| Env.ValidateEnvSpec | lib/env.ts:9-19 | Passes exactly when both required variables are non-empty; otherwise the message names exactly the missing ones, in order |
| Env.SiteUrlNeverEmpty | lib/env.ts:4 | The site URL is never empty and defaults to the local address |
| AdminLayout.Render | app/admin/layout.tsx:14-16 | Only "Unauthorized" is shown exactly when the session is not an admin's |
| AdminLayout.Navigation | app/admin/layout.tsx:18-53 | The four entries in order, each active by the path test |
| AdminLayout.ActiveIsPathPrefix | app/admin/layout.tsx:53 | An entry is active only for pathnames it is a prefix of; it is active for its own page and every path under it, and never for a pathname that extends it by anything not starting with "/" |
| AdminLayout.ProductsSiblingNotActive | app/admin/layout.tsx:107 | `/admin/products-x` does not highlight Products |
| AdminLayout.AtMostOneActive | app/admin/layout.tsx:52-53 | No pathname highlights two entries |
| AdminLayout.SegmentsSpec | app/admin/layout.tsx:139-141 | The segments are the slash-separated pieces in order, each kept, as often as it occurs, exactly when neither empty nor "admin" |
| Strings.SplitJoin | app/admin/layout.tsx:139-141 | Slash-free pieces joined with "/" split back into exactly those pieces; with the join-after-split half in `SegmentsSpec`, split and join are inverse |
| AdminLayout.CrumbsSpec | app/admin/layout.tsx:142-154 | Each crumb's link extends the previous by "/" and its segment; all but the last are links |
| AdminLayout.AdminRootHasNoCrumbs | app/admin/layout.tsx:139-157 | `/admin` and `/admin/` have no crumbs after "Admin" |
| AdminLayout.OrderPageCrumbs | app/admin/layout.tsx:139-157 | An order page shows "orders" linking to the list, then the order id as plain text |
| AdminOrders.FilterOrdersSpec | app/admin/orders/page.tsx:95-104 | The list keeps fetched order and holds an order exactly when the term is in its name, email or id, ignoring case, and the status filter is empty or equal |
| AdminOrders.EmptyFiltersKeepAll | app/admin/orders/page.tsx:95-104 | Empty search and empty filter show every order |
| AdminOrders.SearchIgnoresCase | app/admin/orders/page.tsx:97-100 | A term and its lowercase form show the same orders |
| AdminOrders.AllChoiceHidesEverything | app/admin/orders/page.tsx:101 | Choosing "All Statuses" hides every order |
| AdminOrders.FilterOrdersIntendedSpec | app/admin/orders/page.tsx:131-143 | With "ALL" read as no filter, choosing it shows what the empty filter shows |
| AdminOrders.StatusColorSpec | app/admin/orders/page.tsx:78-93 | Each of the five statuses has its own non-grey colour; anything else is grey |
| AdminOrders.GenerateInvoiceLink | app/admin/orders/page.tsx:190-196 | Offered exactly for an order without an invoice, linking to the new-invoice page for it |
| AdminProducts.FilterProductsSpec | app/admin/products/page.tsx:62-66 | The list keeps fetched order and holds a product exactly when the term is in its name or description, ignoring case; an empty term shows all |
| AdminProducts.AdminProductsPage.constructor | app/admin/products/page.tsx:17-42 | The page starts with the fetched products and an empty search |
| AdminProducts.AdminProductsPage.SetSearchTerm | app/admin/products/page.tsx:62-66 | Sets the search and keeps the list |
| AdminProducts.AdminProductsPage.HandleDelete | app/admin/products/page.tsx:44-60 | Only a confirmed and successful delete changes the list, dropping exactly the rows with that id and keeping the rest in order |
| AdminProducts.ZeroDiscountRendersZero | app/admin/products/page.tsx:112-116 | A 0% discount renders a bare "0" |
| AdminProducts.DiscountSlotIntendedSpec | app/admin/products/page.tsx:112-116 | The corrected slot never shows bare text; it shows a badge exactly for a non-zero discount, that is exactly when a well-formed product sells below its price |
| AdminInvoices.FilterInvoicesSpec | app/admin/invoices/page.tsx:61-66 | The list keeps fetched order and holds an invoice exactly when the term is in its number, customer name or email, ignoring case; an empty term shows all |
| AdminInvoices.Remaining | app/admin/invoices/page.tsx:112 | Remaining plus paid is the total; it is negative exactly for an overpaid order |
| AdminInvoices.InvoiceLinks | app/admin/invoices/page.tsx:123-139 | Three links under `/admin/invoices/` and the id: the page, then `/print`, then `/download` |

## Left out

- Rendering, styling, icons, animations, router navigation and loading
  states. They decide nothing.
- Fetching, Prisma queries, sessions and `getToken`. The store is the
  `Store.Database` snapshot and the session is a `Store.Token` parameter.
- A failing JSON parse of the request body, and every database error other
  than an id collision or an invalid invoice `Date`, all of which end in the
  handlers' 500. The model has no such failure.
- `bcrypt` hashing, zod's `email()` and `url()` checks, `encodeURI`, the id
  generator and the clock. They are parameters, so the model holds for any
  such function. Every clock reading is its own parameter: the invoices
  route reads the clock three times.
- Date parsing and time zones. The invoice body carries the due date as two
  instants: the one `dayjs` reads (app/api/invoices/route.ts:11) and the one
  `new Date` reads (route.ts:102). The model does not compute either from
  the string, so it holds for any pair.
- Cart.Num: its numeric values are whole numbers, so a cart line whose
  price has a fraction is outside the cart model. The product page adds the
  discounted price `price * (1 - discount / 100)`, which may have one
  (app/products/[id]/page.tsx:71-75). The routes' prices are `real`.
  Real-valued cart arithmetic made the cart total proofs too costly for the
  verifier.
- InvoicesRoute.CreateInvoiceSpec: does not promise that the stored due
  date falls after any clock reading unless `dayjs` and `new Date` read the
  string as the same instant. The schema checks one reading and the row
  stores the other (see "## Findings"). Even then it promises nothing
  against the row's `createdAt`, which the store stamps after the schema's
  check.
- Strings.Lower: lowercases ASCII letters only, not the full Unicode
  mapping of `toLowerCase`.
- OrdersRoute.UnitPrice: exact rational arithmetic, not the floating-point
  rounding of `price * (1 - discount / 100)`.
- CartItemView.Subtotal: the `isNaN(subtotal)` guard is not modelled; with a
  non-number replaced before multiplying, the product of two numbers is
  never `NaN` here because infinities are not modelled.
- AdminProducts.AdminProductsPage.HandleDelete: filters the list the page
  holds when the reply arrives, not the copy captured when the handler was
  created. Only one deletion at a time is modelled.
- The error toasts, the confirmation dialog's text and the DELETE request
  itself. The dialog's answer and the reply's `ok` flag are parameters.
- Duplicate React keys when a pathname repeats a segment, which only causes
  a warning in the browser.
- The product, order and invoice detail, checkout, dashboard and print
  pages, and the seeding and external-service scripts. They show data
  without deciding anything.

## Findings

| source | as written | input that shows it | evidently intended | confidence | as-written member | corrected member |
|---|---|---|---|---|---|---|
| app/admin/orders/page.tsx:101 | The "All Statuses" choice sets the filter to "ALL", and a non-empty filter keeps only equal statuses | any list of orders whose statuses are real statuses, with "All Statuses" chosen | "ALL" means no status filter | not executed | AdminOrders.AllChoiceHidesEverything | AdminOrders.FilterOrdersIntendedSpec |
| app/api/invoices/route.ts:102 | The schema checks `dayjs(dueDate)`, which reads "YYYY-MM-DD" as local midnight, and the row stores `new Date(dueDate)`, which reads it as UTC midnight; the new-invoice page sends exactly that form (app/admin/invoices/new/page.tsx:203) | due date "2025-06-30" sent at 01:00 UTC on 30 June 2025 to a server at UTC-5 | the stored due date is the future date the schema accepted | not executed | InvoicesRoute.DueDateStoredInPast | InvoicesRoute.IntendedDueDateInFuture |
| app/admin/products/page.tsx:112 | `{product.discount && ...}` renders the number itself when the discount is 0 | a product with discount 0 | nothing is shown for a zero discount | not executed | AdminProducts.ZeroDiscountRendersZero | AdminProducts.DiscountSlotIntendedSpec |
