# Bon The Label storefront — verified model of the cart, catalog query and pricing

The storefront (`server.js`) is an Express application that renders a
product catalog, product pages, a cart page and a checkout page. Almost all
of it is HTML templating. This project models in Dafny the three parts that
carry logic.

- **Cart** (`cart.dfy`, module `CartModel`). This is the in-page script
  `cartScript()`. The global `cart` array becomes the class `Cart`, which
  holds a `seq<Line>` and the header badge that `updateCartCount` writes.
  `addToCart` builds the key `id + '_' + size + '_' + color`. If a line with
  that key exists, its `qty` goes up by one. Otherwise a new line with
  `qty: 1` is appended. The function `Added` specifies this on the line list.
  `Count` is the `reduce` that sums quantities.
- **Product page script** (`product_page.dfy`, module `ProductPage`). The
  class `PageState` holds the selected size, the selected colour, the
  read-only quantity input and the cart. `changeQty` clamps the selector to
  1..10. `handleATC` and `handleBuyNow` call `addToCart` `qty` times in a
  loop.
- **Catalog query** (`catalog.dfy`, module `Catalog`). `/collections` ANDs
  the optional `cat`, `min` and `max` conditions. It orders by
  `price ASC`, `price DESC` or, for any other `sort`, `created_at DESC`.
  `/product/:id` looks up one row, redirects to `/collections` when the row
  is missing, and lists up to four other products.
- **Pricing** (`pricing.dfy`, module `Pricing`). The product card's
  `hasSale` flag, the product page's discount percent, and the cart and
  checkout totals `Σ price*qty`.
- **Size and colour lists** (`sizes.dfy`, module `SizeParsing`). The comma
  path of the product page's `sizes` parsing, and its `colors` parsing.
- `store.dfy` (module `Store`) holds the `Product` row, an `Option` type,
  and `Min` and `Max` for `Math.min` and `Math.max`.

Prices are whole lira (`int`). Product ids are `nat`. `created_at` is an
integer timestamp, which orders the same way as SQLite's
`YYYY-MM-DD HH:MM:SS` text. The `cat` and `sort` parameters are strings, and
`""` stands for "absent" because the handler treats both as falsy. A price
bound is `Option<int>`, and `None` means the parameter was absent or empty.

On these points the code does less than a storefront might be expected
to, and the model follows the code:
- No line quantity is capped at 10. Only the page selector is clamped, and
  repeated adds can pass 10 (`ElevenAdds`).
- There is no quantity setter and no clear operation.
- The SQL sets no tie-break among equal prices or timestamps.
- The discount percent is shown whenever `compare_price` is set. This
  includes a compare price at or below the price, where the discount is
  zero or negative (`DiscountWithoutSale`).
- `compare_price` is tested for JavaScript truthiness, so a compare price
  of 0 counts as absent.
- The product page offers no colour choice. It renders size buttons but no
  colour swatches, so every line it adds carries the first parsed colour.
  `PageState.SelectColor` models the `selectColor` handler, which nothing on
  the page calls.

## Model

| member | source | states |
|---|---|---|
| `CartModel.NatToString` | server.js:169 | The id's text in the key is non-empty and all decimal digits |
| `CartModel.NatToStringRoundTrip` | server.js:169 | Reading the id's digits back gives the id |
| `CartModel.KeyInjective` | server.js:169 | Two equal keys come from the same id, size and colour, provided no size contains `_` |
| `CartModel.KeyCollision` | server.js:169 | Without that proviso, sizes `S_M`/`S` with colours `Black`/`M_Black` give the same key, so adding both variants to an empty cart gives one line with quantity 2 |
| `CartModel.IndexOfKey` | server.js:170 | `cart.find` returns the first line with the key; it finds nothing exactly when no line has the key |
| `CartModel.Count` | server.js:167 | The count of an empty cart is 0, and when every quantity is positive the count is at least the number of lines |
| `CartModel.AddExisting` | server.js:170-171 | Adding an item already in the cart raises that line's qty by exactly 1; its price, name and image stay as first added; the length and all other lines are unchanged |
| `CartModel.AddNew` | server.js:171 | Adding a new item appends `{key, id, name, price, size, color, image, qty: 1}` at the end and leaves the existing lines as they were |
| `CartModel.CountAfterAdd` | server.js:167-172 | Every `addToCart` raises the count by exactly 1 |
| `CartModel.AddKeepsValid` | server.js:169-171 | `addToCart` keeps the keys unique, each key consistent with its line, and every qty at least 1 |
| `CartModel.AddKeepsOrder` | server.js:171 | The key sequence is kept in first-insertion order; the new key is appended only when missing |
| `CartModel.AddTimesExisting` | server.js:838 | `n` adds of an item already in the cart raise that line's qty by exactly `n` and change nothing else |
| `CartModel.AddTimesNew` | server.js:838 | `n >= 1` adds of a new item append one line whose qty is `n` |
| `CartModel.CountAfterAddTimes` | server.js:838-839 | `n` adds raise the count by exactly `n` |
| `CartModel.AddTimesKeepsValid` | server.js:838-839 | Repeated adds keep keys unique and quantities positive |
| `CartModel.ElevenAdds` | server.js:171 | Nothing caps a line's quantity: eleven adds of one item give qty 11 |
| `CartModel.PriceFrozen` | server.js:171 | After adds at 100 and then at 150, the cart holds one line with qty 2 at price 100 |
| `CartModel.ThreeVariants` | server.js:169-172 | Three adds of one dress in sizes and colours S/Black, S/White and M/Black give three lines and a count of 3 |
| `CartModel.Cart.constructor` | server.js:166-177 | At start-up the stored lines are restored and the badge shows their count |
| `CartModel.Cart.UpdateCartCount` | server.js:167 | The badge shows the sum of the quantities |
| `CartModel.Cart.AddToCart` | server.js:168-175 | The new lines are `Added(old lines, item)`; the badge shows the new count, which is the old count plus 1; validity is kept; the result is `true` |
| `ProductPage.ClampQty` | server.js:836 | The selector value is always in 1..10; it equals `v` inside that range, 1 below it and 10 above it |
| `ProductPage.ClampIdempotent` | server.js:836 | Clamping an already clamped value changes nothing |
| `ProductPage.PageState.constructor` | server.js:833 | The page opens on the first size, the first entry of the parsed colour list (never empty, by `ParseColors`) and quantity 1 |
| `ProductPage.FirstColor` | server.js:833 | The colour the page opens on is the first piece of the colours text with its outer white space removed, and `Black` for a product without stored colours |
| `ProductPage.PageState.SelectSize` | server.js:834 | The chosen size becomes the selected size |
| `ProductPage.PageState.SelectColor` | server.js:835 | The chosen colour becomes the selected colour; no page element calls this handler |
| `ProductPage.PageState.ChangeQty` | server.js:836 | The selector becomes `ClampQty(old + d)`, so it stays in 1..10 |
| `ProductPage.PageState.AddSelected` | server.js:838-839 | The loop adds the selection `qty` times: the lines become `AddedTimes(old, item, qty)`, the count rises by `qty`, and validity is kept |
| `ProductPage.PageState.HandleATC` | server.js:838 | "Add to cart" adds the selection `qty` times and the badge shows the count raised by `qty` |
| `ProductPage.PageState.HandleBuyNow` | server.js:839 | "Buy now" does the same adds and then navigates to `/checkout` |
| `Catalog.OrderFor` | server.js:45-47 | `price_asc` and `price_desc` select their orders; every other value selects newest first |
| `Catalog.Matches` | server.js:41-44 | A query without parameters keeps every product (`WHERE 1=1`); a `min` above the `max` keeps none |
| `Catalog.Filter` | server.js:41-44 | Each product is kept exactly as often as stored when it meets every given condition, and dropped otherwise |
| `Catalog.SortBy` | server.js:45-47 | The output is ordered by the chosen column and is a permutation of the input |
| `Catalog.Collections` | server.js:38-48 | The listing holds exactly the matching products (category equal when `cat` is given, price `>= min` and `<= max` when given), each as often as stored, ordered as `sort` asks; an empty listing is allowed |
| `Catalog.ListingAgreesUpToTies` | server.js:45-48 | Every result the SQL engine may return has the same length as the model's and the same ordering value at each position; only the order among equal keys is free |
| `Catalog.SortedKeysDetermined` | server.js:45-47 | Two orderings of the same products by one column have the same key sequence |
| `Catalog.PriceWindow` | server.js:43-44 | With `min=100` and `max=150`, a catalog priced 75, 89, 110, 135 and 189 lists exactly the 110 and 135 items, newest first |
| `Catalog.FindById` | server.js:52 | The lookup returns a stored product with that id, or nothing exactly when no product has it |
| `Catalog.Except` | server.js:54 | Every row with another id, each exactly as often as stored, and no row with the given id |
| `Catalog.Related` | server.js:54 | Exactly `min(4, number of others)` rows, drawn without repetition from the rows with another id (a sub-multiset of `Except`) |
| `Catalog.ProductRoute` | server.js:51-55 | A missing id redirects to `/collections`; otherwise the page shows the product with that id and its related products |
| `Pricing.HasSale` | server.js:569 | A product with the SALE badge always has a discount to show on its page |
| `Pricing.SaleIffAbovePrice` | server.js:569 | For non-negative prices, the SALE badge and compare price show exactly when a compare price is present and above the price |
| `Pricing.RoundHalfAway` | server.js:663 | The result is `n/d` rounded to the nearest integer, with halves rounded away from zero as `toFixed(0)` does |
| `Pricing.Savings` | server.js:663 | A discount is present exactly when `compare_price` is set (non-null, non-zero), and then it is `(cp - p) / cp * 100` rounded |
| `Pricing.SaleDiscountInRange` | server.js:569-573 | When a product is on sale and its price is non-negative, the discount is present and lies in 0..100 |
| `Pricing.SeedDressDiscount` | server.js:663 | Price 89 with compare price 120 is on sale and shows 26% |
| `Pricing.DiscountWithoutSale` | server.js:663 | Price 100 with compare price 80 shows no SALE badge but still shows a discount of -25% |
| `Pricing.CartTotal` | server.js:857 | The `reduce` that gives the cart page's total (and the checkout's at line 994) is 0 for an empty cart and never negative when prices and quantities are not |
| `Pricing.TotalAfterAddTimes` | server.js:994 | `n` adds raise the total by `n` times the unit price charged: the frozen price of an existing line, or the price passed for a new one |
| `Pricing.CheckoutSummary` | server.js:986-997 | An empty cart keeps the placeholder; otherwise shipping is 0, the total equals the subtotal plus shipping, and the subtotal is `Σ price*qty` |
| `SizeParsing.TrimStart` | server.js:661 | Removes exactly the leading white space |
| `SizeParsing.TrimEnd` | server.js:661 | Removes exactly the trailing white space |
| `SizeParsing.TrimSlice` | server.js:661-662 | `trim()` gives the slice of the text left after removing the white space at both ends; the slice starts and ends with a non-space character |
| `SizeParsing.TrimIdempotent` | server.js:662 | Trimming twice gives the same result as trimming once |
| `SizeParsing.StripQuotes` | server.js:661 | No quote or bracket remains |
| `SizeParsing.StripKeeps` | server.js:661 | Every character other than a quote or bracket is kept as often as before |
| `SizeParsing.StripAppend` | server.js:661 | Stripping works character by character in order: stripping a concatenation concatenates the stripped parts |
| `SizeParsing.Split` | server.js:661 | There is at least one piece, and no piece contains the separator |
| `SizeParsing.JoinSplit` | server.js:661 | Joining the pieces with the separator gives back the text |
| `SizeParsing.SplitJoin` | server.js:661 | Splitting a join of separator-free pieces gives back the pieces |
| `SizeParsing.SplitPlain` | server.js:661 | A text without the separator splits into itself alone |
| `SizeParsing.SplitCount` | server.js:661 | There is one more piece than the text has separators |
| `SizeParsing.JsonShape` | server.js:659 | The text is read as a JSON array exactly when its first character after the leading white space is `[` |
| `SizeParsing.SizesText` | server.js:658 | The sizes text is never empty: it is the stored text whenever that is non-empty, and `XS,S,M,L,XL` when the column is null or empty |
| `SizeParsing.ColorsText` | server.js:662 | The colours text is never empty: it is the stored text whenever that is non-empty, and `Black` when the column is null or empty |
| `SizeParsing.NoCommaLabel` | server.js:661 | A piece without a comma gives a size label without a comma |
| `SizeParsing.ParseSizes` | server.js:658-661 | JSON-shaped text is left to the JSON branch; otherwise size `i` is piece `i` of the text split at commas, trimmed and stripped of quotes and brackets, so there is one size per piece and none holds a comma, quote or bracket |
| `SizeParsing.DefaultSizesSplit` | server.js:658 | The default text splits into XS, S, M, L and XL |
| `SizeParsing.CleanPlain` | server.js:661 | A piece with no outer white space and no quote or bracket is its own size label |
| `SizeParsing.ParsePlainSizes` | server.js:658-661 | Text that is not JSON-shaped and splits into pieces with no outer white space, quote or bracket parses to exactly those pieces |
| `SizeParsing.ParseColors` | server.js:662 | Colour `i` is piece `i` of the colours text split at commas with its outer white space removed; there is at least one colour, and none holds a comma or outer white space |
| `SizeParsing.DefaultColors` | server.js:662 | For a product without stored colours the colour list is `[Black]` |

## Left out

- HTTP routing, `app.listen`, static files and redirects other than the missing-product one: plumbing around the modelled query semantics.
- SQL text building and the better-sqlite3 calls. The table is an input `seq<Product>` in store order.
- The schema, the seed rows, and the admin insert and delete: they belong to the database.
- Upload handling with multer: file I/O.
- `localStorage` persistence and the JSON (de)serialisation of the cart. The `Cart` constructor takes the restored lines as a parameter, and `setItem` is not modelled.
- The Meta Pixel `fbq` calls, including the purchase total sent at checkout: third-party tracking.
- All HTML and CSS rendering, policy text, language switching, button feedback and DOM updates other than the cart badge.
- The random stock and review numbers: cosmetic and nondeterministic.
- Floating-point prices and `toFixed` strings. Prices are whole lira and rounding is done exactly on integers. The `$` and `₺` symbols are display only.
- `Pricing.Savings`: rounds the exact quotient, while the page rounds the floating-point value of `(cp - p) / cp * 100`. Near a half the two can differ.
- The JSON-array branch of size parsing, a foreign `JSON.parse` with a fallback. `ParseSizes` returns `None` for it.
- `Catalog.Collections`: the SQL leaves the order of equal keys open. The model keeps store order among ties, and `ListingAgreesUpToTies` shows that every result the engine may return agrees with it on the ordering column.
- `Catalog.Related`: the SQL has no ORDER BY, so which four rows come back is the engine's choice. The model takes the first four other rows in store order.
- A `min` or `max` that `parseFloat` turns into NaN: the model takes bounds as already-parsed integers.
- `CartModel.Cart.AddToCart`: takes the image as a string. It does not model `image || ''` for an undefined or null image, because both callers always pass a string.
- `ProductPage.PageState.constructor`: the first size, the first colour and the product name reach the page script as single-quoted literals without escaping (server.js:833, 757-758). The model, and with it `FirstColor`, `HandleATC` and `HandleBuyNow`, assumes text without `'`, `\` or line breaks. A quote stops the script or the button's handler from parsing, so nothing is added. A backslash starts an escape, so `Navy\Blue` opens as `NavyBlue`.
- `ProductPage.PageState.HandleATC`: the quantity comes from the read-only input, which only `changeQty` writes. The model requires the page invariant 1 ≤ qty ≤ 10 instead of modelling `parseInt` of other text.
