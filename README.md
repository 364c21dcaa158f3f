# Alegra invoices for WooCommerce — a Dafny model of the data mapper

The plugin sends WooCommerce orders to the Alegra invoicing service. Its core is
`Alegra_Data_Mapper` (`includes/class-alegra-data-mapper.php`), which does two things:

- **`get_or_create_client`** works out the order's billing identification. It searches Alegra's
  contacts for it and returns the first hit's id. If there is no hit, it classifies the customer
  (document type, kind of person, tax regime), builds a `POST contacts` payload and returns the
  new contact's id, or throws the API's message.
- **`build_invoice_payload`** turns the order's lines, fees and shipping into an Alegra invoice.
  Non-positive fees are added up into one integer discount. That discount is spread unit by unit
  over the product lines and taken off their unit prices. Positive fees become surcharge lines
  (catalog item 130). Positive shipping becomes a shipping line (catalog item 131). The header
  fields are fixed.

The model has five modules:

- `Wrappers` (`wrappers.dfy`): `Option` and `Result`.
- `PhpText` (`php_text.dfy`): the PHP primitives the mapper relies on, with PHP's semantics:
  `empty()`, `?:`, `trim`, `stripos`, `substr`, `is_numeric`/`(int)`, integer printing, and
  `round()` of a quotient (half away from zero).
- `WooOrder` (`woo_order.dfy`): the order as the mapper reads it.
- `CustomerResolver` (`customer_resolver.dfy`): `get_or_create_client` as pure functions. The two
  API calls are inputs: the search reply and the create reply. An exception thrown by the API
  client is a `...Failed` reply.
- `InvoiceBuilder` (`invoice_builder.dfy`): specification functions for the invoice, and the
  method `BuildInvoicePayload`. The method runs the source's two `foreach` passes, with the
  decrementing remainder counter, and is proved equal to the specification `InvoicePayload`.

Money amounts are the integers the source gets from `round()`: fee totals, line totals and the
shipping total are integer inputs. Every later rounding (`round($subtotal_line / $qty)` and the
new unit price) is modelled with `RoundDiv` on the exact quotient.

Notes on the code's behaviour:

- The kind of person is LEGAL_ENTITY only through the `billing_persontype` override or a NIT
  document.
- The search takes the first returned record. It does not compare that record's identification
  with the one searched for.
- All amounts are whole units.
- The status is always `open`.
- A line with quantity 0 is guarded at line 237 but divides by zero at line 261.
- The check digit (`calcular_dv`) has no definition in the source, so the model does not define
  one either.
- A line's unit price is rounded twice, so the line can be invoiced for up to its quantity more
  or less than its net total (see "## Findings"). The invoice model keeps the code's pricing.

## Model

| member | source | states |
|---|---|---|
| `CustomerResolver.BillingIdentification` | includes/class-alegra-data-mapper.php:23-29 | the identification is the first non-empty of `_billing_cedula`, `billing_cedula`, `billing_identification` (PHP-empty, so "0" is skipped), else '222222222' + order id; never PHP-empty |
| `CustomerResolver.PlaceholderId` | includes/class-alegra-data-mapper.php:28 | the placeholder is '222222222' followed by the order id's digits, all digits, longer than nine characters |
| `CustomerResolver.PlaceholderIdsDistinct` | includes/class-alegra-data-mapper.php:28 | distinct order ids give distinct placeholder identifications |
| `CustomerResolver.OrdersWithoutIdDoNotCollide` | includes/class-alegra-data-mapper.php:23-29 | two orders with different ids and no identification meta never get the same identification |
| `CustomerResolver.LastFound` | includes/class-alegra-data-mapper.php:54-61 | the chain of `if (stripos(...)) $doc_type = ...;` reassignments (stated by `LastFoundNone` and `LastFoundWins`) |
| `CustomerResolver.LastFoundNone` | includes/class-alegra-data-mapper.php:52-61 | when no test in the chain of reassignments succeeds, the initial value stays |
| `CustomerResolver.LastFoundWins` | includes/class-alegra-data-mapper.php:54-61 | in the chain of reassignments, the last code whose test succeeds is the result |
| `CustomerResolver.DocTypeOf` | includes/class-alegra-data-mapper.php:51-61 | the document type is always one of CC, NIT, CE, TI, PP; PP iff the hint contains "pp" (any case), TI iff it contains "ti" but not "pp", and so on; CC iff it contains none of the four codes |
| `CustomerResolver.KindOfPerson` | includes/class-alegra-data-mapper.php:66-74 | an exact LEGAL_ENTITY / PERSON_ENTITY override wins; otherwise legal iff the document type is NIT |
| `CustomerResolver.Regime` | includes/class-alegra-data-mapper.php:78-86 | a non-empty `billing_regimen` other than '0' wins; otherwise COMMON_REGIME for a legal entity, SIMPLIFIED_REGIME for a person; never PHP-empty |
| `CustomerResolver.FullName` | includes/class-alegra-data-mapper.php:39-43 | the trimmed "first last", or 'Cliente WooCommerce' when that is PHP-empty; never PHP-empty |
| `CustomerResolver.DisplayName` | includes/class-alegra-data-mapper.php:90-94 | the company for a legal entity whose company is non-empty, else the full name |
| `CustomerResolver.ContactPayloadFor` | includes/class-alegra-data-mapper.php:96-116 | the payload carries the identification, email, classification and a non-empty name; `dv` is present iff the type is NIT and is the check digit of the identification; `nameObject` is present iff the kind is PERSON_ENTITY, with 'Cliente'/'Final' for empty parts |
| `CustomerResolver.FoundExisting` | includes/class-alegra-data-mapper.php:34 | the search reply is a non-empty array whose first element has an id (used by `ResolveClient`'s contract) |
| `CustomerResolver.ResolveClient` | includes/class-alegra-data-mapper.php:18-126 | the search is for the identification; a failed search propagates its message with no create call; a non-empty list whose first record has an id returns that id with no create call; otherwise exactly the payload above is posted and the result is the returned id, or an error with the exception, the reply's message, or its JSON dump — never a missing id |
| `InvoiceBuilder.PositiveFees` | includes/class-alegra-data-mapper.php:155-175 | the surcharge fees are no more than the fees, and each has a positive total |
| `InvoiceBuilder.PositiveFeesAppend` | includes/class-alegra-data-mapper.php:155-175 | the surcharge fees of `a + b` are those of `a` followed by those of `b`, so they keep the fees' order |
| `InvoiceBuilder.PositiveFeesSingle` | includes/class-alegra-data-mapper.php:160-174 | a single fee is kept exactly when its total is positive |
| `InvoiceBuilder.PositiveFeesExact` | includes/class-alegra-data-mapper.php:160-174 | a fee becomes a surcharge exactly when its rounded total is positive |
| `InvoiceBuilder.DiscountTotal` | includes/class-alegra-data-mapper.php:152-162 | the discount total is the sum of abs(total) over fees with total <= 0; it is never negative, and it is 0 when every fee is positive |
| `InvoiceBuilder.SurchargeItems` | includes/class-alegra-data-mapper.php:163-174 | one item per positive fee, in fee order, with id 130, name RECARGO, the fee total as a positive price, quantity 1, discount 0 and the first 150 characters of the fee name as description |
| `InvoiceBuilder.FeePartitionConserves` | includes/class-alegra-data-mapper.php:155-175 | splitting the fees loses nothing: their totals add up to the surcharge prices minus the discount total |
| `InvoiceBuilder.Share` | includes/class-alegra-data-mapper.php:185-251 | a line's share before clamping is D div n or one unit more, and 0 when D is 0 |
| `InvoiceBuilder.SharesUpToValue` | includes/class-alegra-data-mapper.php:185-251 | the first k pre-clamp shares sum to k·(D div n) + min(k, D mod n), and to 0 when D is 0 |
| `InvoiceBuilder.SharesSumToTotal` | includes/class-alegra-data-mapper.php:185-251 | the pre-clamp shares of the n lines sum to exactly the discount total D |
| `InvoiceBuilder.AppliedDiscount` | includes/class-alegra-data-mapper.php:254-256 | a line's applied discount is at most its share and at most the line total, and equals one of them |
| `InvoiceBuilder.AppliedUpTo` | includes/class-alegra-data-mapper.php:242-256 | the discounts applied to the first k lines, added up (its bounds are stated by `AppliedDiscountsSum`) |
| `InvoiceBuilder.AppliedDiscountsSum` | includes/class-alegra-data-mapper.php:242-256 | the applied discounts sum to at most D, and to exactly D when no share exceeds its line total |
| `InvoiceBuilder.CatalogId` | includes/class-alegra-data-mapper.php:209-220 | the variation's `_alegra_item_id` if non-empty and numeric, else the parent's if so, else 1 ("0" counts as absent) |
| `InvoiceBuilder.UnitPriceBase` | includes/class-alegra-data-mapper.php:237 | `round(total / qty)` for a positive quantity, else 0 (its accuracy is stated by `ProductAmountWithinQuantity`) |
| `InvoiceBuilder.ProductItem` | includes/class-alegra-data-mapper.php:231-277 | a product item keeps the catalog id and the line quantity, has discount 0, a name cut to 190 and a description cut to 400 characters |
| `InvoiceBuilder.ProductPriceNearest` | includes/class-alegra-data-mapper.php:258-264 | price × quantity is within half the quantity of round(total/qty)·qty minus the clamped discount |
| `InvoiceBuilder.ProductAmountWithinQuantity` | includes/class-alegra-data-mapper.php:234-264 | for a positive quantity, price × quantity is within the quantity of the net line total (line total minus applied discount) |
| `InvoiceBuilder.UnitPriceDriftExample` | includes/class-alegra-data-mapper.php:237-264 | a line of 10 over 4 units with no discount is priced 3, so it is invoiced for 12, two units more than its total |
| `InvoiceBuilder.SplitProductItems` | includes/class-alegra-data-mapper.php:268-277 | one or two lines, each with positive quantity, no discount, and the catalog id, name and description of the product item |
| `InvoiceBuilder.SplitProductItemsExact` | includes/class-alegra-data-mapper.php:234-264 | the split lines charge for exactly the line's units and exactly its net total |
| `InvoiceBuilder.NoDiscountKeepsUnitPrice` | includes/class-alegra-data-mapper.php:237-264 | with no discount, a line with positive quantity and non-negative total is priced round(total/qty) |
| `InvoiceBuilder.NegativeSingleUnitLineIsZeroed` | includes/class-alegra-data-mapper.php:253-264 | with no discount, the clamp turns a single-unit line with a negative total into a price of 0 |
| `InvoiceBuilder.ProductItems` | includes/class-alegra-data-mapper.php:201-278 | there is one product item per order line |
| `InvoiceBuilder.ShippingItems` | includes/class-alegra-data-mapper.php:285-296 | there is one shipping item (id 131, ENVIO, quantity 1, discount 0, price = shipping) iff the rounded shipping is positive, else none |
| `InvoiceBuilder.InvoicePayload` | includes/class-alegra-data-mapper.php:141-325 | the invoice the mapper returns, as a value; `InvoiceLayout` states its lines and `BuildInvoicePayload` is proved equal to it |
| `InvoiceBuilder.InvoiceLayout` | includes/class-alegra-data-mapper.php:268-296 | the invoice lists the n product items in line order, then the surcharges in fee order, then the shipping item iff shipping > 0; it has n + #positive fees + (shipping > 0 ? 1 : 0) items |
| `InvoiceBuilder.ThreeLineExample` | includes/class-alegra-data-mapper.php:141-325 | lines of 10000, 20000 and 30000 with a fee of -100 get shares 34, 33, 33 and unit prices 9966, 19967, 29967 |
| `InvoiceBuilder.BuildInvoicePayload` | includes/class-alegra-data-mapper.php:141-325 | the two passes, with the decrementing remainder counter, build exactly the specified invoice: client id, items, status 'open', the local date as date and due date, CASH/CASH, NATIONAL, STANDARD and the note 'Pedido WooCommerce #id' |
| `PhpText.Empty` | includes/class-alegra-data-mapper.php:27 | PHP's `empty()` on a string: "" and "0" (used by every contract on identification, regime and catalog id) |
| `PhpText.Elvis` | includes/class-alegra-data-mapper.php:23-25 | `a ?: b` is a when a is not PHP-empty, else b |
| `PhpText.Trim` | includes/class-alegra-data-mapper.php:41 | `trim` gives a slice of the input with only strippable characters removed at both ends, and the slice neither starts nor ends with one |
| `PhpText.FindFrom` | includes/class-alegra-data-mapper.php:54-61 | `stripos` returns the first position where the needle occurs ignoring ASCII case, and false only when it occurs nowhere |
| `PhpText.Prefix` | includes/class-alegra-data-mapper.php:158 | `substr($s, 0, $n)` is the prefix of length min(n, \|s\|) |
| `PhpText.IsNumeric` | includes/class-alegra-data-mapper.php:212-218 | `is_numeric` on integer numerals: an optional sign and at least one digit |
| `PhpText.IntValue` | includes/class-alegra-data-mapper.php:219 | `(int)` of a numeral is non-positive when it has a minus sign and non-negative otherwise |
| `PhpText.IntValueOfDecimal` | includes/class-alegra-data-mapper.php:219 | `(int)` of a printed integer n is n, and of '-' followed by it is -n; both are numeric |
| `PhpText.DecimalString` | includes/class-alegra-data-mapper.php:28 | the printed order id is a non-empty string of digits with no leading zero |
| `PhpText.DecimalStringRoundTrip` | includes/class-alegra-data-mapper.php:28 | reading back the printed order id gives the id |
| `PhpText.RoundDiv` | includes/class-alegra-data-mapper.php:237-264 | `round(p / q)` half away from zero (stated by `RoundDivNearest` and `RoundDivExact`) |
| `PhpText.RoundDivNearest` | includes/class-alegra-data-mapper.php:261-264 | `round(p/q)` is within half a unit of p/q, and exactly half a unit only away from zero |
| `PhpText.RoundDivExact` | includes/class-alegra-data-mapper.php:237 | `round(b·q/q)` is b |

## Left out

- `calcular_dv` is called at line 108 but is not defined in any source file, so the model takes
  the check digit as a function parameter and does not give its algorithm.
- HTTP transport: request building, Basic authentication, `urlencode` of the query, JSON
  encoding and decoding. The model takes the decoded replies, and the JSON dump of a create
  reply, as inputs. The search is recorded by the identification it searched for.
- `Alegra_API_Client`, the admin screens and AJAX handlers (`class-wc-alegra-admin.php`), and
  the plugin bootstrap (`wc-alegra-invoices.php`) are not part of this model.
- The local date and its time zone (lines 301-308) are an input.
- Parsing WooCommerce's decimal totals and the first `round()` of fees, lines and shipping
  (lines 157, 234, 286): the model takes those rounded integers as inputs.
- Float arithmetic: PHP computes `$subtotal_line / $qty` and the new unit price in double
  precision, and `round()` before PHP 8.4 pre-rounds to 15 significant digits. The model divides
  exactly, so its prices can differ from PHP's for very large amounts.
- `error_log` debugging (lines 223-229) and the unused `$wc_regimen` and `$product`.
- The empty `tax` array that every item carries.
- Strings are sequences of characters, while PHP's `substr` counts bytes, so a multibyte name is
  cut at a different point.
- `stripos` is modelled with ASCII case folding, as in PHP 8.2 and later.
- Meta values and contact ids are modelled as strings.
- InvoiceBuilder.CatalogId: treats as numeric only an optional sign followed by digits. PHP's
  `is_numeric` also accepts surrounding whitespace, decimals and exponents; those forms are not
  modelled.
- PhpText.IntValue: is unbounded, while PHP's `(int)` of a numeral beyond the integer range
  saturates at `PHP_INT_MAX` (or `PHP_INT_MIN`).
- InvoiceBuilder.BuildInvoicePayload: requires every line quantity to be non-zero. With
  quantity 0 the source throws `DivisionByZeroError` at line 261, and the model does not
  represent that exception.

## Findings

| source | as written | input that shows it | evidently intended | confidence | as-written member | corrected member |
|---|---|---|---|---|---|---|
| includes/class-alegra-data-mapper.php:237-264 | the unit price is `round((round(total / qty) * qty - discount) / qty)`, rounded twice, so price × qty can miss the net line total by up to qty | a line with total 10, quantity 4 and no fees: price 3, invoiced 12 | the invoice lines add up to the order's net total, within one unit | medium; not executed | `InvoiceBuilder.UnitPriceDriftExample` | `InvoiceBuilder.SplitProductItemsExact` |
