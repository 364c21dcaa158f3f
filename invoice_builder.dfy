/** `Alegra_Data_Mapper::build_invoice_payload`: the invoice document for an
    order. Fees of total <= 0 are summed into one discount that is spread
    over the product lines, unit by unit, and subtracted from their unit
    prices; fees of total > 0 become surcharge lines; a positive shipping
    total becomes a shipping line. The local date is an input. */
module InvoiceBuilder {
  import opened Wrappers
  import opened PhpText
  import opened WooOrder

  /** `$alegra_product_id`: the catalog item of a line with no usable mapping. */
  const DefaultItemId := 1
  /** Catalog item of every surcharge line. */
  const SurchargeItemId := 130
  /** Catalog item of the shipping line. */
  const ShippingItemId := 131

  /** One entry of the invoice's `items`; `description` is None for the
      shipping line, which has no such key. */
  datatype Item = Item(
    id: int,
    name: string,
    price: int,
    quantity: int,
    discount: int,
    description: Option<string>)

  /** The invoice document sent to Alegra. */
  datatype Invoice = Invoice(
    clientId: string,
    items: seq<Item>,
    status: string,
    date: string,
    dueDate: string,
    paymentMethod: string,
    paymentForm: string,
    kind: string,
    operationType: string,
    notes: string)

  // ---------------------------------------------------------------- fees

  /** The fees whose total is positive, in order. */
  function PositiveFees(fees: seq<Fee>): (r: seq<Fee>)
    ensures |r| <= |fees|
    ensures forall k :: 0 <= k < |r| ==> r[k].total > 0
  {
    if fees == [] then []
    else
      var init, last := fees[..|fees| - 1], fees[|fees| - 1];
      assert fees == init + [last];
      PositiveFees(init) + (if last.total > 0 then [last] else [])
  }

  /** A fee is kept exactly when it is one of the fees and its total is positive. */
  lemma {:induction false} PositiveFeesExact(fees: seq<Fee>)
    ensures forall f :: f in PositiveFees(fees) <==> f in fees && f.total > 0
  {
    if fees != [] {
      var init, last := fees[..|fees| - 1], fees[|fees| - 1];
      PositiveFeesExact(init);
      assert fees == init + [last];
    }
  }

  /** Filtering the fees commutes with concatenation: the positive fees of
      `a + b` are those of `a` followed by those of `b`, so the kept fees stay
      in their original order. */
  lemma {:induction false} PositiveFeesAppend(a: seq<Fee>, b: seq<Fee>)
    ensures PositiveFees(a + b) == PositiveFees(a) + PositiveFees(b)
    decreases |b|
  {
    if b == [] {
      assert a + b == a;
    } else {
      var ab := a + b;
      assert ab[..|ab| - 1] == a + b[..|b| - 1];
      assert ab[|ab| - 1] == b[|b| - 1];
      PositiveFeesAppend(a, b[..|b| - 1]);
    }
  }

  /** A single fee is kept exactly when its total is positive. */
  lemma PositiveFeesSingle(f: Fee)
    ensures PositiveFees([f]) == if f.total > 0 then [f] else []
  {
    assert [f][..0] == [];
  }

  /** The sum of `abs(total)` over the fees whose total is <= 0. */
  function DiscountTotal(fees: seq<Fee>): (d: int)
    ensures d >= 0
    ensures (forall k :: 0 <= k < |fees| ==> fees[k].total > 0) ==> d == 0
  {
    if fees == [] then 0
    else
      var last := fees[|fees| - 1];
      DiscountTotal(fees[..|fees| - 1]) + (if last.total <= 0 then Abs(last.total) else 0)
  }

  /** The surcharge line of a positive fee. */
  function SurchargeItem(fee: Fee): Item
  {
    Item(SurchargeItemId, "RECARGO", fee.total, 1, 0, Some(Prefix(fee.name, 150)))
  }

  /** The surcharge lines: one per positive fee, in fee order, each with id
      130, name RECARGO, quantity 1, no discount, the fee's total as price
      and the first 150 characters of the fee's name as description. */
  function SurchargeItems(fees: seq<Fee>): (items: seq<Item>)
    ensures |items| == |PositiveFees(fees)|
    ensures forall k :: 0 <= k < |items| ==>
              items[k] == SurchargeItem(PositiveFees(fees)[k]) && items[k].price > 0
  {
    if fees == [] then []
    else
      var last := fees[|fees| - 1];
      SurchargeItems(fees[..|fees| - 1]) + (if last.total > 0 then [SurchargeItem(last)] else [])
  }

  /** One more fee extends the discount total or the surcharge lines. */
  lemma FeeStep(fees: seq<Fee>, i: nat)
    requires i < |fees|
    ensures DiscountTotal(fees[..i + 1]) ==
              DiscountTotal(fees[..i]) + (if fees[i].total <= 0 then Abs(fees[i].total) else 0)
    ensures SurchargeItems(fees[..i + 1]) ==
              SurchargeItems(fees[..i]) + (if fees[i].total > 0 then [SurchargeItem(fees[i])] else [])
  {
    assert fees[..i + 1][..i] == fees[..i];
  }

  function FeeSum(fees: seq<Fee>): int
  {
    if fees == [] then 0 else FeeSum(fees[..|fees| - 1]) + fees[|fees| - 1].total
  }

  function PriceSum(items: seq<Item>): int
  {
    if items == [] then 0 else PriceSum(items[..|items| - 1]) + items[|items| - 1].price
  }

  lemma {:induction false} PriceSumAppend(a: seq<Item>, b: seq<Item>)
    ensures PriceSum(a + b) == PriceSum(a) + PriceSum(b)
    decreases |b|
  {
    if b != [] {
      assert (a + b)[..|a + b| - 1] == a + b[..|b| - 1];
      PriceSumAppend(a, b[..|b| - 1]);
    } else {
      assert a + b == a;
    }
  }

  /** Partitioning the fees loses nothing: the fees add up to the surcharge
      prices minus the discount total. */
  lemma {:induction false} FeePartitionConserves(fees: seq<Fee>)
    ensures FeeSum(fees) == PriceSum(SurchargeItems(fees)) - DiscountTotal(fees)
  {
    if fees != [] {
      var init, last := fees[..|fees| - 1], fees[|fees| - 1];
      FeePartitionConserves(init);
      var tail := if last.total > 0 then [SurchargeItem(last)] else [];
      PriceSumAppend(SurchargeItems(init), tail);
      assert tail != [] ==> tail[..0] == [];
    }
  }

  // ----------------------------------------------------- discount shares

  /** The discount a product line receives before clamping, when the
      discount total `d` is spread over `n` lines: `d div n`, plus one unit
      for each of the first `d mod n` lines; nothing when `d` is 0. */
  function Share(d: int, n: int, i: int): (s: int)
    requires d >= 0 && n > 0
    ensures d > 0 ==> d / n <= s <= d / n + 1
    ensures d == 0 ==> s == 0
  {
    if d > 0 then d / n + (if i < d % n then 1 else 0) else 0
  }

  /** The shares of the first `k` lines, added up. */
  function SharesUpTo(d: int, n: int, k: nat): int
    requires d >= 0 && n > 0
  {
    if k == 0 then 0 else SharesUpTo(d, n, k - 1) + Share(d, n, k - 1)
  }

  function Min(a: int, b: int): int
  {
    if a <= b then a else b
  }

  lemma {:induction false} SharesUpToValue(d: int, n: int, k: nat)
    requires d >= 0 && n > 0
    ensures SharesUpTo(d, n, k) == if d > 0 then k * (d / n) + Min(k, d % n) else 0
  {
    if k > 0 {
      SharesUpToValue(d, n, k - 1);
      assert k * (d / n) == (k - 1) * (d / n) + d / n;
    }
  }

  /** The shares of all `n` lines add up to exactly `d`: no unit is lost or
      counted twice. */
  lemma SharesSumToTotal(d: int, n: int)
    requires d >= 0 && n > 0
    ensures SharesUpTo(d, n, n) == d
  {
    SharesUpToValue(d, n, n);
  }

  /** The discount applied to a line: its share, cut down to the line's
      total when the share is larger. */
  function AppliedDiscount(share: int, lineTotal: int): (a: int)
    ensures a <= lineTotal && a <= share
    ensures a == share || a == lineTotal
  {
    if share > lineTotal then lineTotal else share
  }

  lemma {:induction false} AppliedUpToShares(lines: seq<LineItem>, d: int, k: nat)
    requires d >= 0 && |lines| > 0 && k <= |lines|
    requires forall i :: 0 <= i < |lines| ==> Share(d, |lines|, i) <= lines[i].total
    ensures AppliedUpTo(lines, d, k) == SharesUpTo(d, |lines|, k)
  {
    if k > 0 {
      AppliedUpToShares(lines, d, k - 1);
    }
  }

  /** When no share exceeds its line's total, the discounts applied to all
      lines add up to exactly the discount total; in every case they add up
      to no more than it. */
  lemma AppliedDiscountsSum(lines: seq<LineItem>, d: int)
    requires d >= 0 && |lines| > 0
    ensures AppliedUpTo(lines, d, |lines|) <= d
    ensures (forall i :: 0 <= i < |lines| ==> Share(d, |lines|, i) <= lines[i].total)
            ==> AppliedUpTo(lines, d, |lines|) == d
  {
    AppliedAtMostShares(lines, d, |lines|);
    SharesSumToTotal(d, |lines|);
    if forall i :: 0 <= i < |lines| ==> Share(d, |lines|, i) <= lines[i].total {
      AppliedUpToShares(lines, d, |lines|);
    }
  }

  lemma {:induction false} AppliedAtMostShares(lines: seq<LineItem>, d: int, k: nat)
    requires d >= 0 && |lines| > 0 && k <= |lines|
    ensures AppliedUpTo(lines, d, k) <= SharesUpTo(d, |lines|, k)
  {
    if k > 0 {
      AppliedAtMostShares(lines, d, k - 1);
    }
  }

  function AppliedUpTo(lines: seq<LineItem>, d: int, k: nat): int
    requires d >= 0 && |lines| > 0 && k <= |lines|
  {
    if k == 0 then 0
    else AppliedUpTo(lines, d, k - 1) + AppliedDiscount(Share(d, |lines|, k - 1), lines[k - 1].total)
  }

  // ------------------------------------------------------- product lines

  /** A meta value the mapper accepts as a catalog item id: not PHP-empty
      and numeric. */
  predicate Usable(s: string)
  {
    !Empty(s) && IsNumeric(s)
  }

  /** The catalog item of a line: the variation's `_alegra_item_id` when
      usable, else the parent product's when usable, else the default 1. */
  function CatalogId(variationMeta: string, productMeta: string): (id: int)
    ensures Usable(variationMeta) ==> id == IntValue(variationMeta)
    ensures !Usable(variationMeta) && Usable(productMeta) ==> id == IntValue(productMeta)
    ensures !Usable(variationMeta) && !Usable(productMeta) ==> id == DefaultItemId
  {
    var meta := if Usable(variationMeta) then variationMeta else productMeta;
    if Usable(meta) then IntValue(meta) else DefaultItemId
  }

  /** `round(total / qty)` for a positive quantity, 0 otherwise. */
  function UnitPriceBase(line: LineItem): int
  {
    if line.quantity > 0 then RoundDiv(line.total, line.quantity) else 0
  }

  /** The invoice line of a product line that received `share` of the
      discount: the discount, clamped to the line total, is taken off the
      line's amount and the result divided back into a rounded unit price;
      the quantity is kept and the discount field is 0. */
  function ProductItem(line: LineItem, share: int): (item: Item)
    requires line.quantity != 0
    ensures item.id == CatalogId(line.variationItemId, line.productItemId)
    ensures item.quantity == line.quantity && item.discount == 0
    ensures item.name == Prefix(line.name, 190) && item.description == Some(Prefix(line.name, 400))
  {
    var qty := line.quantity;
    var amount := UnitPriceBase(line) * qty - AppliedDiscount(share, line.total);
    Item(CatalogId(line.variationItemId, line.productItemId), Prefix(line.name, 190),
         RoundDiv(amount, qty), qty, 0, Some(Prefix(line.name, 400)))
  }

  /** The line's unit price times its quantity differs from the discounted
      line amount by at most half the quantity: the only drift the rounding
      of the unit price introduces. */
  lemma ProductPriceNearest(line: LineItem, share: int)
    requires line.quantity != 0
    ensures var amount := UnitPriceBase(line) * line.quantity - AppliedDiscount(share, line.total);
            2 * Abs(ProductItem(line, share).price * line.quantity - amount) <= Abs(line.quantity)
  {
    RoundDivNearest(UnitPriceBase(line) * line.quantity - AppliedDiscount(share, line.total), line.quantity);
  }

  /** For a positive quantity, the line's invoice amount (unit price times
      quantity) lies within the quantity of its net total (line total minus
      the applied discount): each of the two roundings of the unit price
      drifts by at most half the quantity. */
  lemma ProductAmountWithinQuantity(line: LineItem, share: int)
    requires line.quantity > 0
    ensures Abs(ProductItem(line, share).price * line.quantity
                - (line.total - AppliedDiscount(share, line.total))) <= line.quantity
  {
    RoundDivNearest(line.total, line.quantity);
    ProductPriceNearest(line, share);
  }

  /** The double rounding does not keep a line within one unit of its net
      total: 10 over 4 units, with no discount, is priced round(round(10 / 4)
      * 4 / 4) = 3, so the line is invoiced as 12. */
  lemma UnitPriceDriftExample()
    ensures var line := LineItem("A", 4, 10, "", "");
            ProductItem(line, 0).price == 3 &&
            ProductItem(line, 0).price * line.quantity - line.total == 2
  {
  }

  /** The amount a sequence of invoice lines charges: the sum of price times
      quantity. */
  function ItemsAmount(items: seq<Item>): int
  {
    if items == [] then 0
    else ItemsAmount(items[..|items| - 1]) + items[|items| - 1].price * items[|items| - 1].quantity
  }

  /** The units a sequence of invoice lines charges for. */
  function ItemsQuantity(items: seq<Item>): int
  {
    if items == [] then 0 else ItemsQuantity(items[..|items| - 1]) + items[|items| - 1].quantity
  }

  /** A product line priced so that it charges exactly its net total: of
      its `qty` units, `net mod qty` are priced one unit above `net div qty`
      and the others at `net div qty`. Each part keeps the
      catalog id, name and description of `ProductItem`. */
  function SplitProductItems(line: LineItem, share: int): (items: seq<Item>)
    requires line.quantity > 0
    ensures 1 <= |items| <= 2
    ensures forall k :: 0 <= k < |items| ==>
              items[k].quantity > 0 && items[k].discount == 0 &&
              items[k].id == CatalogId(line.variationItemId, line.productItemId) &&
              items[k].name == Prefix(line.name, 190) &&
              items[k].description == Some(Prefix(line.name, 400))
  {
    var q := line.quantity;
    var net := line.total - AppliedDiscount(share, line.total);
    var item := ProductItem(line, share);
    if net % q == 0 then [item.(price := net / q)]
    else [item.(price := net / q + 1, quantity := net % q), item.(price := net / q, quantity := q - net % q)]
  }

  /** The split lines charge for exactly the line's units and exactly its net
      total, with no rounding drift. */
  lemma SplitProductItemsExact(line: LineItem, share: int)
    requires line.quantity > 0
    ensures var items := SplitProductItems(line, share);
            ItemsQuantity(items) == line.quantity &&
            ItemsAmount(items) == line.total - AppliedDiscount(share, line.total)
  {
    var q := line.quantity;
    var net := line.total - AppliedDiscount(share, line.total);
    var lo, r := net / q, net % q;
    var items := SplitProductItems(line, share);
    assert net == lo * q + r;
    assert items[..|items| - 1][..0] == [];
    if r != 0 {
      assert items[..1][..0] == [];
      assert items[..|items| - 1] == items[..1];
      assert ItemsQuantity(items[..1]) == r;
      assert ItemsAmount(items[..1]) == (lo + 1) * r;
      assert (lo + 1) * r + lo * (q - r) == lo * q + r;
    }
  }

  /** A line that receives no discount, with a non-negative total and a
      positive quantity, keeps the unit price `round(total / qty)`. */
  lemma NoDiscountKeepsUnitPrice(line: LineItem)
    requires line.quantity > 0 && line.total >= 0
    ensures ProductItem(line, 0).price == RoundDiv(line.total, line.quantity)
  {
    RoundDivExact(UnitPriceBase(line), line.quantity);
  }

  /** The clamp also acts without any discount: a single-unit line whose
      total is negative gets that total as its "discount" and is priced 0. */
  lemma NegativeSingleUnitLineIsZeroed(line: LineItem)
    requires line.quantity == 1 && line.total < 0
    ensures AppliedDiscount(0, line.total) == line.total
    ensures ProductItem(line, 0).price == 0
  {
    RoundDivExact(line.total, 1);
    RoundDivExact(0, 1);
  }

  predicate QuantitiesNonZero(lines: seq<LineItem>)
  {
    forall i :: 0 <= i < |lines| ==> lines[i].quantity != 0
  }

  /** The invoice lines of the product lines, in order, with the discount
      total `d` spread over them. */
  function ProductItems(lines: seq<LineItem>, d: int): (items: seq<Item>)
    requires d >= 0 && QuantitiesNonZero(lines)
    ensures |items| == |lines|
  {
    seq(|lines|, i requires 0 <= i < |lines| => ProductItem(lines[i], Share(d, |lines|, i)))
  }

  /** The shipping line, present exactly when the shipping total is positive. */
  function ShippingItems(shipping: int): (items: seq<Item>)
    ensures |items| == if shipping > 0 then 1 else 0
    ensures shipping > 0 ==> items[0] == Item(ShippingItemId, "ENVIO", shipping, 1, 0, None)
  {
    if shipping > 0 then [Item(ShippingItemId, "ENVIO", shipping, 1, 0, None)] else []
  }

  // ------------------------------------------------------------- invoice

  /** The invoice the mapper builds for `order`, as a value. */
  function InvoicePayload(order: Order, clientId: string, localDate: string): Invoice
    requires QuantitiesNonZero(order.lines)
  {
    var items := ProductItems(order.lines, DiscountTotal(order.fees)) +
                 SurchargeItems(order.fees) + ShippingItems(order.shipping);
    Invoice(clientId, items, "open", localDate, localDate, "CASH", "CASH", "NATIONAL", "STANDARD",
            "Pedido WooCommerce #" + DecimalString(order.id))
  }

  /** The layout of the invoice's lines: every product line in order, then
      the surcharges in fee order, then the shipping line exactly when the
      shipping total is positive. */
  lemma InvoiceLayout(order: Order, clientId: string, localDate: string)
    requires QuantitiesNonZero(order.lines)
    ensures var items := InvoicePayload(order, clientId, localDate).items;
            var n, pf := |order.lines|, PositiveFees(order.fees);
            |items| == n + |pf| + (if order.shipping > 0 then 1 else 0) &&
            (forall i :: 0 <= i < n ==>
               items[i] == ProductItem(order.lines[i], Share(DiscountTotal(order.fees), n, i))) &&
            (forall k :: 0 <= k < |pf| ==> items[n + k] == SurchargeItem(pf[k])) &&
            (order.shipping > 0 ==> items[n + |pf|] == Item(ShippingItemId, "ENVIO", order.shipping, 1, 0, None))
  {
  }

  /** The remainder counter of the product pass hands out exactly the
      shares: with `counter` units left before line `i`, line `i` gets the
      base share plus one unit when some are left. */
  lemma ShareFromCounter(d: int, n: int, i: int, base: int, remainder: int, counter: int)
    requires d > 0 && n > 0 && 0 <= i < n && base == d / n && remainder == d % n
    requires counter == if i < remainder then remainder - i else 0
    ensures Share(d, n, i) == base + (if counter > 0 then 1 else 0)
    ensures counter > 0 ==> counter - 1 == if i + 1 < remainder then remainder - (i + 1) else 0
  {
  }

  /** An item assembled the way the product pass does it is `ProductItem`. */
  lemma ProductItemFromParts(line: LineItem, share: int, item: Item)
    requires line.quantity != 0
    requires item.id == CatalogId(line.variationItemId, line.productItemId)
    requires item.name == Prefix(line.name, 190) && item.description == Some(Prefix(line.name, 400))
    requires item.quantity == line.quantity && item.discount == 0
    requires item.price ==
               RoundDiv(UnitPriceBase(line) * line.quantity - AppliedDiscount(share, line.total), line.quantity)
    ensures item == ProductItem(line, share)
  {
  }

  /** Three single-unit lines of 10000, 20000 and 30000 and one fee of -100:
      the discount of 100 is spread as 34, 33, 33, giving unit prices 9966,
      19967 and 29967, and the invoice holds just those three lines. */
  lemma ThreeLineExample(clientId: string, localDate: string)
    ensures var order := Order(7, map[], "", "", "", "",
                               [LineItem("A", 1, 10000, "", ""), LineItem("B", 1, 20000, "", ""),
                                LineItem("C", 1, 30000, "", "")],
                               [Fee("Cupón", -100)], 0);
            var items := InvoicePayload(order, clientId, localDate).items;
            [Share(100, 3, 0), Share(100, 3, 1), Share(100, 3, 2)] == [34, 33, 33] &&
            |items| == 3 && items[0].price == 9966 && items[1].price == 19967 && items[2].price == 29967
  {
    var fees := [Fee("Cupón", -100)];
    assert fees[..0] == [];
    assert DiscountTotal(fees) == 100;
    assert PositiveFees(fees) == [];
    RoundDivExact(10000, 1);
    RoundDivExact(20000, 1);
    RoundDivExact(30000, 1);
    RoundDivExact(9966, 1);
    RoundDivExact(19967, 1);
    RoundDivExact(29967, 1);
  }

  /** `build_invoice_payload`, step by step as the source does it: one pass
      over the fees, the base share and remainder, one pass over the product
      lines with a counter of remainder units still to hand out, then the
      surcharges, the shipping line and the fixed header fields. */
  method BuildInvoicePayload(order: Order, clientId: string, localDate: string) returns (invoice: Invoice)
    requires QuantitiesNonZero(order.lines)
    ensures invoice == InvoicePayload(order, clientId, localDate)
  {
    var negativeFeesDiscount := 0;
    var positiveFees: seq<Item> := [];
    for i := 0 to |order.fees|
      invariant negativeFeesDiscount == DiscountTotal(order.fees[..i])
      invariant positiveFees == SurchargeItems(order.fees[..i])
    {
      var fee := order.fees[i];
      FeeStep(order.fees, i);
      if fee.total <= 0 {
        negativeFeesDiscount := negativeFeesDiscount + Abs(fee.total);
      } else {
        positiveFees := positiveFees + [Item(SurchargeItemId, "RECARGO", fee.total, 1, 0,
                                             Some(Prefix(fee.name, 150)))];
      }
    }
    assert order.fees[..|order.fees|] == order.fees;

    var lines := order.lines;
    var count := |lines|;
    var baseDiscountPerItem := 0;
    var remainingDiscount := 0;
    var remainderCounter := 0;
    if count > 0 && negativeFeesDiscount > 0 {
      baseDiscountPerItem := negativeFeesDiscount / count;
      remainingDiscount := negativeFeesDiscount % count;
      remainderCounter := remainingDiscount;
    }

    var items: seq<Item> := [];
    for i := 0 to count
      invariant |items| == i
      invariant forall j :: 0 <= j < i ==> items[j] == ProductItem(lines[j], Share(negativeFeesDiscount, count, j))
      invariant negativeFeesDiscount > 0 && count > 0 ==>
                  baseDiscountPerItem == negativeFeesDiscount / count &&
                  remainingDiscount == negativeFeesDiscount % count &&
                  remainderCounter == if i < remainingDiscount then remainingDiscount - i else 0
    {
      var line := lines[i];
      var itemMeta := line.variationItemId;
      if Empty(itemMeta) || !IsNumeric(itemMeta) {
        itemMeta := line.productItemId;
      }
      var finalItemId := if !Empty(itemMeta) && IsNumeric(itemMeta) then IntValue(itemMeta) else DefaultItemId;

      var qty := line.quantity;
      var subtotalLine := line.total;
      var unitPriceBase := if qty > 0 then RoundDiv(subtotalLine, qty) else 0;

      var lineDiscountAmount := 0;
      if negativeFeesDiscount > 0 {
        ShareFromCounter(negativeFeesDiscount, count, i, baseDiscountPerItem, remainingDiscount, remainderCounter);
        lineDiscountAmount := baseDiscountPerItem;
        if remainderCounter > 0 {
          lineDiscountAmount := lineDiscountAmount + 1;
          remainderCounter := remainderCounter - 1;
        }
      }
      assert lineDiscountAmount == Share(negativeFeesDiscount, count, i);
      if lineDiscountAmount > subtotalLine {
        lineDiscountAmount := subtotalLine;
      }

      var finalPrice := RoundDiv(unitPriceBase * qty - lineDiscountAmount, qty);
      var item := Item(finalItemId, Prefix(line.name, 190), finalPrice, qty, 0, Some(Prefix(line.name, 400)));
      ProductItemFromParts(line, Share(negativeFeesDiscount, count, i), item);
      items := items + [item];
    }
    assert items == ProductItems(lines, negativeFeesDiscount);

    items := items + positiveFees;
    var shipping := order.shipping;
    if shipping > 0 {
      items := items + [Item(ShippingItemId, "ENVIO", shipping, 1, 0, None)];
    }
    invoice := Invoice(clientId, items, "open", localDate, localDate, "CASH", "CASH", "NATIONAL",
                       "STANDARD", "Pedido WooCommerce #" + DecimalString(order.id));
  }
}
