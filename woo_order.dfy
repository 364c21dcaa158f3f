/** The WooCommerce order as the data mapper reads it. Money amounts are the
    integers the mapper obtains with `round()` from WooCommerce's totals. */
module WooOrder {

  /** A fee line of the order; `total` is `round($fee->get_total())`, negative
      for a discount or coupon, positive for a surcharge. */
  datatype Fee = Fee(name: string, total: int)

  /** A product line of the order. `quantity` is `(int) $line->get_quantity()`,
      `total` is `round($line->get_total())`. `variationItemId` and
      `productItemId` are the `_alegra_item_id` post meta of the line's
      variation and of its parent product ("" when unset). */
  datatype LineItem = LineItem(
    name: string,
    quantity: int,
    total: int,
    variationItemId: string,
    productItemId: string)

  /** The order: its id, its custom meta fields, its billing fields, its
      product lines and fees in order, and `round($order->get_shipping_total())`. */
  datatype Order = Order(
    id: nat,
    meta: map<string, string>,
    billingFirstName: string,
    billingLastName: string,
    billingCompany: string,
    billingEmail: string,
    lines: seq<LineItem>,
    fees: seq<Fee>,
    shipping: int)

  /** `$order->get_meta($key)`: the stored value, "" when the key is unset. */
  function Meta(order: Order, key: string): string
  {
    if key in order.meta then order.meta[key] else ""
  }
}
