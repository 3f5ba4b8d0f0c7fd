/**
 * The order records the block reads from the sales layer. They are values:
 * the block never changes an order, it only caches a reference to one.
 */
module Orders {
  import opened Wrappers

  /** Quantity ordered; whole units, at least one. */
  type Quantity = q: nat | q >= 1 witness 1

  /** One visible line item of an order. */
  datatype Item = Item(
    name: string,
    sku: string,
    qtyOrdered: Quantity,
    priceInclTax: real,
    discountAmount: real)  // total discount on the line, not per unit

  /** The fields of a sales order the block uses. */
  datatype Order = Order(
    incrementId: string,
    customerId: Option<nat>,
    currency: string,
    grandTotal: real,
    shippingInclTax: real,
    couponCode: string,  // "" when the order carries no coupon
    visibleItems: seq<Item>)
}
