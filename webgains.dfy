/**
 * The Webgains tracking block: it caches the checkout session's last order,
 * formats two of its amounts, and serialises its visible items into the
 * item string of the tracking call.
 */
module Webgains {
  import opened Wrappers
  import opened Orders
  import opened Amounts
  import opened ItemData

  /** The checkout session; `lastRealOrder` is the order it hands out. */
  class CheckoutSession {
    var lastRealOrder: Order

    constructor (o: Order)
      ensures lastRealOrder == o
    {
      lastRealOrder := o;
    }
  }

  /** How PHP reads a formatted amount back when it is used as a number. */
  function AmountValue(s: string): real
    requires ParseAmount(s).Some?
  {
    ParseAmount(s).value as real / 100.0
  }

  class Block {
    /** The cached order; `None` until it is first asked for. */
    var order: Option<Order>
    const checkoutSession: CheckoutSession
    /** The configured Webgains event id, as the store configuration gives it. */
    const eventId: string

    constructor (session: CheckoutSession, eventId: string)
      ensures order == None && checkoutSession == session && this.eventId == eventId
    {
      order := None;
      checkoutSession := session;
      this.eventId := eventId;
    }

    /** Stores the session's last order, whatever was cached before. */
    method SetOrder()
      modifies this`order
      ensures order == Some(checkoutSession.lastRealOrder)
    {
      order := Some(checkoutSession.lastRealOrder);
    }

    /** Asks the session only while nothing is cached; afterwards returns the cached order. */
    method GetOrder() returns (o: Order)
      modifies this`order
      ensures old(order).Some? ==> order == old(order)
      ensures old(order).None? ==> order == Some(checkoutSession.lastRealOrder)
      ensures order == Some(o)
    {
      if order.None? {
        SetOrder();
      }
      o := order.value;
    }

    /**
     * The grand total with two decimals and no thousands separator: an
     * optional "-", the whole units without leading zeros, "." and the cents.
     */
    function GrandTotal(): (s: string)
      reads this
      requires order.Some?
      ensures ParseAmount(s) == Some(RoundCents(order.value.grandTotal))
      ensures ',' !in s
      ensures var c := RoundCents(order.value.grandTotal); s == Sign(c) + DigitsOf(Abs(c) / 100) + "." + Fraction(c)
    {
      var s := NumberFormat(order.value.grandTotal, "");
      var c := RoundCents(order.value.grandTotal);
      assert ParseAmount(s) == Some(c) && ',' !in s by {
        RoundTrip(c);
        SeparatorOnlyDifference(order.value.grandTotal);
      }
      assert s == Sign(c) + DigitsOf(Abs(c) / 100) + "." + Fraction(c) by {
        GroupNoSeparator(DigitsOf(Abs(c) / 100));
      }
      s
    }

    /**
     * The shipping amount with two decimals and no thousands separator: an
     * optional "-", the whole units without leading zeros, "." and the cents.
     */
    function ShippingAmount(): (s: string)
      reads this
      requires order.Some?
      ensures ParseAmount(s) == Some(RoundCents(order.value.shippingInclTax))
      ensures ',' !in s
      ensures var c := RoundCents(order.value.shippingInclTax); s == Sign(c) + DigitsOf(Abs(c) / 100) + "." + Fraction(c)
    {
      var s := NumberFormat(order.value.shippingInclTax, "");
      var c := RoundCents(order.value.shippingInclTax);
      assert ParseAmount(s) == Some(c) && ',' !in s by {
        RoundTrip(c);
        SeparatorOnlyDifference(order.value.shippingInclTax);
      }
      assert s == Sign(c) + DigitsOf(Abs(c) / 100) + "." + Fraction(c) by {
        GroupNoSeparator(DigitsOf(Abs(c) / 100));
      }
      s
    }

    /**
     * Appends one unit's segment to `wgItems`: the event id, the unit's
     * amount with thousands separators, the name, the SKU and, for a
     * discounted line, the coupon code, each followed by "::".
     */
    method AppendSegment(wgItems: string, item: Item, itemTotal: real, couponCode: string, ghost env: Env)
      returns (r: string)
      requires env.eventId == eventId && env.couponCode == couponCode
      requires itemTotal == UnitTotal(item, env.shippingRatio)
      ensures r == wgItems + SegmentText(item, env)
    {
      r := wgItems + eventId + "::";
      r := r + NumberFormat(itemTotal, ",") + "::";
      r := r + item.name + "::";
      r := r + item.sku + "::";
      if item.discountAmount > 0.0 {
        r := r + couponCode + "::";
      }
      SegmentAppend(wgItems, item, env, itemTotal);
    }

    /**
     * Appends the segments of every unit of a multi-quantity item to
     * `wgItems`: each is followed by " | " unless it is the last unit of the
     * item at the last index.
     */
    method AppendUnits(wgItems: string, item: Item, itemCount: nat, count: nat, shippingRatio: real,
                       couponCode: string, ghost env: Env)
      returns (r: string)
      requires item.qtyOrdered > 1
      requires env.eventId == eventId && env.couponCode == couponCode && env.shippingRatio == shippingRatio
      ensures r == ItemText(wgItems, item, itemCount, count, env)
    {
      var shippingAmountPerProduct := shippingRatio / item.qtyOrdered as real;
      r := wgItems;
      var i := 1;
      while i <= item.qtyOrdered
        invariant 1 <= i <= item.qtyOrdered + 1
        invariant r == UnitsText(wgItems, item, itemCount, count, env, i - 1)
      {
        var itemTotal := 0.0;
        itemTotal := itemTotal + (item.priceInclTax - item.discountAmount / item.qtyOrdered as real);
        itemTotal := itemTotal + shippingAmountPerProduct;
        r := AppendSegment(r, item, itemTotal, couponCode, env);
        if i != item.qtyOrdered {
          r := r + " | ";
        } else if itemCount != count - 1 {
          r := r + " | ";
        }
        i := i + 1;
      }
    }

    /**
     * Appends the one segment of a single-quantity item to `wgItems`,
     * followed by " | " only when the item's index equals `count(qty) - 1`,
     * which is 0 since `count` of a number is 1.
     */
    method AppendSingle(wgItems: string, item: Item, itemCount: nat, count: nat, shippingRatio: real,
                        couponCode: string, ghost env: Env)
      returns (r: string)
      requires item.qtyOrdered <= 1
      requires env.eventId == eventId && env.couponCode == couponCode && env.shippingRatio == shippingRatio
      ensures r == ItemText(wgItems, item, itemCount, count, env)
    {
      var itemTotal := 0.0;
      itemTotal := itemTotal + (item.priceInclTax - item.discountAmount / item.qtyOrdered as real);
      itemTotal := itemTotal + shippingRatio;
      r := AppendSegment(wgItems, item, itemTotal, couponCode, env);
      if itemCount == ScalarCount - 1 {
        r := r + " | ";
      }
    }

    /**
     * The loop over the order's items: a multi-quantity item through
     * `AppendUnits`, any other item as one segment followed by " | " only
     * when its index equals `count(qty) - 1`, that is 0.
     */
    method AppendItems(items: seq<Item>, shippingRatio: real, couponCode: string) returns (wgItems: string)
      ensures wgItems == ItemsText(items, Env(eventId, couponCode, shippingRatio), |items|)
    {
      ghost var env := Env(eventId, couponCode, shippingRatio);
      wgItems := "";
      var itemCount := 0;
      for idx := 0 to |items|
        invariant itemCount == idx
        invariant wgItems == ItemsText(items, env, idx)
      {
        var item := items[idx];
        if item.qtyOrdered > 1 {
          wgItems := AppendUnits(wgItems, item, itemCount, |items|, shippingRatio, couponCode, env);
        } else {
          wgItems := AppendSingle(wgItems, item, itemCount, |items|, shippingRatio, couponCode, env);
        }
        itemCount := itemCount + 1;
      }
    }

    /**
     * The item string of the tracking call: the shipping amount, read back
     * from its two-decimal text, is split evenly over the visible items, and
     * the items are serialised one segment per unit.
     */
    method GetWebGainsItemData() returns (wgItems: string)
      requires order.Some?
      ensures wgItems == Render(ItemDataPieces(order.value, eventId))
    {
      var shippingAmount := ShippingAmount();
      var items := order.value.visibleItems;
      var shippingRatio := 0.0;
      if |items| > 0 {
        shippingRatio := AmountValue(shippingAmount) / |items| as real;
      }
      assert OrderEnv(order.value, eventId) == Env(eventId, order.value.couponCode, shippingRatio);
      wgItems := AppendItems(items, shippingRatio, order.value.couponCode);
      ItemsRendered(items, OrderEnv(order.value, eventId), |items|);
    }
  }
}
