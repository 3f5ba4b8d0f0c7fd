# Webgains tracking block

A Dafny model of the Magento 2 block `Turiknox\Webgains\Block\Webgains`.
The block feeds the Webgains conversion-tracking snippet on the checkout
success page. It keeps the checkout session's last order in a lazily filled
field and prints the order's grand total and shipping amount with two
decimals. It also serialises the order's visible line items into the
Webgains item string: one segment per purchased unit, each segment being
`event id::amount::name::sku::` plus `coupon::` for discounted lines.
Segments are separated by ` | ` under two placement rules, one for each kind
of item (see "## Findings").

Files:

- `wrappers.dfy`: `Option`.
- `orders.dfy`: the order and line-item records the block reads. Quantities
  are whole numbers of at least one.
- `amounts.dfy`: PHP's `number_format($x, 2, '.', $sep)`. An amount is first
  rounded to whole cents (halves away from zero), then written out. The file
  also covers how PHP reads such a string back as a number.
- `item_data.dfy`: what the item string is. A run of pieces (segments and
  separators) is built for each of the two separator rules, together with
  its rendering as text and the lemmas about segments, amounts and
  separators.
- `webgains.dfy`: the `Block` class with its cached `order` field, the two
  amount getters and the item-string method. The method's loops follow the
  source and are proved against the piece model.

The item-string method is split into four methods: the loop over items
(`AppendItems`), the loop over the units of a multi-quantity item
(`AppendUnits`), the single-quantity branch (`AppendSingle`) and the
appending of one segment (`AppendSegment`). The statements inside them are
the source's own and keep its order, except in one place. A unit's amount is
computed before its segment is appended, so `AppendSegment` receives the
total already computed. The source appends the event id first (lines 231 and
260). The output is the same.

## Model

| member | source | states |
|---|---|---|
| Webgains.Block.constructor | app/code/Turiknox/Webgains/Block/Webgains.php:64-73 | a new block holds the session it was given, the configured event id and no cached order |
| Webgains.Block.SetOrder | app/code/Turiknox/Webgains/Block/Webgains.php:128-131 | the cached order becomes the session's last order, whatever was cached before |
| Webgains.Block.GetOrder | app/code/Turiknox/Webgains/Block/Webgains.php:138-144 | the session is asked only while nothing is cached; a cached order is kept and returned unchanged |
| Webgains.Block.GrandTotal | app/code/Turiknox/Webgains/Block/Webgains.php:159-162 | the grand total's text is the total rounded to cents in canonical form (sign, whole units without leading zeros, ".", two cent digits), reads back as those cents, and has no thousands separator |
| Webgains.Block.ShippingAmount | app/code/Turiknox/Webgains/Block/Webgains.php:167-170 | the shipping amount's text is the amount rounded to cents in canonical form (sign, whole units without leading zeros, ".", two cent digits), reads back as those cents, and has no thousands separator |
| Webgains.Block.AppendSegment | app/code/Turiknox/Webgains/Block/Webgains.php:230-247 | appending the fields one by one, as both branches do, appends exactly the unit's segment text |
| Webgains.Block.AppendUnits | app/code/Turiknox/Webgains/Block/Webgains.php:225-257 | the inner loop appends one segment per unit, each followed by the separator unless it is the last unit of the item at the last index |
| Webgains.Block.AppendSingle | app/code/Turiknox/Webgains/Block/Webgains.php:258-281 | a single-quantity item appends one segment, followed by the separator only when its index is `count(qty) - 1`, that is 0 |
| Webgains.Block.AppendItems | app/code/Turiknox/Webgains/Block/Webgains.php:219-284 | the loop over items builds, in list order, the text each item's branch appends; `ItemsRendered` equates that text with the rendering of the as-written pieces |
| Webgains.Block.GetWebGainsItemData | app/code/Turiknox/Webgains/Block/Webgains.php:215-285 | the item string is the rendering of the order's pieces, with shipping read back from its two-decimal text and split evenly over the items |
| Amounts.RoundCentsBounds | app/code/Turiknox/Webgains/Block/Webgains.php:169 | rounding to cents moves an amount by at most half a cent, and halves go away from zero |
| Amounts.NoLeadingZero | app/code/Turiknox/Webgains/Block/Webgains.php:162 | the whole units of a formatted amount start with "0" only when they are zero |
| Amounts.GroupLength | app/code/Turiknox/Webgains/Block/Webgains.php:236 | thousands grouping inserts one separator for every three digits left of the last group |
| Amounts.FormatCentsShape | app/code/Turiknox/Webgains/Block/Webgains.php:236 | a formatted amount ends in "." and exactly two digits, and has no other "." |
| Amounts.RoundTrip | app/code/Turiknox/Webgains/Block/Webgains.php:217-218 | an amount printed without thousands separator reads back as exactly its cents |
| Amounts.SeparatorOnlyDifference | app/code/Turiknox/Webgains/Block/Webgains.php:265 | the segment format (with ",") and the getters' format (with "") differ only by the thousands separators |
| ItemData.SegmentRendered | app/code/Turiknox/Webgains/Block/Webgains.php:259-276 | a segment is event id, amount, name, SKU and, exactly when the line has a discount, the coupon code, each followed by "::" |
| ItemData.UnitSegment | app/code/Turiknox/Webgains/Block/Webgains.php:215-285 | segment `j` of the item string holds the event id, unit `j`'s amount, its name, its SKU and, for a discounted line, the coupon; a unit of a multi-quantity item costs price − discount/qty + share/qty and a single-quantity item costs price − discount + share (lines 226-235, 263-264), where the share is the rounded shipping split evenly over the items |
| ItemData.ItemShares | app/code/Turiknox/Webgains/Block/Webgains.php:226 | the units of one item carry the item's whole shipping ratio between them |
| ItemData.ItemSharesSum | app/code/Turiknox/Webgains/Block/Webgains.php:225-235 | the per-unit shipping shares of one item add up to the shipping ratio |
| ItemData.SharesSumTo | app/code/Turiknox/Webgains/Block/Webgains.php:218 | shares derived from a total split evenly over the items add up to that total |
| ItemData.ShippingSplit | app/code/Turiknox/Webgains/Block/Webgains.php:217-218 | over the whole order the shipping shares add up to the shipping amount rounded to cents |
| ItemData.ShippingRounding | app/code/Turiknox/Webgains/Block/Webgains.php:169 | the shipping amount the block splits is within half a cent of the order's shipping |
| ItemData.MultiStep | app/code/Turiknox/Webgains/Block/Webgains.php:249-256 | unit `i` of a multi-quantity item adds its segment, then the separator unless it is the last unit of the last item |
| ItemData.UnitsRendered | app/code/Turiknox/Webgains/Block/Webgains.php:227-257 | the pieces of the first `m` units render as the text the inner loop has built after `m` rounds |
| ItemData.SingleStep | app/code/Turiknox/Webgains/Block/Webgains.php:278-280 | a single-quantity item adds its segment, and the separator exactly when its index is 0 |
| ItemData.ItemRendered | app/code/Turiknox/Webgains/Block/Webgains.php:225-281 | one item's pieces render as the text its branch appends |
| ItemData.ItemsRendered | app/code/Turiknox/Webgains/Block/Webgains.php:222-283 | the pieces of the first `k` items render as the text the item loop has built after `k` rounds |
| ItemData.MultiSegments | app/code/Turiknox/Webgains/Block/Webgains.php:227-257 | a multi-quantity item's first `m` units give `m` identical segments |
| ItemData.ItemSegments | app/code/Turiknox/Webgains/Block/Webgains.php:225-281 | an item yields one segment per unit ordered, one for a single-quantity item, all with the item's fields |
| ItemData.SegmentsInOrder | app/code/Turiknox/Webgains/Block/Webgains.php:222-283 | under either separator rule the segments are those of the units in item order, as many as units ordered |
| ItemData.MultiShape | app/code/Turiknox/Webgains/Block/Webgains.php:249-256 | a multi-quantity item's units are each followed by a separator, except the very last unit of the last item |
| ItemData.AllMultiAgree | app/code/Turiknox/Webgains/Block/Webgains.php:225-257 | the two separator rules give the same pieces when every item has quantity above one |
| ItemData.AllMultiSeparators | app/code/Turiknox/Webgains/Block/Webgains.php:249-256 | an order of multi-quantity items only has one separator fewer than units and ends with a segment |
| ItemData.SingleSeparatorOnlyFirst | app/code/Turiknox/Webgains/Block/Webgains.php:278-280 | as written, a single-quantity item ends with a separator if and only if it is the first item |
| ItemData.LoneSingleTrailing | app/code/Turiknox/Webgains/Block/Webgains.php:278-280 | as written, an order of one single-quantity item ends with the separator |
| ItemData.ThreeSinglesRunTogether | app/code/Turiknox/Webgains/Block/Webgains.php:278-280 | as written, three single-quantity items give segment, separator, segment, segment: one separator only |
| ItemData.ThreeSinglesNotJoined | app/code/Turiknox/Webgains/Block/Webgains.php:278-280 | as written, three single-quantity items are not joined the intended way |
| ItemData.IntendedJoins | app/code/Turiknox/Webgains/Block/Webgains.php:253-255 | with the corrected single-quantity rule, every unit but the order's last is followed by exactly one separator |
| ItemData.IntendedSeparators | app/code/Turiknox/Webgains/Block/Webgains.php:278-280 | with the corrected rule, there is one separator fewer than units and none trails |

## Left out

- The constructor's dependency wiring, the locale resolver and the configuration getters `isEnabled`, `getWebgainsProgramId` and `getWebgainsEventId` (lines 64-103) are not modelled as behaviour. The event id is a constant of the block that the store configuration supplies.
- `getLocaleCode`, `getWebgainsVersion` and the one-line order delegations `getOrderIncrementId`, `getCustomerId`, `getCurrency`, `getVisibleOrderItems` and `getCouponCode` (lines 110-208) are fields of the order record, not operations.
- The checkout session's internals are out of scope: the session is an object holding the last real order. The Magento template that prints the snippet is out of scope too.
- Amounts are exact reals. PHP's binary floating point is not modelled: neither the representation error of a price such as 0.1 nor `number_format`'s own pre-rounding. Rounding is to whole cents, halves away from zero.
- Amounts.NumberFormat: prints an amount that rounds to zero cents as "0.00". PHP 7.0 and 7.1 print "-0.00" for a small negative amount; from 7.2 on PHP prints "0.00", as the model does.
- Quantities are whole numbers of at least one. Magento stores `qty_ordered` as a decimal, and a fractional quantity would make the unit loop and its `$i != qty` test behave differently.
- PHP 8 throws a `TypeError` for `count()` of a number on line 278. The model uses PHP 7's result of 1.
- An order without visible items divides by zero on line 218. Under PHP 7 that only warns, the loop never runs and the item string is empty, which is what the model gives. PHP 8's `DivisionByZeroError` is not modelled.
- A null coupon code prints as the empty string; the order record holds the coupon as a string.
- A missing order (the getters and the item string dereference `$this->order` without a check) is a precondition of those members, not an error result: PHP stops with a fatal error there.
- A lone single-quantity item leaves a trailing " | " (line 278). The model keeps it, as the code does.

## Findings

| source | as written | input that shows it | evidently intended | confidence | as-written member | corrected member |
|---|---|---|---|---|---|---|
| app/code/Turiknox/Webgains/Block/Webgains.php:278 | `$itemCount == count($item->getQtyOrdered()) - 1`: `count` of a number is 1, so only the item at index 0 is followed by the separator | three items of quantity 1: the second and third segments run together with no separator; one item of quantity 1: the string ends in the separator | `$itemCount != count($items) - 1`, as on line 253: a separator after every item but the last | not executed | ItemData.ThreeSinglesRunTogether | ItemData.IntendedSeparators |

The block's methods follow the code as written. The corrected rule is
`Rule.Intended` in `item_data.dfy`. It yields one separator fewer than
units and never a trailing one. For orders whose items all have quantity
above one, it gives exactly the same pieces as the code (`AllMultiAgree`).
