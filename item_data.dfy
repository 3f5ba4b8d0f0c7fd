/**
 * What `Webgains::getWebGainsItemData` writes, described piece by piece.
 *
 * The tracking string is a run of segments, one per purchased unit, some of
 * them followed by the separator " | ". A segment is a list of fields, each
 * followed by "::": event id, amount, item name, SKU and, when the line has a
 * discount, the order's coupon code.
 *
 * `Pieces` follows the source's two separator rules. The rule of the
 * single-quantity branch compares the item index with `count()` of a scalar
 * (1 in PHP 7) minus one, so only the item at index 0 is followed by a
 * separator there. `Rule.Intended` is the evidently intended rule (a
 * separator after every item but the last), kept beside it to show the
 * difference.
 *
 * The string is described twice on purpose. The pieces (`MultiPieces`,
 * `ItemPieces`, `Pieces`) keep segments and separators apart, so that
 * segment order and separator placement can be stated. The texts
 * (`UnitsText`, `ItemText`, `ItemsText`, `SegmentText`) follow the appends
 * of the block's loops one for one and serve as their loop invariants.
 * `UnitsRendered`, `ItemsRendered` and `SegmentRendered` prove that the two
 * agree.
 */
module ItemData {
  import opened Orders
  import opened Amounts

  /** What PHP 7's `count()` returns for a value that is not countable. */
  const ScalarCount := 1

  datatype Piece = Segment(fields: seq<string>) | Separator

  /** The constant inputs of one serialisation. */
  datatype Env = Env(eventId: string, couponCode: string, shippingRatio: real)

  datatype Rule = AsWritten | Intended

  /** Each field followed by "::". */
  function Terminated(fields: seq<string>): string {
    if fields == [] then "" else Terminated(fields[..|fields| - 1]) + fields[|fields| - 1] + "::"
  }

  lemma {:induction false} TerminatedAppend(a: seq<string>, b: seq<string>)
    ensures Terminated(a + b) == Terminated(a) + Terminated(b)
    decreases |b|
  {
    if b == [] {
      assert a + b == a;
    } else {
      assert (a + b)[..|a + b| - 1] == a + b[..|b| - 1];
      TerminatedAppend(a, b[..|b| - 1]);
    }
  }

  lemma TerminatedOne(x: string)
    ensures Terminated([x]) == x + "::"
  {
    assert [x][..0] == [];
  }

  function RenderPiece(p: Piece): string {
    match p
    case Segment(fields) => Terminated(fields)
    case Separator => " | "
  }

  /** The text of a run of pieces. */
  function Render(ps: seq<Piece>): string {
    if ps == [] then "" else RenderPiece(ps[0]) + Render(ps[1..])
  }

  lemma {:induction false} RenderAppend(a: seq<Piece>, b: seq<Piece>)
    ensures Render(a + b) == Render(a) + Render(b)
  {
    if a == [] {
      assert a + b == b;
    } else {
      assert (a + b)[1..] == a[1..] + b;
      RenderAppend(a[1..], b);
    }
  }

  lemma RenderOne(p: Piece)
    ensures Render([p]) == RenderPiece(p)
  {
    assert [p][1..] == [];
  }

  /** Number of segments an item yields. */
  function Units(item: Item): nat {
    if item.qtyOrdered > 1 then item.qtyOrdered else 1
  }

  /** The share of the order's shipping one unit of `item` carries. */
  function ShippingShare(item: Item, ratio: real): real {
    if item.qtyOrdered > 1 then ratio / item.qtyOrdered as real else ratio
  }

  /** The units of one item carry the item's whole share of the shipping between them. */
  lemma ItemShares(item: Item, ratio: real)
    ensures Units(item) as real * ShippingShare(item, ratio) == ratio
  {
  }

  /** The amount of one unit of `item`, before formatting. */
  function UnitTotal(item: Item, ratio: real): real {
    (item.priceInclTax - item.discountAmount / item.qtyOrdered as real) + ShippingShare(item, ratio)
  }

  /** The fields of every segment `item` yields. */
  function UnitFields(item: Item, env: Env): seq<string> {
    [env.eventId, NumberFormat(UnitTotal(item, env.shippingRatio), ","), item.name, item.sku]
      + (if item.discountAmount > 0.0 then [env.couponCode] else [])
  }

  /** The text the source appends for one unit of `item`, separator excluded. */
  function SegmentText(item: Item, env: Env): string {
    env.eventId + "::" + NumberFormat(UnitTotal(item, env.shippingRatio), ",") + "::"
      + item.name + "::" + item.sku + "::"
      + (if item.discountAmount > 0.0 then env.couponCode + "::" else "")
  }

  /**
   * A segment renders as event id, amount, name, SKU and, for a discounted
   * line, the coupon code, each followed by "::" (the last one included).
   */
  lemma SegmentRendered(item: Item, env: Env)
    ensures Render([Segment(UnitFields(item, env))]) == SegmentText(item, env)
  {
    var amount := NumberFormat(UnitTotal(item, env.shippingRatio), ",");
    var coupon: seq<string> := if item.discountAmount > 0.0 then [env.couponCode] else [];
    RenderOne(Segment(UnitFields(item, env)));
    assert UnitFields(item, env) == [env.eventId] + [amount] + [item.name] + [item.sku] + coupon;
    TerminatedAppend([env.eventId] + [amount] + [item.name] + [item.sku], coupon);
    TerminatedAppend([env.eventId] + [amount] + [item.name], [item.sku]);
    TerminatedAppend([env.eventId] + [amount], [item.name]);
    TerminatedAppend([env.eventId], [amount]);
    TerminatedOne(env.eventId);
    TerminatedOne(amount);
    TerminatedOne(item.name);
    TerminatedOne(item.sku);
    if coupon != [] {
      TerminatedOne(env.couponCode);
    }
  }

  /** The first `m` units of a multi-quantity item at index `k` of `n` items. */
  function MultiPieces(item: Item, k: nat, n: nat, env: Env, m: nat): seq<Piece>
    requires m <= item.qtyOrdered
  {
    if m == 0 then []
    else
      MultiPieces(item, k, n, env, m - 1) + [Segment(UnitFields(item, env))]
        + (if m != item.qtyOrdered then [Separator]
           else if k != n - 1 then [Separator]
           else [])
  }

  /** Appending the fields one by one, as the source does, appends the segment text. */
  lemma SegmentAppend(before: string, item: Item, env: Env, total: real)
    requires total == UnitTotal(item, env.shippingRatio)
    ensures (if item.discountAmount > 0.0
             then before + env.eventId + "::" + NumberFormat(total, ",") + "::" + item.name + "::" + item.sku + "::" + env.couponCode + "::"
             else before + env.eventId + "::" + NumberFormat(total, ",") + "::" + item.name + "::" + item.sku + "::")
      == before + SegmentText(item, env)
  {
  }

  /** Before its first unit, a multi-quantity item has added nothing. */
  lemma MultiStart(done: seq<Piece>, item: Item, k: nat, n: nat, env: Env)
    ensures done + MultiPieces(item, k, n, env, 0) == done
  {
  }

  /**
   * Emitting unit `i` of a multi-quantity item appends its segment text, then
   * " | " unless it is the last unit of the last item.
   */
  lemma MultiStep(done: seq<Piece>, item: Item, k: nat, n: nat, env: Env, i: nat)
    requires 1 <= i <= item.qtyOrdered
    ensures (i != item.qtyOrdered || k != n - 1) ==>
      Render(done + MultiPieces(item, k, n, env, i)) ==
        Render(done + MultiPieces(item, k, n, env, i - 1)) + SegmentText(item, env) + " | "
    ensures (i == item.qtyOrdered && k == n - 1) ==>
      Render(done + MultiPieces(item, k, n, env, i)) ==
        Render(done + MultiPieces(item, k, n, env, i - 1)) + SegmentText(item, env)
  {
    var seg: seq<Piece> := [Segment(UnitFields(item, env))];
    var prev := done + MultiPieces(item, k, n, env, i - 1);
    SegmentRendered(item, env);
    RenderAppend(prev, seg);
    if i != item.qtyOrdered || k != n - 1 {
      assert done + MultiPieces(item, k, n, env, i) == prev + seg + [Separator];
      RenderAppend(prev + seg, [Separator]);
      RenderOne(Separator);
    } else {
      assert done + MultiPieces(item, k, n, env, i) == prev + seg;
    }
  }

  /** Whether the single-quantity branch writes a separator after the item at index `k` of `n`. */
  function SingleSeparator(rule: Rule, k: nat, n: nat): bool {
    match rule
    case AsWritten => k == ScalarCount - 1
    case Intended => k != n - 1
  }

  /** The pieces of the item at index `k` of `n` items. */
  function ItemPieces(rule: Rule, item: Item, k: nat, n: nat, env: Env): seq<Piece> {
    if item.qtyOrdered > 1 then MultiPieces(item, k, n, env, item.qtyOrdered)
    else [Segment(UnitFields(item, env))] + (if SingleSeparator(rule, k, n) then [Separator] else [])
  }

  /**
   * A single-quantity item appends its segment text and, under the source's
   * rule, " | " after the item at index 0 only.
   */
  lemma SingleStep(done: seq<Piece>, item: Item, k: nat, n: nat, env: Env)
    requires item.qtyOrdered == 1
    ensures k == ScalarCount - 1 ==>
      Render(done + ItemPieces(AsWritten, item, k, n, env)) == Render(done) + SegmentText(item, env) + " | "
    ensures k != ScalarCount - 1 ==>
      Render(done + ItemPieces(AsWritten, item, k, n, env)) == Render(done) + SegmentText(item, env)
  {
    var seg: seq<Piece> := [Segment(UnitFields(item, env))];
    SegmentRendered(item, env);
    RenderAppend(done, seg);
    if k == ScalarCount - 1 {
      assert done + ItemPieces(AsWritten, item, k, n, env) == done + seg + [Separator];
      RenderAppend(done + seg, [Separator]);
      RenderOne(Separator);
    } else {
      assert done + ItemPieces(AsWritten, item, k, n, env) == done + seg;
    }
  }

  /** The pieces of the first `k` items. */
  function Pieces(rule: Rule, items: seq<Item>, env: Env, k: nat): seq<Piece>
    requires k <= |items|
  {
    if k == 0 then [] else Pieces(rule, items, env, k - 1) + ItemPieces(rule, items[k - 1], k - 1, |items|, env)
  }


  /**
   * `before` followed by the first `m` units of a multi-quantity item at
   * index `k` of `n`, in the order the inner loop appends them.
   */
  function UnitsText(before: string, item: Item, k: nat, n: nat, env: Env, m: nat): string
    requires m <= item.qtyOrdered
  {
    if m == 0 then before
    else if m != item.qtyOrdered || k != n - 1 then UnitsText(before, item, k, n, env, m - 1) + SegmentText(item, env) + " | "
    else UnitsText(before, item, k, n, env, m - 1) + SegmentText(item, env)
  }

  /** The text the item loop has built, under the source's rule, after the first `k` items. */
  function ItemsText(items: seq<Item>, env: Env, k: nat): string
    requires k <= |items|
  {
    if k == 0 then "" else ItemText(ItemsText(items, env, k - 1), items[k - 1], k - 1, |items|, env)
  }

  /** Rendering the units of a multi-quantity item appends exactly their text. */
  lemma {:induction false} UnitsRendered(done: seq<Piece>, item: Item, k: nat, n: nat, env: Env, m: nat)
    requires m <= item.qtyOrdered
    ensures Render(done + MultiPieces(item, k, n, env, m)) == UnitsText(Render(done), item, k, n, env, m)
  {
    if m == 0 {
      MultiStart(done, item, k, n, env);
    } else {
      var before := Render(done);
      UnitsRendered(done, item, k, n, env, m - 1);
      MultiStep(done, item, k, n, env, m);
      if m != item.qtyOrdered || k != n - 1 {
        assert UnitsText(before, item, k, n, env, m)
          == UnitsText(before, item, k, n, env, m - 1) + SegmentText(item, env) + " | ";
      } else {
        assert UnitsText(before, item, k, n, env, m)
          == UnitsText(before, item, k, n, env, m - 1) + SegmentText(item, env);
      }
    }
  }

  /** The text one item adds to the item loop's text, under the source's rule. */
  function ItemText(before: string, item: Item, k: nat, n: nat, env: Env): string {
    if item.qtyOrdered > 1 then UnitsText(before, item, k, n, env, item.qtyOrdered)
    else if SingleSeparator(AsWritten, k, n) then before + SegmentText(item, env) + " | "
    else before + SegmentText(item, env)
  }

  /** Rendering one more item's pieces appends that item's text. */
  lemma ItemRendered(done: seq<Piece>, item: Item, k: nat, n: nat, env: Env)
    ensures Render(done + ItemPieces(AsWritten, item, k, n, env)) == ItemText(Render(done), item, k, n, env)
  {
    if item.qtyOrdered > 1 {
      assert ItemPieces(AsWritten, item, k, n, env) == MultiPieces(item, k, n, env, item.qtyOrdered);
      UnitsRendered(done, item, k, n, env, item.qtyOrdered);
    } else {
      SingleStep(done, item, k, n, env);
    }
  }

  /** The text of the item loop is the rendering of the pieces of the same items. */
  lemma {:induction false} ItemsRendered(items: seq<Item>, env: Env, k: nat)
    requires k <= |items|
    ensures Render(Pieces(AsWritten, items, env, k)) == ItemsText(items, env, k)
  {
    if k > 0 {
      var done := Pieces(AsWritten, items, env, k - 1);
      ItemsRendered(items, env, k - 1);
      assert Pieces(AsWritten, items, env, k) == done + ItemPieces(AsWritten, items[k - 1], k - 1, |items|, env);
      ItemRendered(done, items[k - 1], k - 1, |items|, env);
    }
  }

  /** The shipping amount as the block reads it back: rounded to cents. */
  function RoundedShipping(order: Order): real {
    RoundCents(order.shippingInclTax) as real / 100.0
  }

  /** Rounding moves the shipping amount by at most half a cent. */
  lemma ShippingRounding(order: Order)
    ensures -0.005 <= RoundedShipping(order) - order.shippingInclTax <= 0.005
  {
    RoundCentsBounds(order.shippingInclTax);
  }

  /**
   * The inputs the serialiser derives from an order and the configured event
   * id. Without items the shipping split divides by zero; under PHP 7 that
   * only warns, and no item ever reads the ratio, so it is taken as 0.
   */
  function OrderEnv(order: Order, eventId: string): Env {
    var n := |order.visibleItems|;
    Env(eventId, order.couponCode, if n == 0 then 0.0 else RoundedShipping(order) / n as real)
  }

  /** The pieces of the tracking string the block writes for `order`. */
  function ItemDataPieces(order: Order, eventId: string): seq<Piece> {
    Pieces(AsWritten, order.visibleItems, OrderEnv(order, eventId), |order.visibleItems|)
  }

  // ---------------------------------------------------------------------
  // Segments: one per unit, in item order.

  function Repeat<T>(x: T, m: nat): (r: seq<T>)
    ensures |r| == m
  {
    if m == 0 then [] else [x] + Repeat(x, m - 1)
  }

  lemma {:induction false} RepeatSnoc<T>(x: T, m: nat)
    requires m > 0
    ensures Repeat(x, m) == Repeat(x, m - 1) + [x]
  {
    if m > 1 {
      RepeatSnoc(x, m - 1);
      assert [x] + (Repeat(x, m - 2) + [x]) == ([x] + Repeat(x, m - 2)) + [x];
    }
  }

  /** One record per purchased unit, in the order of the items. */
  function Expand(items: seq<Item>): seq<Item> {
    if items == [] then [] else Repeat(items[0], Units(items[0])) + Expand(items[1..])
  }

  lemma {:induction false} ExpandAppend(a: seq<Item>, b: seq<Item>)
    ensures Expand(a + b) == Expand(a) + Expand(b)
  {
    if a == [] {
      assert a + b == b;
    } else {
      assert (a + b)[1..] == a[1..] + b;
      ExpandAppend(a[1..], b);
    }
  }

  lemma ExpandStep(items: seq<Item>, k: nat)
    requires 0 < k <= |items|
    ensures Expand(items[..k]) == Expand(items[..k - 1]) + Repeat(items[k - 1], Units(items[k - 1]))
  {
    var last := [items[k - 1]];
    assert items[..k] == items[..k - 1] + last;
    ExpandAppend(items[..k - 1], last);
    assert last[1..] == [];
  }

  function TotalUnits(items: seq<Item>): nat {
    if items == [] then 0 else Units(items[0]) + TotalUnits(items[1..])
  }

  lemma {:induction false} ExpandLength(items: seq<Item>)
    ensures |Expand(items)| == TotalUnits(items)
  {
    if items != [] {
      ExpandLength(items[1..]);
    }
  }

  /** The segment fields of a run of units. */
  function AllFields(units: seq<Item>, env: Env): (r: seq<seq<string>>)
    ensures |r| == |units|
  {
    if units == [] then [] else [UnitFields(units[0], env)] + AllFields(units[1..], env)
  }

  lemma {:induction false} AllFieldsAppend(a: seq<Item>, b: seq<Item>, env: Env)
    ensures AllFields(a + b, env) == AllFields(a, env) + AllFields(b, env)
  {
    if a == [] {
      assert a + b == b;
    } else {
      assert (a + b)[1..] == a[1..] + b;
      AllFieldsAppend(a[1..], b, env);
    }
  }

  lemma {:induction false} AllFieldsRepeat(item: Item, m: nat, env: Env)
    ensures AllFields(Repeat(item, m), env) == Repeat(UnitFields(item, env), m)
  {
    if m > 0 {
      AllFieldsRepeat(item, m - 1, env);
    }
  }

  lemma {:induction false} AllFieldsIndex(units: seq<Item>, env: Env, j: nat)
    requires j < |units|
    ensures AllFields(units, env)[j] == UnitFields(units[j], env)
  {
    if j > 0 {
      AllFieldsIndex(units[1..], env, j - 1);
    }
  }

  /** The segments' fields in a run of pieces, separators dropped. */
  function SegmentsOf(ps: seq<Piece>): seq<seq<string>> {
    if ps == [] then []
    else if ps[0].Segment? then [ps[0].fields] + SegmentsOf(ps[1..])
    else SegmentsOf(ps[1..])
  }

  function CountSeparators(ps: seq<Piece>): nat {
    if ps == [] then 0 else (if ps[0].Separator? then 1 else 0) + CountSeparators(ps[1..])
  }

  lemma {:induction false} SegmentsAppend(a: seq<Piece>, b: seq<Piece>)
    ensures SegmentsOf(a + b) == SegmentsOf(a) + SegmentsOf(b)
  {
    if a == [] {
      assert a + b == b;
    } else {
      assert (a + b)[1..] == a[1..] + b;
      SegmentsAppend(a[1..], b);
      if a[0].Segment? {
        assert [a[0].fields] + (SegmentsOf(a[1..]) + SegmentsOf(b)) == ([a[0].fields] + SegmentsOf(a[1..])) + SegmentsOf(b);
      }
    }
  }

  lemma {:induction false} CountAppend(a: seq<Piece>, b: seq<Piece>)
    ensures CountSeparators(a + b) == CountSeparators(a) + CountSeparators(b)
  {
    if a == [] {
      assert a + b == b;
    } else {
      assert (a + b)[1..] == a[1..] + b;
      CountAppend(a[1..], b);
    }
  }

  lemma SegmentsOne(p: Piece)
    ensures SegmentsOf([p]) == (if p.Segment? then [p.fields] else [])
    ensures CountSeparators([p]) == (if p.Separator? then 1 else 0)
  {
    assert [p][1..] == [];
  }

  lemma {:induction false} MultiSegments(item: Item, k: nat, n: nat, env: Env, m: nat)
    requires m <= item.qtyOrdered
    ensures SegmentsOf(MultiPieces(item, k, n, env, m)) == Repeat(UnitFields(item, env), m)
  {
    if m > 0 {
      var f := UnitFields(item, env);
      var prev := MultiPieces(item, k, n, env, m - 1);
      var sep: seq<Piece> := if m != item.qtyOrdered then [Separator] else if k != n - 1 then [Separator] else [];
      assert MultiPieces(item, k, n, env, m) == prev + [Segment(f)] + sep;
      MultiSegments(item, k, n, env, m - 1);
      SegmentsAppend(prev + [Segment(f)], sep);
      SegmentsAppend(prev, [Segment(f)]);
      SegmentsOne(Segment(f));
      if sep != [] {
        SegmentsOne(Separator);
      }
      RepeatSnoc(f, m);
    }
  }

  /** An item yields one segment per unit (one for a single-quantity item), all alike. */
  lemma ItemSegments(rule: Rule, item: Item, k: nat, n: nat, env: Env)
    ensures SegmentsOf(ItemPieces(rule, item, k, n, env)) == Repeat(UnitFields(item, env), Units(item))
  {
    if item.qtyOrdered > 1 {
      MultiSegments(item, k, n, env, item.qtyOrdered);
    } else {
      var sep: seq<Piece> := if SingleSeparator(rule, k, n) then [Separator] else [];
      SegmentsAppend([Segment(UnitFields(item, env))], sep);
      SegmentsOne(Segment(UnitFields(item, env)));
      if sep != [] {
        SegmentsOne(Separator);
      }
    }
  }

  /**
   * Under either separator rule, the segments are those of the units in item
   * order, and there are as many as units ordered.
   */
  lemma {:induction false} SegmentsInOrder(rule: Rule, items: seq<Item>, env: Env, k: nat)
    requires k <= |items|
    ensures SegmentsOf(Pieces(rule, items, env, k)) == AllFields(Expand(items[..k]), env)
    ensures |SegmentsOf(Pieces(rule, items, env, k))| == TotalUnits(items[..k])
  {
    ExpandLength(items[..k]);
    if k > 0 {
      var it := items[k - 1];
      SegmentsInOrder(rule, items, env, k - 1);
      SegmentsAppend(Pieces(rule, items, env, k - 1), ItemPieces(rule, it, k - 1, |items|, env));
      ItemSegments(rule, it, k - 1, |items|, env);
      ExpandStep(items, k);
      AllFieldsAppend(Expand(items[..k - 1]), Repeat(it, Units(it)), env);
      AllFieldsRepeat(it, Units(it), env);
    } else {
      assert items[..k] == [];
    }
  }

  /**
   * Segment `j` of the tracking string belongs to purchased unit `j`. It holds
   * the event id, the unit's amount, its name and SKU, and the order's coupon
   * code when the line has a discount. A unit of a multi-quantity item is
   * charged a `qty`-th of its line's discount and of the item's shipping
   * share; a single-quantity item is charged both in full. The share is the
   * shipping amount, read back rounded to cents, split evenly over the items.
   */
  lemma UnitSegment(order: Order, eventId: string, j: nat)
    requires j < |Expand(order.visibleItems)|
    ensures |SegmentsOf(ItemDataPieces(order, eventId))| == |Expand(order.visibleItems)|
    ensures var u := Expand(order.visibleItems)[j];
      var share := RoundedShipping(order) / |order.visibleItems| as real;
      var amount := if u.qtyOrdered > 1
        then u.priceInclTax - u.discountAmount / u.qtyOrdered as real + share / u.qtyOrdered as real
        else u.priceInclTax - u.discountAmount + share;
      SegmentsOf(ItemDataPieces(order, eventId))[j]
        == [eventId, NumberFormat(amount, ","), u.name, u.sku]
           + (if u.discountAmount > 0.0 then [order.couponCode] else [])
  {
    var items := order.visibleItems;
    var env := OrderEnv(order, eventId);
    assert items[..|items|] == items;
    SegmentsInOrder(AsWritten, items, env, |items|);
    AllFieldsIndex(Expand(items), env, j);
    UnitAmount(Expand(items)[j], env.shippingRatio);
  }

  /** A unit's amount, branch by branch. */
  lemma UnitAmount(u: Item, share: real)
    ensures UnitTotal(u, share)
      == if u.qtyOrdered > 1
         then u.priceInclTax - u.discountAmount / u.qtyOrdered as real + share / u.qtyOrdered as real
         else u.priceInclTax - u.discountAmount + share
  {
  }

  // ---------------------------------------------------------------------
  // Shipping: the unrounded shares add up to the rounded shipping amount.

  /** The shipping share of each unit of a run. */
  function Shares(units: seq<Item>, ratio: real): (r: seq<real>)
    ensures |r| == |units|
  {
    if units == [] then [] else [ShippingShare(units[0], ratio)] + Shares(units[1..], ratio)
  }

  function Sum(xs: seq<real>): real {
    if xs == [] then 0.0 else xs[0] + Sum(xs[1..])
  }

  lemma {:induction false} SharesAppend(a: seq<Item>, b: seq<Item>, ratio: real)
    ensures Shares(a + b, ratio) == Shares(a, ratio) + Shares(b, ratio)
  {
    if a == [] {
      assert a + b == b;
    } else {
      assert (a + b)[1..] == a[1..] + b;
      SharesAppend(a[1..], b, ratio);
    }
  }

  lemma {:induction false} SharesRepeat(item: Item, m: nat, ratio: real)
    ensures Shares(Repeat(item, m), ratio) == Repeat(ShippingShare(item, ratio), m)
  {
    if m > 0 {
      SharesRepeat(item, m - 1, ratio);
    }
  }

  lemma {:induction false} SumAppend(a: seq<real>, b: seq<real>)
    ensures Sum(a + b) == Sum(a) + Sum(b)
  {
    if a == [] {
      assert a + b == b;
    } else {
      assert (a + b)[1..] == a[1..] + b;
      SumAppend(a[1..], b);
    }
  }

  lemma {:induction false} SumRepeat(x: real, m: nat)
    ensures Sum(Repeat(x, m)) == m as real * x
  {
    if m > 0 {
      SumRepeat(x, m - 1);
    }
  }

  /** The shares of the units of one item add up to the item's share of the shipping. */
  lemma ItemSharesSum(item: Item, ratio: real)
    ensures Sum(Shares(Repeat(item, Units(item)), ratio)) == ratio
  {
    SharesRepeat(item, Units(item), ratio);
    SumRepeat(ShippingShare(item, ratio), Units(item));
    ItemShares(item, ratio);
  }

  /** The units of `k` items carry the item share `ratio` once per item. */
  lemma {:induction false} SharesPerItem(items: seq<Item>, ratio: real)
    ensures Sum(Shares(Expand(items), ratio)) == Sum(Repeat(ratio, |items|))
  {
    if items != [] {
      var it, rest := items[0], items[1..];
      SharesPerItem(rest, ratio);
      SharesAppend(Repeat(it, Units(it)), Expand(rest), ratio);
      SumAppend(Shares(Repeat(it, Units(it)), ratio), Shares(Expand(rest), ratio));
      ItemSharesSum(it, ratio);
    }
  }

  /** `n` equal parts of `total` add up to `total`. */
  lemma EvenSplit(total: real, n: nat)
    requires n > 0
    ensures Sum(Repeat(total / n as real, n)) == total
  {
    SumRepeat(total / n as real, n);
  }

  /** Shares computed from `total` split evenly over the items add up to `total`. */
  lemma SharesSumTo(items: seq<Item>, total: real)
    requires |items| > 0
    ensures Sum(Shares(Expand(items), total / |items| as real)) == total
  {
    SharesPerItem(items, total / |items| as real);
    EvenSplit(total, |items|);
  }

  /** Over the whole order the shipping shares add up to the shipping amount rounded to cents. */
  lemma ShippingSplit(order: Order, eventId: string)
    requires |order.visibleItems| > 0
    ensures Sum(Shares(Expand(order.visibleItems), OrderEnv(order, eventId).shippingRatio)) == RoundedShipping(order)
  {
    SharesSumTo(order.visibleItems, RoundedShipping(order));
  }

  // ---------------------------------------------------------------------
  // Separators.

  /** Every segment followed by a separator. */
  function Trailing(segs: seq<seq<string>>): seq<Piece> {
    if segs == [] then [] else [Segment(segs[0]), Separator] + Trailing(segs[1..])
  }

  /** The segments with a separator between each two neighbours and none at either end. */
  function Joined(segs: seq<seq<string>>): seq<Piece> {
    if segs == [] then [] else Trailing(segs[..|segs| - 1]) + [Segment(segs[|segs| - 1])]
  }

  lemma {:induction false} TrailingAppend(a: seq<seq<string>>, b: seq<seq<string>>)
    ensures Trailing(a + b) == Trailing(a) + Trailing(b)
  {
    if a == [] {
      assert a + b == b;
    } else {
      assert (a + b)[1..] == a[1..] + b;
      TrailingAppend(a[1..], b);
    }
  }

  lemma {:induction false} TrailingCount(segs: seq<seq<string>>)
    ensures SegmentsOf(Trailing(segs)) == segs
    ensures CountSeparators(Trailing(segs)) == |segs|
  {
    if segs != [] {
      var first: seq<Piece> := [Segment(segs[0]), Separator];
      TrailingCount(segs[1..]);
      SegmentsAppend(first, Trailing(segs[1..]));
      CountAppend(first, Trailing(segs[1..]));
      assert first[1..] == [Separator];
      SegmentsOne(Separator);
      assert [segs[0]] + segs[1..] == segs;
    }
  }

  /**
   * A joined run has its segments in order, one separator fewer than
   * segments, and ends with a segment.
   */
  lemma JoinedShape(segs: seq<seq<string>>)
    requires |segs| > 0
    ensures SegmentsOf(Joined(segs)) == segs
    ensures CountSeparators(Joined(segs)) == |segs| - 1
    ensures Joined(segs)[|Joined(segs)| - 1].Segment?
  {
    var init := segs[..|segs| - 1];
    TrailingCount(init);
    SegmentsAppend(Trailing(init), [Segment(segs[|segs| - 1])]);
    CountAppend(Trailing(init), [Segment(segs[|segs| - 1])]);
    SegmentsOne(Segment(segs[|segs| - 1]));
    assert init + [segs[|segs| - 1]] == segs;
  }

  lemma JoinedAppend(a: seq<seq<string>>, b: seq<seq<string>>)
    requires |b| > 0
    ensures Joined(a + b) == Trailing(a) + Joined(b)
  {
    assert (a + b)[..|a + b| - 1] == a + b[..|b| - 1];
    TrailingAppend(a, b[..|b| - 1]);
  }

  /** The units of a multi-quantity item, all but the last of the order's last item, are followed by a separator. */
  lemma {:induction false} MultiShape(item: Item, k: nat, n: nat, env: Env, m: nat)
    requires m <= item.qtyOrdered
    ensures m < item.qtyOrdered || k != n - 1 ==>
      MultiPieces(item, k, n, env, m) == Trailing(Repeat(UnitFields(item, env), m))
    ensures m == item.qtyOrdered && k == n - 1 ==>
      MultiPieces(item, k, n, env, m) == Joined(Repeat(UnitFields(item, env), m))
  {
    if m > 0 {
      var f := UnitFields(item, env);
      var prev := MultiPieces(item, k, n, env, m - 1);
      MultiShape(item, k, n, env, m - 1);
      RepeatSnoc(f, m);
      assert prev == Trailing(Repeat(f, m - 1));
      if m < item.qtyOrdered || k != n - 1 {
        assert MultiPieces(item, k, n, env, m) == prev + [Segment(f), Separator];
        TrailingAppend(Repeat(f, m - 1), [f]);
        assert Trailing([f]) == [Segment(f), Separator] by {
          assert [f][1..] == [];
        }
      } else {
        assert MultiPieces(item, k, n, env, m) == prev + [Segment(f)];
        assert Repeat(f, m)[..m - 1] == Repeat(f, m - 1);
      }
    }
  }

  /** Under the intended rule the item at index `k` ends with a separator unless it is the last. */
  lemma IntendedItemShape(item: Item, k: nat, n: nat, env: Env)
    requires k < n
    ensures k < n - 1 ==> ItemPieces(Intended, item, k, n, env) == Trailing(Repeat(UnitFields(item, env), Units(item)))
    ensures k == n - 1 ==> ItemPieces(Intended, item, k, n, env) == Joined(Repeat(UnitFields(item, env), Units(item)))
  {
    var f := UnitFields(item, env);
    if item.qtyOrdered > 1 {
      MultiShape(item, k, n, env, item.qtyOrdered);
    } else {
      assert Repeat(f, 1) == [f];
      assert [f][..0] == [];
    }
  }

  /** With the intended rule, separators stand exactly between segments. */
  lemma {:induction false} IntendedJoins(items: seq<Item>, env: Env, k: nat)
    requires 0 < k <= |items|
    ensures k < |items| ==> Pieces(Intended, items, env, k) == Trailing(AllFields(Expand(items[..k]), env))
    ensures k == |items| ==> Pieces(Intended, items, env, k) == Joined(AllFields(Expand(items), env))
  {
    var it := items[k - 1];
    var f := UnitFields(it, env);
    var before := AllFields(Expand(items[..k - 1]), env);
    if k > 1 {
      IntendedJoins(items, env, k - 1);
    } else {
      assert items[..k - 1] == [];
      assert before == [];
    }
    ExpandStep(items, k);
    AllFieldsAppend(Expand(items[..k - 1]), Repeat(it, Units(it)), env);
    AllFieldsRepeat(it, Units(it), env);
    assert AllFields(Expand(items[..k]), env) == before + Repeat(f, Units(it));
    IntendedItemShape(it, k - 1, |items|, env);
    if k < |items| {
      TrailingAppend(before, Repeat(f, Units(it)));
    } else {
      assert items[..k] == items;
      JoinedAppend(before, Repeat(f, Units(it)));
    }
  }

  /** With the intended rule there is one separator fewer than units, and none trails. */
  lemma IntendedSeparators(items: seq<Item>, env: Env)
    requires |items| > 0
    ensures CountSeparators(Pieces(Intended, items, env, |items|)) == TotalUnits(items) - 1
    ensures Pieces(Intended, items, env, |items|)[|Pieces(Intended, items, env, |items|)| - 1].Segment?
  {
    IntendedJoins(items, env, |items|);
    ExpandLength(items);
    assert |Expand(items)| > 0 by {
      SegmentsInOrder(Intended, items, env, |items|);
      assert items[..|items|] == items;
      assert Units(items[|items| - 1]) >= 1;
    }
    JoinedShape(AllFields(Expand(items), env));
  }

  predicate AllMulti(items: seq<Item>) {
    forall i :: 0 <= i < |items| ==> items[i].qtyOrdered > 1
  }

  /** The two separator rules differ only on single-quantity items. */
  lemma {:induction false} AllMultiAgree(items: seq<Item>, env: Env, k: nat)
    requires k <= |items| && AllMulti(items)
    ensures Pieces(AsWritten, items, env, k) == Pieces(Intended, items, env, k)
  {
    if k > 0 {
      var it := items[k - 1];
      AllMultiAgree(items, env, k - 1);
      assert it.qtyOrdered > 1;
      assert ItemPieces(AsWritten, it, k - 1, |items|, env) == ItemPieces(Intended, it, k - 1, |items|, env);
    }
  }

  /**
   * An order of multi-quantity items only gets one separator fewer than
   * units and no trailing separator.
   */
  lemma AllMultiSeparators(items: seq<Item>, env: Env)
    requires |items| > 0 && AllMulti(items)
    ensures CountSeparators(Pieces(AsWritten, items, env, |items|)) == TotalUnits(items) - 1
    ensures Pieces(AsWritten, items, env, |items|)[|Pieces(AsWritten, items, env, |items|)| - 1].Segment?
  {
    AllMultiAgree(items, env, |items|);
    IntendedSeparators(items, env);
  }

  /** As written, a single-quantity item is followed by a separator exactly when it is the first item. */
  lemma SingleSeparatorOnlyFirst(items: seq<Item>, env: Env, k: nat)
    requires k < |items| && items[k].qtyOrdered == 1
    ensures ItemPieces(AsWritten, items[k], k, |items|, env)[|ItemPieces(AsWritten, items[k], k, |items|, env)| - 1].Separator?
      <==> k == 0
  {
  }

  /** As written, an order of one single-quantity item ends with a trailing " | ". */
  lemma LoneSingleTrailing(item: Item, eventId: string, coupon: string, shipping: real)
    requires item.qtyOrdered == 1
    ensures Render(Pieces(AsWritten, [item], Env(eventId, coupon, shipping), 1))
      == Render([Segment(UnitFields(item, Env(eventId, coupon, shipping)))]) + " | "
  {
    var env := Env(eventId, coupon, shipping);
    var p := Pieces(AsWritten, [item], env, 1);
    assert SingleSeparator(AsWritten, 0, 1);
    assert ItemPieces(AsWritten, item, 0, 1, env) == [Segment(UnitFields(item, env)), Separator];
    assert p == Pieces(AsWritten, [item], env, 0) + ItemPieces(AsWritten, item, 0, 1, env);
    assert p == [Segment(UnitFields(item, env)), Separator];
    assert p[1..] == [Separator];
    RenderOne(Segment(UnitFields(item, env)));
    RenderOne(Separator);
  }

  /**
   * As written, three single-quantity items get one separator: the second
   * and third segments run together.
   */
  lemma ThreeSinglesRunTogether(items: seq<Item>, env: Env)
    requires |items| == 3 && forall i :: 0 <= i < 3 ==> items[i].qtyOrdered == 1
    ensures Pieces(AsWritten, items, env, 3) ==
      [Segment(UnitFields(items[0], env)), Separator, Segment(UnitFields(items[1], env)), Segment(UnitFields(items[2], env))]
    ensures CountSeparators(Pieces(AsWritten, items, env, 3)) == 1
  {
    var p := Pieces(AsWritten, items, env, 3);
    var f0, f1, f2 := UnitFields(items[0], env), UnitFields(items[1], env), UnitFields(items[2], env);
    assert ItemPieces(AsWritten, items[0], 0, 3, env) == [Segment(f0), Separator];
    assert ItemPieces(AsWritten, items[1], 1, 3, env) == [Segment(f1)];
    assert ItemPieces(AsWritten, items[2], 2, 3, env) == [Segment(f2)];
    assert Pieces(AsWritten, items, env, 1) == [Segment(f0), Separator];
    assert Pieces(AsWritten, items, env, 2) == [Segment(f0), Separator, Segment(f1)];
    assert p == [Segment(f0), Separator, Segment(f1), Segment(f2)];
    assert p == ([Segment(f0)] + [Separator]) + ([Segment(f1)] + [Segment(f2)]);
    CountAppend([Segment(f0)] + [Separator], [Segment(f1)] + [Segment(f2)]);
    CountAppend([Segment(f0)], [Separator]);
    CountAppend([Segment(f1)], [Segment(f2)]);
    SegmentsOne(Segment(f0));
    SegmentsOne(Separator);
    SegmentsOne(Segment(f1));
    SegmentsOne(Segment(f2));
  }

  /** The as-written separators of three single-quantity items are not the intended ones. */
  lemma ThreeSinglesNotJoined(items: seq<Item>, env: Env)
    requires |items| == 3 && forall i :: 0 <= i < 3 ==> items[i].qtyOrdered == 1
    ensures Pieces(AsWritten, items, env, 3) != Pieces(Intended, items, env, 3)
  {
    ThreeSinglesRunTogether(items, env);
    IntendedSeparators(items, env);
    assert TotalUnits(items) == 3 by {
      assert items[1..][1..][1..] == [];
      assert TotalUnits(items[1..][1..]) == 1;
    }
  }
}
