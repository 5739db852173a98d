/**
 * The order summary of frontend/src/components/entity/cart/CartPage.tsx:
 * the subtotal of the line totals, a 5 percent discount, a fixed shipping
 * charge of 10, and the quantity input that falls back to 1 when the text
 * parses to 0 or NaN (`parseInt(value) || 1`).
 */
module CartPage {
  import opened Js
  import opened CartStore

  /** `discount`: the percentage taken off the subtotal. */
  const DiscountPercent: real := 5.0

  /** `shippingCost`: a fixed charge added to every order. */
  const ShippingCost: real := 10.0

  /** `subtotal`: the line totals summed left to right. */
  function Subtotal(items: Cart): (r: real)
    ensures (forall k :: 0 <= k < |items| ==> items[k].price >= 0.0 && items[k].quantity >= 0) ==> r >= 0.0
  {
    if |items| == 0 then 0.0
    else Subtotal(items[..|items| - 1]) + LineTotal(items[|items| - 1])
  }

  /** `discountAmount`: 5 percent of the subtotal, never more than the subtotal itself. */
  function DiscountAmount(subtotal: real): (r: real)
    ensures r * 20.0 == subtotal
    ensures subtotal >= 0.0 ==> 0.0 <= r <= subtotal
  {
    (subtotal * DiscountPercent) / 100.0
  }

  /** `grandTotal`: the subtotal less the discount plus shipping, which is 95 percent of it plus 10. */
  function GrandTotal(subtotal: real): (r: real)
    ensures r == subtotal * 0.95 + 10.0
    ensures subtotal >= 0.0 ==> ShippingCost <= r <= subtotal + ShippingCost
  {
    subtotal - DiscountAmount(subtotal) + ShippingCost
  }

  /**
   * The quantity input: `parseInt(value) || 1`. The falsy results 0 and NaN
   * become 1; every other integer, negative ones included, passes through.
   */
  function QuantityFromInput(parsed: Number<int>): (q: int)
    ensures q != 0
    ensures parsed == NaN || parsed == Num(0) ==> q == 1
    ensures parsed.Num? && parsed.value != 0 ==> q == parsed.value
  {
    match parsed
    case NaN => 1
    case Num(n) => if n == 0 then 1 else n
  }

  /** Editing the quantity input of row `i`: `updateQuantity(item.productId, newQuantity)`. */
  function ChangeQuantity(items: Cart, i: int, parsed: Number<int>): (r: Cart)
    requires 0 <= i < |items|
    ensures |r| == |items|
    ensures r[i].quantity == QuantityFromInput(parsed) && r[i].quantity != 0
    ensures r[i].(quantity := items[i].quantity) == items[i]
    ensures forall k :: 0 <= k < |items| && items[k].productId != items[i].productId ==> r[k] == items[k]
  {
    UpdateQuantity(items, items[i].productId, QuantityFromInput(parsed))
  }

  /** The order summary panel. */
  datatype Summary = Summary(subtotal: real, discount: real, shipping: real, grandTotal: real)

  /** The two shapes of the page. */
  datatype Page = EmptyPage | CartSummary(rows: seq<Row>, summary: Summary)

  /** Rendering: the empty view for an empty cart, otherwise the rows and the summary. */
  function Render(items: Cart): (p: Page)
    ensures p.EmptyPage? <==> |items| == 0
    ensures p.CartSummary? ==>
      && |p.rows| == |items|
      && (forall k :: 0 <= k < |items| ==>
            p.rows[k].item == items[k] && p.rows[k].total == items[k].price * items[k].quantity as real)
      && p.summary.subtotal == Subtotal(items)
      && p.summary.shipping == 10.0
      && p.summary.discount * 20.0 == p.summary.subtotal
      && p.summary.grandTotal == p.summary.subtotal * 0.95 + 10.0
  {
    if |items| == 0 then EmptyPage
    else
      var subtotal := Subtotal(items);
      CartSummary(Rows(items), Summary(subtotal, DiscountAmount(subtotal), ShippingCost, GrandTotal(subtotal)))
  }

  // ---------------------------------------------------------------------
  // Subtotal

  lemma {:induction false} SubtotalAppend(a: Cart, b: Cart)
    ensures Subtotal(a + b) == Subtotal(a) + Subtotal(b)
    decreases |b|
  {
    if |b| == 0 {
      assert a + b == a;
    } else {
      assert (a + b)[..|a + b| - 1] == a + b[..|b| - 1];
      SubtotalAppend(a, b[..|b| - 1]);
    }
  }

  /** The subtotal is the sum of the totals the rows display. */
  lemma {:induction false} SubtotalIsSumOfRows(items: Cart)
    ensures Subtotal(items) == SumOfRowTotals(Rows(items))
    decreases |items|
  {
    if |items| > 0 {
      var init := items[..|items| - 1];
      SubtotalIsSumOfRows(init);
      assert Rows(items)[..|items| - 1] == Rows(init);
    }
  }

  /** Sum of the `total` column of a table. */
  function SumOfRowTotals(rows: seq<Row>): (r: real) {
    if |rows| == 0 then 0.0 else SumOfRowTotals(rows[..|rows| - 1]) + rows[|rows| - 1].total
  }

  /** The subtotal of an empty cart is 0, so its grand total is just shipping. */
  lemma EmptyCartTotals()
    ensures Subtotal([]) == 0.0 && DiscountAmount(Subtotal([])) == 0.0 && GrandTotal(Subtotal([])) == ShippingCost
  {
  }

  /** Replacing entry `i` changes the subtotal by the difference of the line totals. */
  lemma SubtotalReplace(items: Cart, i: int, y: CartItem)
    requires 0 <= i < |items|
    ensures Subtotal(items[i := y]) == Subtotal(items) - LineTotal(items[i]) + LineTotal(y)
  {
    assert items == items[..i] + [items[i]] + items[i + 1..];
    assert items[i := y] == items[..i] + [y] + items[i + 1..];
    SubtotalAppend(items[..i] + [items[i]], items[i + 1..]);
    SubtotalAppend(items[..i] + [y], items[i + 1..]);
    SubtotalAppend(items[..i], [items[i]]);
    SubtotalAppend(items[..i], [y]);
    assert [items[i]][..0] == [] && [y][..0] == [];
  }

  /**
   * Adding a product already in the cart raises the subtotal by the added
   * quantity at the price the cart already holds: the new item's price is
   * ignored.
   */
  lemma AddItemSubtotalMerged(items: Cart, newItem: CartItem, i: int)
    requires 0 <= i < |items| && items[i].productId == newItem.productId
    requires !Contains(items[..i], newItem.productId)
    ensures Subtotal(AddItem(items, newItem)) == Subtotal(items) + items[i].price * newItem.quantity as real
  {
    var y := items[i].(quantity := items[i].quantity + newItem.quantity);
    calc {
      Subtotal(AddItem(items, newItem));
      { AddItemMergesAt(items, newItem, i); }
      Subtotal(items[i := y]);
      { SubtotalReplace(items, i, y); }
      Subtotal(items) - LineTotal(items[i]) + LineTotal(y);
      { LineTotalMerge(items[i], newItem.quantity); }
      Subtotal(items) + items[i].price * newItem.quantity as real;
    }
  }

  /** Adding a new product raises the subtotal by its own line total. */
  lemma AddItemSubtotalAppended(items: Cart, newItem: CartItem)
    requires !Contains(items, newItem.productId)
    ensures Subtotal(AddItem(items, newItem)) == Subtotal(items) + newItem.price * newItem.quantity as real
  {
    var r := AddItem(items, newItem);
    assert r == items + [newItem];
    assert r[..|r| - 1] == items;
    assert LineTotal(newItem) == newItem.price * newItem.quantity as real;
  }

  /** Raising a quantity by `n` raises the line total by `n` units at the entry's price. */
  lemma LineTotalMerge(x: CartItem, n: int)
    ensures LineTotal(x.(quantity := x.quantity + n)) == LineTotal(x) + x.price * n as real
  {
    assert x.price * (x.quantity as real + n as real) == x.price * x.quantity as real + x.price * n as real;
  }

  /**
   * A worked session: adding 2 widgets at 9.99, then 3 more, gives one row
   * of 5 and a subtotal of 49.95; setting its quantity to 0 then keeps the
   * row, so the cart is not empty although its item count is 0.
   */
  lemma WidgetSession(widget: CartItem)
    requires widget.productId == 1 && widget.price == 9.99
    ensures var once := AddItem([], widget.(quantity := 2));
      ItemCount(once) == 2 && Subtotal(once) == 19.98
    ensures var twice := AddItem(AddItem([], widget.(quantity := 2)), widget.(quantity := 3));
      |twice| == 1 && twice[0].quantity == 5 && ItemCount(twice) == 5 && Subtotal(twice) == 49.95
    ensures var zeroed := UpdateQuantity(AddItem(AddItem([], widget.(quantity := 2)), widget.(quantity := 3)), 1, 0);
      |zeroed| == 1 && ItemCount(zeroed) == 0 && Subtotal(zeroed) == 0.0
  {
    var once := AddItem([], widget.(quantity := 2));
    assert once == [widget.(quantity := 2)];
    assert once[..0] == [];
    var twice := AddItem(once, widget.(quantity := 3));
    assert twice == [widget.(quantity := 5)] by {
      AddItemMergesAt(once, widget.(quantity := 3), 0);
    }
    assert twice[..0] == [];
    var zeroed := UpdateQuantity(twice, 1, 0);
    assert zeroed == [widget.(quantity := 0)];
    assert zeroed[..0] == [];
  }

  /** A zero or NaN entry in the quantity input sets quantity 1; a negative one is kept. */
  lemma QuantityInputExamples(items: Cart, i: int)
    requires 0 <= i < |items|
    ensures ChangeQuantity(items, i, Num(0))[i].quantity == 1
    ensures ChangeQuantity(items, i, NaN)[i].quantity == 1
    ensures ChangeQuantity(items, i, Num(-3))[i].quantity == -3
  {
  }
}
