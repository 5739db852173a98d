/**
 * The cart table of frontend/src/components/Cart.tsx: its "+", "-" and
 * Remove buttons are calls into the store with the row's own product id,
 * and the page is either the empty-cart notice or one row per entry.
 *
 * A row is addressed by its index `i` in the items it was rendered from.
 */
module CartView {
  import opened CartStore

  /**
   * The "+" button: `updateQuantity(item.productId, item.quantity + 1)`.
   * The row's quantity grows by one; rows of other products are untouched.
   */
  function Increase(items: Cart, i: int): (r: Cart)
    requires 0 <= i < |items|
    ensures |r| == |items|
    ensures r[i].quantity == items[i].quantity + 1
    ensures r[i].(quantity := items[i].quantity) == items[i]
    ensures forall k :: 0 <= k < |items| && items[k].productId != items[i].productId ==> r[k] == items[k]
  {
    UpdateQuantity(items, items[i].productId, items[i].quantity + 1)
  }

  /**
   * The "-" button: `updateQuantity(item.productId, item.quantity - 1)`,
   * with no lower bound; rows of other products are untouched.
   */
  function Decrease(items: Cart, i: int): (r: Cart)
    requires 0 <= i < |items|
    ensures |r| == |items|
    ensures r[i].quantity == items[i].quantity - 1
    ensures r[i].(quantity := items[i].quantity) == items[i]
    ensures forall k :: 0 <= k < |items| && items[k].productId != items[i].productId ==> r[k] == items[k]
  {
    UpdateQuantity(items, items[i].productId, items[i].quantity - 1)
  }

  /** The Remove button: `removeItem(item.productId)`; the cart gets shorter. */
  function RemoveRow(items: Cart, i: int): (r: Cart)
    requires 0 <= i < |items|
    ensures !Contains(r, items[i].productId)
    ensures |r| < |items|
  {
    RemoveItem(items, items[i].productId)
  }

  /** The two shapes of the page. */
  datatype Screen = EmptyCart | CartTable(rows: seq<Row>)

  /** Rendering: the empty notice for an empty cart, otherwise a row per entry with its total. */
  function Render(items: Cart): (v: Screen)
    ensures v.EmptyCart? <==> |items| == 0
    ensures v.CartTable? ==> |v.rows| == |items| && forall k :: 0 <= k < |items| ==>
      v.rows[k].item == items[k] && v.rows[k].total == items[k].price * items[k].quantity as real
  {
    if |items| == 0 then EmptyCart else CartTable(Rows(items))
  }

  /** With unique ids, "+" changes that one row and nothing else. */
  lemma IncreaseChangesOnlyRow(items: Cart, i: int)
    requires UniqueIds(items) && 0 <= i < |items|
    ensures Increase(items, i) == items[i := items[i].(quantity := items[i].quantity + 1)]
  {
    UpdateQuantityUnique(items, i, items[i].quantity + 1);
  }

  /** Pressing "+" then "-" on the same row gives back the original cart. */
  lemma IncreaseThenDecrease(items: Cart, i: int)
    requires UniqueIds(items) && 0 <= i < |items|
    ensures Decrease(Increase(items, i), i) == items
  {
    var up := Increase(items, i);
    IncreaseChangesOnlyRow(items, i);
    UpdateQuantityKeepsUniqueIds(items, items[i].productId, items[i].quantity + 1);
    UpdateQuantityUnique(up, i, up[i].quantity - 1);
  }

  /** With unique ids, Remove deletes exactly that row and keeps the others in order. */
  lemma RemoveRowDeletesRow(items: Cart, i: int)
    requires UniqueIds(items) && 0 <= i < |items|
    ensures RemoveRow(items, i) == items[..i] + items[i + 1..]
  {
    RemoveItemUnique(items, i);
  }

  /** Pressing "-" on a row of quantity 1 keeps the row, now with quantity 0. */
  lemma DecreaseFromOneKeepsRow(items: Cart, i: int)
    requires 0 <= i < |items| && items[i].quantity == 1
    ensures |Decrease(items, i)| == |items|
    ensures Decrease(items, i)[i].quantity == 0
    ensures Decrease(items, i)[i].productId == items[i].productId
    ensures Contains(Decrease(items, i), items[i].productId)
  {
    var r := Decrease(items, i);
    assert r[i].productId == items[i].productId;
  }
}
