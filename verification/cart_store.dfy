/**
 * The shopping-cart store of the client (frontend/src/context/CartContext.tsx).
 *
 * The cart is an ordered sequence of line items keyed by `productId`. Each
 * operation of the context is the pure function it hands to React's
 * `setItems(current => ...)`, modelled here as a function from one sequence
 * to the next. The code does not guard quantities: `AddItem` accepts any
 * quantity and `UpdateQuantity` never removes an entry, even for zero or a
 * negative number.
 */
module CartStore {
  import opened Js

  /** One line item; `image` is the optional `image?` field. */
  datatype CartItem = CartItem(
    productId: int,
    name: string,
    price: real,
    quantity: int,
    image: Option<string>,
    unit: string)

  type Cart = seq<CartItem>

  /** Some entry of the cart carries product `id`. */
  predicate Contains(items: Cart, id: int) {
    exists k :: 0 <= k < |items| && items[k].productId == id
  }

  /** No two entries share a product id: the invariant merge-on-add keeps. */
  predicate UniqueIds(items: Cart) {
    forall i, j :: 0 <= i < j < |items| ==> items[i].productId != items[j].productId
  }

  /** `findIndex(item => item.productId === id)`: the first entry with `id`, or -1. */
  function FindIndex(items: Cart, id: int): (r: int)
    ensures -1 <= r < |items|
    ensures r == -1 <==> !Contains(items, id)
    ensures r >= 0 ==> items[r].productId == id && !Contains(items[..r], id)
  {
    if |items| == 0 then -1
    else if items[0].productId == id then 0
    else
      var r := FindIndex(items[1..], id);
      assert forall k :: 0 <= k < |items| - 1 ==> items[1..][k] == items[k + 1];
      if r == -1 then -1
      else
        assert items[..r + 1] == [items[0]] + items[1..][..r];
        r + 1
  }

  /**
   * `addItem`: merges into the first entry with the same product id (its
   * quantity grows by `newItem.quantity`, every other field of that entry is
   * kept, including its price), or appends `newItem` at the end.
   */
  function AddItem(items: Cart, newItem: CartItem): (r: Cart)
    ensures !Contains(items, newItem.productId) ==> r == items + [newItem]
    ensures Contains(items, newItem.productId) ==>
      && |r| == |items|
      && forall k :: 0 <= k < |items| ==>
           r[k] == if items[k].productId == newItem.productId && !Contains(items[..k], newItem.productId)
                   then items[k].(quantity := items[k].quantity + newItem.quantity)
                   else items[k]
  {
    var i := FindIndex(items, newItem.productId);
    if i >= 0 then
      var r := items[i := items[i].(quantity := items[i].quantity + newItem.quantity)];
      assert forall k :: 0 <= k < i ==> items[..k] == items[..i][..k];
      assert forall k :: i < k < |items| ==> items[..k][i] == items[i];
      r
    else
      items + [newItem]
  }

  /** `removeItem`: keeps, in order, every entry whose product id is not `id`. */
  function RemoveItem(items: Cart, id: int): (r: Cart)
    ensures !Contains(r, id)
    ensures |r| <= |items|
    ensures Contains(items, id) ==> |r| < |items|
    ensures !Contains(items, id) ==> r == items
  {
    if |items| == 0 then []
    else
      var rest := RemoveItem(items[1..], id);
      assert forall k :: 0 < k < |items| ==> items[k] == items[1..][k - 1];
      if items[0].productId == id then rest else [items[0]] + rest
  }

  /**
   * `updateQuantity`: every entry with product id `id` gets quantity `q`,
   * whatever its sign; nothing is added, removed or reordered.
   */
  function UpdateQuantity(items: Cart, id: int, q: int): (r: Cart)
    ensures |r| == |items|
    ensures forall k :: 0 <= k < |items| ==>
      && r[k].(quantity := items[k].quantity) == items[k]
      && r[k].quantity == (if items[k].productId == id then q else items[k].quantity)
  {
    seq(|items|, k requires 0 <= k < |items| =>
      if items[k].productId == id then items[k].(quantity := q) else items[k])
  }

  /** `clearCart`. */
  function ClearCart(items: Cart): (r: Cart)
    ensures |r| == 0 && ItemCount(r) == 0
  {
    []
  }

  /** `getItemCount`: the sum of the quantities, accumulated left to right. */
  function ItemCount(items: Cart): (r: int)
    ensures (forall k :: 0 <= k < |items| ==> items[k].quantity >= 0) ==> r >= 0
  {
    if |items| == 0 then 0
    else ItemCount(items[..|items| - 1]) + items[|items| - 1].quantity
  }

  /** Price times quantity: the amount a row displays as its total. */
  function LineTotal(item: CartItem): (r: real)
    ensures item.price >= 0.0 && item.quantity >= 0 ==> r >= 0.0
    ensures item.quantity == 0 || item.price == 0.0 ==> r == 0.0
    ensures item.quantity == 1 ==> r == item.price
  {
    item.price * item.quantity as real
  }

  /** What a cart table shows for one entry: the entry and its line total. */
  datatype Row = Row(item: CartItem, total: real)

  /** The rows of a cart table, one per entry, in cart order. */
  function Rows(items: Cart): (rows: seq<Row>)
    ensures |rows| == |items|
    ensures forall k :: 0 <= k < |items| ==>
      rows[k].item == items[k] && rows[k].total == items[k].price * items[k].quantity as real
  {
    seq(|items|, k requires 0 <= k < |items| => Row(items[k], LineTotal(items[k])))
  }

  // ---------------------------------------------------------------------
  // Item count

  lemma {:induction false} ItemCountAppend(a: Cart, b: Cart)
    ensures ItemCount(a + b) == ItemCount(a) + ItemCount(b)
    decreases |b|
  {
    if |b| == 0 {
      assert a + b == a;
    } else {
      assert (a + b)[..|a + b| - 1] == a + b[..|b| - 1];
      ItemCountAppend(a, b[..|b| - 1]);
    }
  }

  lemma ItemCountSingle(x: CartItem)
    ensures ItemCount([x]) == x.quantity
  {
    assert [x][..0] == [];
  }

  /** Replacing entry `i` changes the count by the difference of the quantities. */
  lemma ItemCountReplace(items: Cart, i: int, y: CartItem)
    requires 0 <= i < |items|
    ensures ItemCount(items[i := y]) == ItemCount(items) - items[i].quantity + y.quantity
  {
    assert items == items[..i] + [items[i]] + items[i + 1..];
    assert items[i := y] == items[..i] + [y] + items[i + 1..];
    ItemCountAppend(items[..i] + [items[i]], items[i + 1..]);
    ItemCountAppend(items[..i] + [y], items[i + 1..]);
    ItemCountAppend(items[..i], [items[i]]);
    ItemCountAppend(items[..i], [y]);
    ItemCountSingle(items[i]);
    ItemCountSingle(y);
  }

  /** Adding an item raises the item count by exactly the added quantity, merged or appended. */
  lemma AddItemCount(items: Cart, newItem: CartItem)
    ensures ItemCount(AddItem(items, newItem)) == ItemCount(items) + newItem.quantity
  {
    var i := FindIndex(items, newItem.productId);
    if i >= 0 {
      var y := items[i].(quantity := items[i].quantity + newItem.quantity);
      calc {
        ItemCount(AddItem(items, newItem));
        { AddItemMergesAt(items, newItem, i); }
        ItemCount(items[i := y]);
        { ItemCountReplace(items, i, y); }
        ItemCount(items) + newItem.quantity;
      }
    } else {
      ItemCountAppend(items, [newItem]);
      ItemCountSingle(newItem);
    }
  }

  // ---------------------------------------------------------------------
  // Add

  /** Merge-on-add keeps product ids unique. */
  lemma AddItemKeepsUniqueIds(items: Cart, newItem: CartItem)
    requires UniqueIds(items)
    ensures UniqueIds(AddItem(items, newItem))
  {
    var r := AddItem(items, newItem);
    if Contains(items, newItem.productId) {
      assert forall k :: 0 <= k < |items| ==> r[k].productId == items[k].productId;
    } else {
      assert forall k :: 0 <= k < |items| ==> r[k] == items[k] && items[k].productId != newItem.productId;
    }
  }

  /** When product `i` is the first entry with the new item's id, adding rewrites exactly entry `i`. */
  lemma AddItemMergesAt(items: Cart, newItem: CartItem, i: int)
    requires 0 <= i < |items| && items[i].productId == newItem.productId
    requires !Contains(items[..i], newItem.productId)
    ensures AddItem(items, newItem) == items[i := items[i].(quantity := items[i].quantity + newItem.quantity)]
  {
    var y := items[i].(quantity := items[i].quantity + newItem.quantity);
    var r := AddItem(items, newItem);
    forall k | 0 <= k < |items|
      ensures r[k] == items[i := y][k]
    {
      if k > i {
        assert items[..k][i] == items[i];
      }
    }
  }

  /** After adding, the cart holds the product. */
  lemma AddItemHoldsProduct(items: Cart, newItem: CartItem)
    ensures Contains(AddItem(items, newItem), newItem.productId)
  {
    var r := AddItem(items, newItem);
    var i := FindIndex(items, newItem.productId);
    if i >= 0 {
      assert r[i].productId == newItem.productId;
    } else {
      assert r[|items|] == newItem;
    }
  }

  /** Adding the items of `adds` one after another. */
  function AddAll(items: Cart, adds: seq<CartItem>): (r: Cart)
    decreases |adds|
  {
    if |adds| == 0 then items else AddItem(AddAll(items, adds[..|adds| - 1]), adds[|adds| - 1])
  }

  /**
   * Repeatedly adding one product to a cart that lacks it leaves exactly one
   * entry for it, whose quantity is the sum of every quantity added. The
   * cart's other entries need not have unique ids.
   */
  lemma {:induction false} RepeatedAddsMerge(items: Cart, adds: seq<CartItem>, id: int)
    requires !Contains(items, id) && |adds| > 0
    requires forall k :: 0 <= k < |adds| ==> adds[k].productId == id
    ensures |AddAll(items, adds)| == |items| + 1
    ensures AddAll(items, adds)[|items|].productId == id
    ensures AddAll(items, adds)[|items|].quantity == ItemCount(adds)
    ensures AddAll(items, adds)[..|items|] == items
    decreases |adds|
  {
    var last := adds[|adds| - 1];
    var prefix := adds[..|adds| - 1];
    if |prefix| == 0 {
      assert AddAll(items, prefix) == items;
      assert !Contains(items, last.productId);
    } else {
      RepeatedAddsMerge(items, prefix, id);
      var before := AddAll(items, prefix);
      AddItemMergesAt(before, last, |items|);
      var r := AddItem(before, last);
      assert r[..|items|] == before[..|items|];
    }
  }

  /** Repeated adds of a product the cart lacks keep product ids unique. */
  lemma RepeatedAddsKeepUniqueIds(items: Cart, adds: seq<CartItem>, id: int)
    requires UniqueIds(items) && !Contains(items, id) && |adds| > 0
    requires forall k :: 0 <= k < |adds| ==> adds[k].productId == id
    ensures UniqueIds(AddAll(items, adds))
  {
    RepeatedAddsMerge(items, adds, id);
    var r := AddAll(items, adds);
    forall i, j | 0 <= i < j < |r|
      ensures r[i].productId != r[j].productId
    {
      assert r[i] == r[..|items|][i];
      if j < |items| {
        assert r[j] == r[..|items|][j];
      }
    }
  }

  // ---------------------------------------------------------------------
  // Remove

  /** The entries kept are exactly the entries of other products. */
  lemma {:induction false} RemoveItemMembers(items: Cart, id: int)
    ensures forall x :: x in RemoveItem(items, id) <==> x in items && x.productId != id
    decreases |items|
  {
    if |items| > 0 {
      RemoveItemMembers(items[1..], id);
      assert forall x :: x in items <==> x == items[0] || x in items[1..];
    }
  }

  /** Removing distributes over concatenation: the order of the kept entries is the original one. */
  lemma {:induction false} RemoveItemAppend(a: Cart, b: Cart, id: int)
    ensures RemoveItem(a + b, id) == RemoveItem(a, id) + RemoveItem(b, id)
    decreases |a|
  {
    if |a| == 0 {
      assert a + b == b;
    } else {
      assert (a + b)[1..] == a[1..] + b;
      RemoveItemAppend(a[1..], b, id);
    }
  }

  /** With unique ids, entry i's product occurs neither before nor after it. */
  lemma UniqueIdsIsolate(items: Cart, i: int)
    requires UniqueIds(items) && 0 <= i < |items|
    ensures !Contains(items[..i], items[i].productId)
    ensures !Contains(items[i + 1..], items[i].productId)
  {
    var id := items[i].productId;
    var before, after := items[..i], items[i + 1..];
    forall k | 0 <= k < |before|
      ensures before[k].productId != id
    {
      assert before[k] == items[k];
    }
    forall k | 0 <= k < |after|
      ensures after[k].productId != id
    {
      assert after[k] == items[i + 1 + k];
    }
  }

  /** Removing the one entry of a product that occurs nowhere else closes the gap. */
  lemma RemoveItemSplit(before: Cart, x: CartItem, after: Cart)
    requires !Contains(before, x.productId) && !Contains(after, x.productId)
    ensures RemoveItem(before + [x] + after, x.productId) == before + after
  {
    var id := x.productId;
    assert RemoveItem([x], id) == [] by {
      assert [x][1..] == [];
    }
    RemoveItemAppend(before + [x], after, id);
    RemoveItemAppend(before, [x], id);
  }

  /** With unique ids, removing a present product deletes exactly its entry and closes the gap. */
  lemma RemoveItemUnique(items: Cart, i: int)
    requires UniqueIds(items) && 0 <= i < |items|
    ensures RemoveItem(items, items[i].productId) == items[..i] + items[i + 1..]
  {
    UniqueIdsIsolate(items, i);
    assert items == items[..i] + [items[i]] + items[i + 1..];
    RemoveItemSplit(items[..i], items[i], items[i + 1..]);
  }

  /** Removing the same product twice is removing it once. */
  lemma RemoveItemIdempotent(items: Cart, id: int)
    ensures RemoveItem(RemoveItem(items, id), id) == RemoveItem(items, id)
  {
  }

  /** Removal preserves unique ids. */
  lemma {:induction false} RemoveItemKeepsUniqueIds(items: Cart, id: int)
    requires UniqueIds(items)
    ensures UniqueIds(RemoveItem(items, id))
    decreases |items|
  {
    if |items| > 0 {
      var tail := items[1..];
      forall a, b | 0 <= a < b < |tail|
        ensures tail[a].productId != tail[b].productId
      {
        assert tail[a] == items[a + 1] && tail[b] == items[b + 1];
      }
      RemoveItemKeepsUniqueIds(tail, id);
      var rest := RemoveItem(tail, id);
      RemoveItemMembers(tail, id);
      if items[0].productId != id {
        var r := [items[0]] + rest;
        forall j | 0 <= j < |rest|
          ensures rest[j].productId != items[0].productId
        {
          assert rest[j] in tail;
          var m :| 0 <= m < |tail| && tail[m] == rest[j];
          assert tail[m] == items[m + 1];
        }
        forall a, b | 0 <= a < b < |r|
          ensures r[a].productId != r[b].productId
        {
          assert r[b] == rest[b - 1];
          if a > 0 {
            assert r[a] == rest[a - 1];
          }
        }
      }
    }
  }

  // ---------------------------------------------------------------------
  // Update

  /** A quantity update never deletes an entry, not even to zero or below. */
  lemma UpdateQuantityKeepsEntries(items: Cart, id: int, q: int)
    ensures forall k :: 0 <= k < |items| ==> UpdateQuantity(items, id, q)[k].productId == items[k].productId
    ensures Contains(items, id) <==> Contains(UpdateQuantity(items, id, q), id)
  {
    var r := UpdateQuantity(items, id, q);
    assert forall k :: 0 <= k < |items| ==> r[k].productId == items[k].productId;
  }

  /** Updating to 0 is not removal: the entry stays, with quantity 0. */
  lemma UpdateToZeroIsNotRemoval(items: Cart, id: int)
    requires Contains(items, id)
    ensures UpdateQuantity(items, id, 0) != RemoveItem(items, id)
  {
    UpdateQuantityKeepsEntries(items, id, 0);
  }

  /** The last update wins: two updates of one product equal the second alone. */
  lemma UpdateQuantityLastWins(items: Cart, id: int, p: int, q: int)
    ensures UpdateQuantity(UpdateQuantity(items, id, p), id, q) == UpdateQuantity(items, id, q)
  {
    var a := UpdateQuantity(UpdateQuantity(items, id, p), id, q);
    var b := UpdateQuantity(items, id, q);
    assert forall k :: 0 <= k < |items| ==> a[k] == b[k];
  }

  /** With unique ids, an update of a present product rewrites that one entry. */
  lemma UpdateQuantityUnique(items: Cart, i: int, q: int)
    requires UniqueIds(items) && 0 <= i < |items|
    ensures UpdateQuantity(items, items[i].productId, q) == items[i := items[i].(quantity := q)]
    ensures ItemCount(UpdateQuantity(items, items[i].productId, q)) == ItemCount(items) - items[i].quantity + q
  {
    var r := UpdateQuantity(items, items[i].productId, q);
    assert forall k :: 0 <= k < |items| ==> r[k] == items[i := items[i].(quantity := q)][k];
    ItemCountReplace(items, i, items[i].(quantity := q));
  }

  /** A quantity update preserves unique ids. */
  lemma UpdateQuantityKeepsUniqueIds(items: Cart, id: int, q: int)
    requires UniqueIds(items)
    ensures UniqueIds(UpdateQuantity(items, id, q))
  {
    UpdateQuantityKeepsEntries(items, id, q);
  }
}
