/**
 * The two effects of the cart provider (frontend/src/context/CartContext.tsx):
 * on mount the cart is loaded from the `cart` slot of local storage, and
 * whenever the items change they are written back to that slot.
 *
 * Local storage is one slot holding an optional string. JSON is abstracted
 * as a codec: `encode` stands for `JSON.stringify` and `decode` for
 * `JSON.parse`, whose `None` is the exception it throws on malformed text.
 */
module CartPersistence {
  import opened Js
  import opened CartStore

  /** The `cart` entry of local storage: absent, or a string. */
  type Slot = Option<string>

  /** The serialisation the provider uses. */
  datatype Codec = Codec(encode: Cart -> string, decode: string -> Option<Cart>)

  /** The provider's state: the items and what the slot holds. */
  datatype Store = Store(items: Cart, slot: Slot)

  /** A user-level operation of the context. */
  datatype Action =
    | Add(item: CartItem)
    | Remove(productId: int)
    | SetQuantity(productId: int, quantity: int)
    | Clear

  /** The slot holds exactly the encoding of the current items. */
  predicate Mirrors(s: Store, codec: Codec) {
    s.slot == Some(codec.encode(s.items))
  }

  /**
   * The load effect applied to the initial empty cart: a missing or empty
   * (falsy) slot and a slot that does not parse both leave the cart empty;
   * otherwise the parsed cart is adopted as it is.
   */
  function Load(slot: Slot, codec: Codec): (r: Cart)
    ensures slot == None || slot == Some("") ==> r == []
    ensures slot.Some? && slot.value != "" && codec.decode(slot.value).None? ==> r == []
    ensures slot.Some? && slot.value != "" && codec.decode(slot.value).Some? ==>
      r == codec.decode(slot.value).value
  {
    match slot
    case None => []
    case Some(text) =>
      if text == "" then []
      else
        match codec.decode(text)
        case None => []
        case Some(parsed) => parsed
  }

  /**
   * Mounting the provider: the load effect runs, then the save effect writes
   * the items, so afterwards the slot mirrors whatever was loaded.
   */
  function Mount(slot: Slot, codec: Codec): (s: Store)
    ensures Mirrors(s, codec)
    ensures s.items == Load(slot, codec)
  {
    var items := Load(slot, codec);
    Store(items, Some(codec.encode(items)))
  }

  /** The transition an action hands to `setItems`. */
  function Apply(items: Cart, a: Action): (r: Cart) {
    match a
    case Add(item) => AddItem(items, item)
    case Remove(id) => RemoveItem(items, id)
    case SetQuantity(id, q) => UpdateQuantity(items, id, q)
    case Clear => ClearCart(items)
  }

  /** One action followed by the save effect it triggers. */
  function Dispatch(s: Store, a: Action, codec: Codec): (r: Store)
    ensures r.items == Apply(s.items, a)
    ensures Mirrors(r, codec)
    ensures a.Clear? ==> r.items == [] && r.slot == Some(codec.encode([]))
  {
    var items := Apply(s.items, a);
    Store(items, Some(codec.encode(items)))
  }

  /** A session: actions dispatched in order. */
  function Run(s: Store, actions: seq<Action>, codec: Codec): (r: Store)
    decreases |actions|
  {
    if |actions| == 0 then s else Run(Dispatch(s, actions[0], codec), actions[1..], codec)
  }

  /** After mount and any number of actions the slot still mirrors the items. */
  lemma {:induction false} RunMirrors(s: Store, actions: seq<Action>, codec: Codec)
    requires Mirrors(s, codec)
    ensures Mirrors(Run(s, actions, codec), codec)
    decreases |actions|
  {
    if |actions| > 0 {
      RunMirrors(Dispatch(s, actions[0], codec), actions[1..], codec);
    }
  }

  /** Every action keeps product ids unique. */
  lemma ApplyKeepsUniqueIds(items: Cart, a: Action)
    requires UniqueIds(items)
    ensures UniqueIds(Apply(items, a))
  {
    match a
    case Add(item) => AddItemKeepsUniqueIds(items, item);
    case Remove(id) => RemoveItemKeepsUniqueIds(items, id);
    case SetQuantity(id, q) => UpdateQuantityKeepsUniqueIds(items, id, q);
    case Clear =>
  }

  /** A session started from a cart with unique product ids keeps them unique. */
  lemma {:induction false} RunKeepsUniqueIds(s: Store, actions: seq<Action>, codec: Codec)
    requires UniqueIds(s.items)
    ensures UniqueIds(Run(s, actions, codec).items)
    decreases |actions|
  {
    if |actions| > 0 {
      ApplyKeepsUniqueIds(s.items, actions[0]);
      RunKeepsUniqueIds(Dispatch(s, actions[0], codec), actions[1..], codec);
    }
  }

  /**
   * Reload round trip: when the codec reads back what it wrote for these
   * items, mounting again from the slot restores exactly the same items
   * and therefore the same item count.
   */
  lemma ReloadRestoresItems(s: Store, codec: Codec)
    requires Mirrors(s, codec)
    requires codec.decode(codec.encode(s.items)) == Some(s.items)
    requires codec.encode(s.items) != ""
    ensures Mount(s.slot, codec) == s
    ensures ItemCount(Mount(s.slot, codec).items) == ItemCount(s.items)
  {
  }

  /** A slot whose text does not parse leaves the cart empty, and the save effect overwrites it. */
  lemma CorruptSlotStartsEmpty(text: string, codec: Codec)
    requires text != "" && codec.decode(text).None?
    ensures Mount(Some(text), codec).items == []
    ensures Mount(Some(text), codec).slot == Some(codec.encode([]))
  {
  }
}
