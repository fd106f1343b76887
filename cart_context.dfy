/**
 * The cart synchroniser: an ordered list of cart items kept in memory,
 * written in full to the shared durable storage (key `cart_items`) after
 * every mutation, and replaced wholesale when another browsing context
 * reports a new stored value. The list transformations are pure functions;
 * the `Cart` class holds the state and calls them.
 *
 * Prices are integer amounts of the smallest currency unit (cents).
 */
module CartContext {
  import opened Wrappers

  datatype Rating = Rating(rate: real, count: int)

  datatype Product = Product(
    id: int,
    title: string,
    price: int,
    description: string,
    category: string,
    image: string,
    rating: Rating)

  /** One line of the cart: a product id, how many, and the product as it was when first added. */
  datatype CartItem = CartItem(id: int, quantity: int, product: Product)

  /** The storage key the cart is persisted under. */
  const StorageKey: string := "cart_items"

  /** `items.some(item => item.id === id)`, i.e. `find` succeeds. */
  predicate HasId(items: seq<CartItem>, id: int) {
    exists i :: 0 <= i < |items| && items[i].id == id
  }

  /** No two items share an id. */
  ghost predicate DistinctIds(items: seq<CartItem>) {
    forall i, j :: 0 <= i < j < |items| ==> items[i].id != items[j].id
  }

  /** Every quantity is at least one. */
  ghost predicate PositiveQuantities(items: seq<CartItem>) {
    forall i :: 0 <= i < |items| ==> items[i].quantity >= 1
  }

  /** The invariant the cart operations keep. */
  ghost predicate WellFormed(items: seq<CartItem>) {
    DistinctIds(items) && PositiveQuantities(items)
  }

  /** The list with every item whose id is `id` set to `quantity`. */
  function SetQuantityOf(items: seq<CartItem>, id: int, quantity: int): (r: seq<CartItem>)
  {
    seq(|items|, i requires 0 <= i < |items| =>
      if items[i].id == id then items[i].(quantity := quantity) else items[i])
  }

  /** The list with every item whose id is `id` counted once more. */
  function IncrementOf(items: seq<CartItem>, id: int): (r: seq<CartItem>)
  {
    seq(|items|, i requires 0 <= i < |items| =>
      if items[i].id == id then items[i].(quantity := items[i].quantity + 1) else items[i])
  }

  /** `addToCart`'s new list. */
  function AddItem(items: seq<CartItem>, p: Product): (r: seq<CartItem>)
  {
    if HasId(items, p.id) then IncrementOf(items, p.id)
    else items + [CartItem(p.id, 1, p)]
  }

  /** `removeFromCart`'s new list: `items.filter(item => item.id !== id)`. */
  function RemoveId(items: seq<CartItem>, id: int): (r: seq<CartItem>)
    ensures |r| <= |items|
    ensures !HasId(r, id)
  {
    if items == [] then []
    else if items[0].id == id then RemoveId(items[1..], id)
    else [items[0]] + RemoveId(items[1..], id)
  }

  /** `updateQuantity`'s new list, or `None` when the call is ignored. */
  function QuantityUpdate(items: seq<CartItem>, id: int, quantity: int): (r: Option<seq<CartItem>>)
  {
    if quantity < 1 then None else Some(SetQuantityOf(items, id, quantity))
  }

  function LineTotal(item: CartItem): int {
    item.product.price * item.quantity
  }

  /** `getTotal`: `items.reduce((t, item) => t + price * quantity, 0)`, folded from the left. */
  function Total(items: seq<CartItem>): int {
    if items == [] then 0 else Total(items[..|items| - 1]) + LineTotal(items[|items| - 1])
  }

  /** The badge count: `items.reduce((t, item) => t + item.quantity, 0)`. */
  function ItemCount(items: seq<CartItem>): int {
    if items == [] then 0 else ItemCount(items[..|items| - 1]) + items[|items| - 1].quantity
  }

  // ---------------------------------------------------------------- the state

  /** The durable per-origin storage, shared by every browsing context of the origin. */
  class Storage {
    /** The value under `cart_items`, or `None` when nothing is stored. */
    var cartItems: Option<seq<CartItem>>

    constructor (initial: Option<seq<CartItem>>)
      ensures cartItems == initial
    {
      cartItems := initial;
    }
  }

  /** One browsing context's cart. */
  class Cart {
    var items: seq<CartItem>
    const storage: Storage

    /** Hydration: the stored list if there is one, else an empty cart. */
    constructor (storage: Storage)
      ensures this.storage == storage
      ensures items == if storage.cartItems.Some? then storage.cartItems.value else []
    {
      this.storage := storage;
      items := if storage.cartItems.Some? then storage.cartItems.value else [];
    }

    /** `getTotal`: the total of the current list. */
    function GetTotal(): int
      reads this
    {
      Total(items)
    }

    /** The stored copy is the in-memory list. */
    ghost predicate InSync()
      reads this, storage
    {
      storage.cartItems == Some(items)
    }

    /**
     * `syncCart`: persist the list, then dispatch the `cart_sync` event, which
     * this same context receives at once.
     */
    method Sync(newItems: seq<CartItem>)
      modifies this, storage
      ensures storage.cartItems == Some(newItems)
      ensures items == newItems
    {
      storage.cartItems := Some(newItems);
      OnSyncEvent(Some(newItems));
    }

    method AddToCart(p: Product)
      modifies this, storage
      ensures items == AddItem(old(items), p)
      ensures InSync()
    {
      var newItems := AddItem(items, p);
      Sync(newItems);
      items := newItems;
    }

    method RemoveFromCart(id: int)
      modifies this, storage
      ensures items == RemoveId(old(items), id)
      ensures InSync()
    {
      var newItems := RemoveId(items, id);
      Sync(newItems);
      items := newItems;
    }

    /** A quantity below one is ignored: neither the list nor the storage changes. */
    method UpdateQuantity(id: int, quantity: int)
      modifies this, storage
      ensures QuantityUpdate(old(items), id, quantity).None? ==>
                items == old(items) && storage.cartItems == old(storage.cartItems)
      ensures QuantityUpdate(old(items), id, quantity).Some? ==>
                items == QuantityUpdate(old(items), id, quantity).value && InSync()
    {
      match QuantityUpdate(items, id, quantity)
      case None =>
      case Some(newItems) =>
        Sync(newItems);
        items := newItems;
    }

    method ClearCart()
      modifies this, storage
      ensures items == [] && storage.cartItems == Some([])
    {
      items := [];
      Sync([]);
    }

    /**
     * The `storage` event: another context wrote `newValue` under `key`.
     * Only a non-null value under `cart_items` replaces the list.
     */
    method OnStorageEvent(key: string, newValue: Option<seq<CartItem>>)
      modifies this
      ensures key == StorageKey && newValue.Some? ==> items == newValue.value
      ensures !(key == StorageKey && newValue.Some?) ==> items == old(items)
    {
      if key == StorageKey && newValue.Some? {
        items := newValue.value;
      }
    }

    /** The `cart_sync` event: a detail carrying a list replaces the list. */
    method OnSyncEvent(detail: Option<seq<CartItem>>)
      modifies this
      ensures detail.Some? ==> items == detail.value
      ensures detail.None? ==> items == old(items)
    {
      if detail.Some? {
        items := detail.value;
      }
    }
  }

  /*
   * Two contexts sharing one storage: after a mutation in `a`, the storage
   * notification that `b` receives makes `b`'s list identical to `a`'s,
   * without `b` mutating anything itself. One scenario per mutation.
   */

  method PropagateAdd(a: Cart, b: Cart, p: Product)
    requires a.storage == b.storage && a != b
    modifies a, b, a.storage
    ensures b.items == a.items == AddItem(old(a.items), p)
    ensures a.InSync() && b.InSync()
  {
    a.AddToCart(p);
    b.OnStorageEvent(StorageKey, b.storage.cartItems);
  }

  method PropagateRemove(a: Cart, b: Cart, id: int)
    requires a.storage == b.storage && a != b
    modifies a, b, a.storage
    ensures b.items == a.items == RemoveId(old(a.items), id)
    ensures a.InSync() && b.InSync()
  {
    a.RemoveFromCart(id);
    b.OnStorageEvent(StorageKey, b.storage.cartItems);
  }

  /** A rejected update writes nothing, so no notification reaches `b` and nothing changes. */
  method PropagateUpdate(a: Cart, b: Cart, id: int, quantity: int)
    requires a.storage == b.storage && a != b
    modifies a, b, a.storage
    ensures quantity >= 1 ==> b.items == a.items == SetQuantityOf(old(a.items), id, quantity)
    ensures quantity >= 1 ==> a.InSync() && b.InSync()
    ensures quantity < 1 ==>
              a.items == old(a.items) && b.items == old(b.items) && a.storage.cartItems == old(a.storage.cartItems)
  {
    a.UpdateQuantity(id, quantity);
    if quantity >= 1 {
      b.OnStorageEvent(StorageKey, b.storage.cartItems);
    }
  }

  method PropagateClear(a: Cart, b: Cart)
    requires a.storage == b.storage && a != b
    modifies a, b, a.storage
    ensures b.items == a.items == []
    ensures a.InSync() && b.InSync()
  {
    a.ClearCart();
    b.OnStorageEvent(StorageKey, b.storage.cartItems);
  }

  // ---------------------------------------------------------- list properties

  /** Adding a product already in the cart counts every item with its id once more and changes nothing else. */
  lemma AddExisting(items: seq<CartItem>, p: Product)
    requires HasId(items, p.id)
    ensures var r := AddItem(items, p);
      && |r| == |items|
      && (forall i :: 0 <= i < |r| && items[i].id == p.id ==>
            r[i] == CartItem(items[i].id, items[i].quantity + 1, items[i].product))
      && (forall i :: 0 <= i < |r| && items[i].id != p.id ==> r[i] == items[i])
  {
  }

  /** Adding a new product appends one item of quantity one and keeps the others, in order. */
  lemma AddNew(items: seq<CartItem>, p: Product)
    requires !HasId(items, p.id)
    ensures AddItem(items, p) == items + [CartItem(p.id, 1, p)]
  {
  }

  /** Removing an absent id leaves the list as it is. */
  lemma {:induction false} RemoveAbsent(items: seq<CartItem>, id: int)
    requires !HasId(items, id)
    ensures RemoveId(items, id) == items
  {
    if items != [] {
      assert !HasId(items[1..], id) by {
        forall i | 0 <= i < |items[1..]| ensures items[1..][i].id != id {
          assert items[1..][i] == items[i + 1];
        }
      }
      RemoveAbsent(items[1..], id);
      assert items == [items[0]] + items[1..];
    }
  }

  /** Removal keeps exactly the items with another id. */
  lemma {:induction false} RemoveKeeps(items: seq<CartItem>, id: int, x: CartItem)
    ensures x in RemoveId(items, id) <==> x in items && x.id != id
  {
    if items != [] {
      RemoveKeeps(items[1..], id, x);
      assert items == [items[0]] + items[1..];
    }
  }

  /** Removal keeps the order: it distributes over concatenation. */
  lemma {:induction false} RemoveDistributes(a: seq<CartItem>, b: seq<CartItem>, id: int)
    ensures RemoveId(a + b, id) == RemoveId(a, id) + RemoveId(b, id)
  {
    if a != [] {
      assert (a + b)[0] == a[0];
      assert (a + b)[1..] == a[1..] + b;
      RemoveDistributes(a[1..], b, id);
    } else {
      assert a + b == b;
    }
  }

  /** With distinct ids, the id of item `k` occurs neither before nor after it. */
  lemma IdOnlyAt(items: seq<CartItem>, k: nat)
    requires DistinctIds(items) && k < |items|
    ensures !HasId(items[..k], items[k].id)
    ensures !HasId(items[k + 1..], items[k].id)
  {
    var id, pre, post := items[k].id, items[..k], items[k + 1..];
    forall i | 0 <= i < |pre| ensures pre[i].id != id {
      assert pre[i] == items[i];
    }
    forall i | 0 <= i < |post| ensures post[i].id != id {
      assert post[i] == items[k + 1 + i];
    }
  }

  /** A one-item list loses its item when its id is removed. */
  lemma RemoveSingle(x: CartItem)
    ensures RemoveId([x], x.id) == []
  {
  }

  /** With distinct ids, removing the id of item `k` removes exactly that item. */
  lemma RemoveAt(items: seq<CartItem>, k: nat)
    requires DistinctIds(items) && k < |items|
    ensures RemoveId(items, items[k].id) == items[..k] + items[k + 1..]
  {
    var id, x := items[k].id, items[k];
    var pre, post := items[..k], items[k + 1..];
    Split(items, k);
    RemoveDistributes(pre + [x], post, id);
    RemoveDistributes(pre, [x], id);
    RemoveSingle(x);
    IdOnlyAt(items, k);
    RemoveAbsent(pre, id);
    RemoveAbsent(post, id);
    assert RemoveId(pre + [x], id) == pre;
  }

  /** With a quantity of at least one, only the matching item changes, and only its quantity. */
  lemma UpdateSetsQuantity(items: seq<CartItem>, id: int, quantity: int)
    requires quantity >= 1
    ensures QuantityUpdate(items, id, quantity).Some?
    ensures var r := QuantityUpdate(items, id, quantity).value;
      && |r| == |items|
      && (forall i :: 0 <= i < |r| && items[i].id == id ==>
            r[i] == CartItem(id, quantity, items[i].product))
      && (forall i :: 0 <= i < |r| && items[i].id != id ==> r[i] == items[i])
      && (!HasId(items, id) ==> r == items)
  {
  }

  /** A quantity below one is rejected. */
  lemma UpdateRejectsBelowOne(items: seq<CartItem>, id: int, quantity: int)
    requires quantity < 1
    ensures QuantityUpdate(items, id, quantity) == None
  {
  }

  // ------------------------------------------------------------ the invariant

  lemma AddKeepsWellFormed(items: seq<CartItem>, p: Product)
    requires WellFormed(items)
    ensures WellFormed(AddItem(items, p))
  {
  }

  lemma {:induction false} RemoveKeepsWellFormed(items: seq<CartItem>, id: int)
    requires WellFormed(items)
    ensures WellFormed(RemoveId(items, id))
  {
    if items != [] {
      var tail := items[1..];
      assert WellFormed(tail) by {
        forall i, j | 0 <= i < j < |tail| ensures tail[i].id != tail[j].id {
          assert tail[i] == items[i + 1] && tail[j] == items[j + 1];
        }
        forall i | 0 <= i < |tail| ensures tail[i].quantity >= 1 {
          assert tail[i] == items[i + 1];
        }
      }
      RemoveKeepsWellFormed(tail, id);
      var rest := RemoveId(tail, id);
      if items[0].id != id {
        var r := [items[0]] + rest;
        forall j | 0 < j < |r| ensures r[0].id != r[j].id {
          assert r[j] in rest;
          RemoveKeeps(tail, id, r[j]);
          var m :| 0 <= m < |tail| && tail[m] == r[j];
          assert tail[m] == items[m + 1];
        }
      }
    }
  }

  lemma UpdateKeepsWellFormed(items: seq<CartItem>, id: int, quantity: int)
    requires WellFormed(items)
    ensures QuantityUpdate(items, id, quantity).Some? ==> WellFormed(QuantityUpdate(items, id, quantity).value)
  {
  }

  lemma ClearIsWellFormed()
    ensures WellFormed([])
  {
  }

  // ------------------------------------------------------------------- totals

  /** The total is additive over concatenation. */
  lemma {:induction false} TotalAppend(a: seq<CartItem>, b: seq<CartItem>)
    ensures Total(a + b) == Total(a) + Total(b)
  {
    if b != [] {
      assert (a + b)[..|a + b| - 1] == a + b[..|b| - 1];
      TotalAppend(a, b[..|b| - 1]);
    } else {
      assert a + b == a;
    }
  }

  /** The item count is additive over concatenation. */
  lemma {:induction false} ItemCountAppend(a: seq<CartItem>, b: seq<CartItem>)
    ensures ItemCount(a + b) == ItemCount(a) + ItemCount(b)
  {
    if b != [] {
      assert (a + b)[..|a + b| - 1] == a + b[..|b| - 1];
      ItemCountAppend(a, b[..|b| - 1]);
    } else {
      assert a + b == a;
    }
  }

  /** Splits a list around position `k`. */
  lemma Split(items: seq<CartItem>, k: nat)
    requires k < |items|
    ensures items == items[..k] + [items[k]] + items[k + 1..]
  {
  }

  /** Changing the item at `k` changes the total by the difference of the two line totals. */
  lemma TotalReplaceAt(items: seq<CartItem>, k: nat, x: CartItem)
    requires k < |items|
    ensures Total(items[k := x]) == Total(items) - LineTotal(items[k]) + LineTotal(x)
    ensures ItemCount(items[k := x]) == ItemCount(items) - items[k].quantity + x.quantity
  {
    var r := items[k := x];
    Split(items, k);
    Split(r, k);
    assert r[..k] == items[..k] && r[k + 1..] == items[k + 1..];
    TotalAppend(items[..k] + [items[k]], items[k + 1..]);
    TotalAppend(items[..k], [items[k]]);
    TotalAppend(r[..k] + [x], r[k + 1..]);
    TotalAppend(r[..k], [x]);
    ItemCountAppend(items[..k] + [items[k]], items[k + 1..]);
    ItemCountAppend(items[..k], [items[k]]);
    ItemCountAppend(r[..k] + [x], r[k + 1..]);
    ItemCountAppend(r[..k], [x]);
    assert Total([items[k]]) == LineTotal(items[k]) && Total([x]) == LineTotal(x);
    assert ItemCount([items[k]]) == items[k].quantity && ItemCount([x]) == x.quantity;
  }

  /** An empty cart totals zero. */
  lemma EmptyTotal()
    ensures Total([]) == 0 && ItemCount([]) == 0
  {
  }

  /** One more unit costs one more unit price. */
  lemma LineTotalOneMore(item: CartItem)
    ensures LineTotal(item.(quantity := item.quantity + 1)) == LineTotal(item) + item.product.price
  {
    var price, q := item.product.price, item.quantity;
    calc {
      price * (q + 1);
      price * q + price * 1;
    }
  }

  /** In a well-formed cart, counting the id of item `k` once more changes item `k` alone. */
  lemma IncrementAt(items: seq<CartItem>, k: nat)
    requires DistinctIds(items) && k < |items|
    ensures IncrementOf(items, items[k].id) == items[k := items[k].(quantity := items[k].quantity + 1)]
  {
    var r := IncrementOf(items, items[k].id);
    var x := items[k].(quantity := items[k].quantity + 1);
    forall i | 0 <= i < |items| ensures r[i] == items[k := x][i] {
      if i != k {
        assert items[i].id != items[k].id;
      }
    }
  }

  /** One more unit of item `k` adds its unit price to the total and one to the count. */
  lemma OneMoreAt(items: seq<CartItem>, k: nat)
    requires k < |items|
    ensures Total(items[k := items[k].(quantity := items[k].quantity + 1)]) == Total(items) + items[k].product.price
    ensures ItemCount(items[k := items[k].(quantity := items[k].quantity + 1)]) == ItemCount(items) + 1
  {
    TotalReplaceAt(items, k, items[k].(quantity := items[k].quantity + 1));
    LineTotalOneMore(items[k]);
  }

  /** Adding a product whose id is that of item `k` counts item `k` once more and changes nothing else. */
  lemma AddExistingAt(items: seq<CartItem>, p: Product, k: nat)
    requires DistinctIds(items) && k < |items| && items[k].id == p.id
    ensures AddItem(items, p) == items[k := items[k].(quantity := items[k].quantity + 1)]
  {
    assert HasId(items, p.id);
    IncrementAt(items, k);
  }

  /** Adding a product whose id is that of item `k` adds one unit of item `k`'s snapshot. */
  lemma AddExistingChangesTotals(items: seq<CartItem>, p: Product, k: nat)
    requires DistinctIds(items) && k < |items| && items[k].id == p.id
    ensures Total(AddItem(items, p)) == Total(items) + items[k].product.price
    ensures ItemCount(AddItem(items, p)) == ItemCount(items) + 1
  {
    AddExistingAt(items, p, k);
    OneMoreAt(items, k);
  }

  /**
   * Adding a product raises the count by one and the total by one unit's
   * price: the product's own price when it is new, the price of the snapshot
   * already in the cart otherwise.
   */
  lemma AddChangesTotals(items: seq<CartItem>, p: Product)
    requires WellFormed(items)
    ensures ItemCount(AddItem(items, p)) == ItemCount(items) + 1
    ensures !HasId(items, p.id) ==> Total(AddItem(items, p)) == Total(items) + p.price
    ensures forall k :: 0 <= k < |items| && items[k].id == p.id ==>
              Total(AddItem(items, p)) == Total(items) + items[k].product.price
  {
    if HasId(items, p.id) {
      var k :| 0 <= k < |items| && items[k].id == p.id;
      AddExistingChangesTotals(items, p, k);
      forall k' | 0 <= k' < |items| && items[k'].id == p.id
        ensures Total(AddItem(items, p)) == Total(items) + items[k'].product.price
      {
        AddExistingChangesTotals(items, p, k');
      }
    } else {
      TotalAppend(items, [CartItem(p.id, 1, p)]);
      ItemCountAppend(items, [CartItem(p.id, 1, p)]);
    }
  }

  /** Removing item `k` of a well-formed cart takes its line off the total and its quantity off the count. */
  lemma RemoveChangesTotals(items: seq<CartItem>, k: nat)
    requires WellFormed(items) && k < |items|
    ensures Total(RemoveId(items, items[k].id)) == Total(items) - LineTotal(items[k])
    ensures ItemCount(RemoveId(items, items[k].id)) == ItemCount(items) - items[k].quantity
  {
    RemoveAt(items, k);
    Split(items, k);
    TotalAppend(items[..k] + [items[k]], items[k + 1..]);
    TotalAppend(items[..k], [items[k]]);
    TotalAppend(items[..k], items[k + 1..]);
    ItemCountAppend(items[..k] + [items[k]], items[k + 1..]);
    ItemCountAppend(items[..k], [items[k]]);
    ItemCountAppend(items[..k], items[k + 1..]);
    assert Total([items[k]]) == LineTotal(items[k]);
    assert ItemCount([items[k]]) == items[k].quantity;
  }

  /** A well-formed cart counts at least one unit per item. */
  lemma {:induction false} ItemCountAtLeastLength(items: seq<CartItem>)
    requires PositiveQuantities(items)
    ensures ItemCount(items) >= |items|
  {
    if items != [] {
      var front := items[..|items| - 1];
      assert PositiveQuantities(front) by {
        forall i | 0 <= i < |front| ensures front[i].quantity >= 1 {
          assert front[i] == items[i];
        }
      }
      ItemCountAtLeastLength(front);
    }
  }

  /** Adding the same product twice to a cart without it gives one item of quantity two. */
  lemma AddTwice(items: seq<CartItem>, p: Product)
    requires !HasId(items, p.id)
    ensures AddItem(AddItem(items, p), p) == items + [CartItem(p.id, 2, p)]
  {
    var once := items + [CartItem(p.id, 1, p)];
    assert once[|items|].id == p.id;
    var twice := AddItem(once, p);
    assert |twice| == |items| + 1;
    forall i | 0 <= i < |items| ensures twice[i] == items[i] {
      assert once[i] == items[i];
    }
  }
}
