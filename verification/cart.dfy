/** The cart store of store/cart.ts. lib/store.ts:44-77 declares a second,
    non-persisted cart store whose four operations and `total` are the same
    code line for line, so this module models both. Each operation is a pure
    transition on the ordered item list. */
module Cart {
  import opened Domain

  type Items = seq<CartItem>

  predicate HasId(items: Items, id: string)
  {
    exists k :: 0 <= k < |items| && items[k].Id() == id
  }

  /** Number of entries carrying `id`. */
  function Count(items: Items, id: string): nat
  {
    if items == [] then 0
    else (if items[0].Id() == id then 1 else 0) + Count(items[1..], id)
  }

  /** At most one entry per menu-item id. */
  predicate UniqueIds(items: Items)
  {
    forall j, k :: 0 <= j < k < |items| ==> items[j].Id() != items[k].Id()
  }

  predicate PositiveQuantities(items: Items)
  {
    forall c :: c in items ==> c.quantity >= 1
  }

  /** The invariant the cart keeps: one entry per id, every quantity at least 1. */
  predicate Valid(items: Items)
  {
    UniqueIds(items) && PositiveQuantities(items)
  }

  /** `items.map(i => i._id === id ? { ...i, quantity: i.quantity + 1 } : i)` */
  function Increment(items: Items, id: string): (r: Items)
    ensures |r| == |items|
    ensures forall k :: 0 <= k < |r| ==> r[k].item == items[k].item
    ensures forall k :: 0 <= k < |r| ==>
      r[k].quantity == items[k].quantity + (if items[k].Id() == id then 1 else 0)
  {
    if items == [] then []
    else
      var c := items[0];
      [if c.Id() == id then c.(quantity := c.quantity + 1) else c] + Increment(items[1..], id)
  }

  /** `items.map(item => item._id === id ? { ...item, quantity } : item)` */
  function Assign(items: Items, id: string, quantity: int): (r: Items)
    ensures |r| == |items|
    ensures forall k :: 0 <= k < |r| ==> r[k].item == items[k].item
    ensures forall k :: 0 <= k < |r| ==>
      r[k].quantity == (if items[k].Id() == id then quantity else items[k].quantity)
  {
    if items == [] then []
    else
      var c := items[0];
      [if c.Id() == id then c.(quantity := quantity) else c] + Assign(items[1..], id, quantity)
  }

  /** `items.filter(item => item._id !== id)` */
  function Without(items: Items, id: string): Items
  {
    if items == [] then []
    else if items[0].Id() == id then Without(items[1..], id)
    else [items[0]] + Without(items[1..], id)
  }

  /** The filter drops exactly the entries with that id, one per occurrence,
      and cannot create a duplicate id. */
  lemma {:induction false} WithoutKeeps(items: Items, id: string)
    ensures |Without(items, id)| == |items| - Count(items, id)
    ensures forall c :: c in Without(items, id) <==> c in items && c.Id() != id
    ensures UniqueIds(items) ==> UniqueIds(Without(items, id))
  {
    if items != [] {
      var tail := Without(items[1..], id);
      WithoutKeeps(items[1..], id);
      assert items == [items[0]] + items[1..];
      if UniqueIds(items) && items[0].Id() != id {
        UniqueTail(items);
        var r := [items[0]] + tail;
        forall j | 0 < j < |r| ensures r[0].Id() != r[j].Id() {
          assert r[j] in tail;
          var m :| 0 <= m < |items[1..]| && items[1..][m] == r[j];
          assert items[m + 1] == r[j];
        }
      }
    }
  }

  /** Re-counting entries in place, never to less than 1, keeps the cart valid. */
  lemma SameEntriesStayValid(items: Items, r: Items)
    requires |r| == |items|
    requires forall k :: 0 <= k < |r| ==> r[k].item == items[k].item
    requires forall k :: 0 <= k < |r| ==> r[k].quantity >= items[k].quantity || r[k].quantity >= 1
    ensures Valid(items) ==> Valid(r)
  {
    if Valid(items) {
      forall c | c in r ensures c.quantity >= 1 {
        var k :| 0 <= k < |r| && r[k] == c;
        assert items[k] in items;
      }
    }
  }

  /** `addItem`: a second add of the same id raises that entry's quantity by
      one and keeps its first-seen name and price; a new id is appended at
      the end with quantity 1. */
  function AddItem(items: Items, item: MenuItem): (r: Items)
    ensures !HasId(items, item.id) ==> r == items + [CartItem(item, 1)]
    ensures HasId(items, item.id) ==> (
      && |r| == |items|
      && (forall k :: 0 <= k < |r| ==> r[k].item == items[k].item)
      && (forall k :: 0 <= k < |r| && items[k].Id() == item.id ==> r[k].quantity == items[k].quantity + 1)
      && (forall k :: 0 <= k < |r| && items[k].Id() != item.id ==> r[k] == items[k]))
    ensures Valid(items) ==> Valid(r)
  {
    if HasId(items, item.id) then
      var r := Increment(items, item.id);
      SameEntriesStayValid(items, r);
      r
    else
      var r := items + [CartItem(item, 1)];
      assert Valid(items) ==> UniqueIds(r) by {
        if Valid(items) {
          forall j, k | 0 <= j < k < |r| ensures r[j].Id() != r[k].Id() {
            if k == |items| { assert r[j] == items[j]; }
          }
        }
      }
      r
  }

  /** `removeItem`: drops every entry with that id; removing an absent id is
      not an error. */
  function RemoveItem(items: Items, id: string): (r: Items)
    ensures !HasId(r, id)
    ensures forall c :: c in r <==> c in items && c.Id() != id
    ensures |r| == |items| - Count(items, id)
    ensures Valid(items) ==> Valid(r)
  {
    WithoutKeeps(items, id);
    Without(items, id)
  }

  /** `updateQuantity`: a quantity of zero or less removes the entry;
      otherwise the entry's quantity becomes exactly `quantity` and nothing
      else changes. */
  function UpdateQuantity(items: Items, id: string, quantity: int): (r: Items)
    ensures quantity <= 0 ==> (
      && !HasId(r, id)
      && |r| == |items| - Count(items, id)
      && (forall c :: c in r <==> c in items && c.Id() != id))
    ensures quantity > 0 ==> (
      && |r| == |items|
      && (forall k :: 0 <= k < |r| && items[k].Id() == id ==> r[k] == items[k].(quantity := quantity))
      && (forall k :: 0 <= k < |r| && items[k].Id() != id ==> r[k] == items[k]))
    ensures Valid(items) ==> Valid(r)
  {
    if quantity <= 0 then RemoveItem(items, id)
    else
      var r := Assign(items, id, quantity);
      SameEntriesStayValid(items, r);
      r
  }

  /** `clearCart` */
  function ClearCart(items: Items): (r: Items)
    ensures |r| == 0 && Total(r) == 0
  {
    []
  }

  /** The `total` getter: the sum of price times quantity over the entries. */
  function Total(items: Items): int
  {
    if items == [] then 0 else items[0].LineTotal() + Total(items[1..])
  }

  /** `items.reduce((sum, item) => sum + item.price * item.quantity, acc)`:
      the left-to-right fold the getter runs. */
  function Reduce(items: Items, acc: int): int
    decreases |items|
  {
    if items == [] then acc else Reduce(items[1..], acc + items[0].LineTotal())
  }

  /** The recursive total is the getter's left fold started at 0. */
  lemma TotalIsReduce(items: Items)
    ensures Total(items) == Reduce(items, 0)
  {
    ReduceShifts(items, 0);
  }

  lemma {:induction false} ReduceShifts(items: Items, acc: int)
    ensures Reduce(items, acc) == acc + Total(items)
    decreases |items|
  {
    if items != [] {
      ReduceShifts(items[1..], acc + items[0].LineTotal());
    }
  }

  /** `n` consecutive `addItem(item)` calls. */
  function AddRepeatedly(items: Items, item: MenuItem, n: nat): Items
  {
    if n == 0 then items else AddItem(AddRepeatedly(items, item, n - 1), item)
  }

  /** Adding the same item `n` times to a cart that lacks it leaves exactly
      one entry for it, at the end, with quantity `n`; the earlier entries
      are untouched. */
  lemma {:induction false} RepeatedAdd(items: Items, item: MenuItem, n: nat)
    requires !HasId(items, item.id) && n >= 1
    ensures AddRepeatedly(items, item, n) == items + [CartItem(item, n)]
    ensures Count(AddRepeatedly(items, item, n), item.id) == 1
  {
    if n > 1 {
      RepeatedAdd(items, item, n - 1);
      AddAgainAtEnd(items, CartItem(item, n - 1));
    }
    CountAppend(items, CartItem(item, n), item.id);
    CountAbsent(items, item.id);
  }

  /** Adding again the item of the last entry, when no earlier entry has its
      id, bumps that last entry only. */
  lemma AddAgainAtEnd(items: Items, c: CartItem)
    requires !HasId(items, c.Id())
    ensures AddItem(items + [c], c.item) == items + [c.(quantity := c.quantity + 1)]
  {
    var prev := items + [c];
    assert prev[|items|].Id() == c.Id();
    var r := AddItem(prev, c.item);
    assert forall k :: 0 <= k < |items| ==> r[k] == items[k];
  }

  lemma {:induction false} CountAppend(items: Items, c: CartItem, id: string)
    ensures Count(items + [c], id) == Count(items, id) + (if c.Id() == id then 1 else 0)
  {
    if items != [] {
      assert (items + [c])[1..] == items[1..] + [c];
      CountAppend(items[1..], c, id);
    }
  }

  lemma HasIdCons(items: Items, id: string)
    requires items != []
    ensures HasId(items, id) <==> items[0].Id() == id || HasId(items[1..], id)
  {
    if HasId(items[1..], id) {
      var k :| 0 <= k < |items[1..]| && items[1..][k].Id() == id;
      assert items[k + 1].Id() == id;
    }
    if HasId(items, id) && items[0].Id() != id {
      var k :| 0 <= k < |items| && items[k].Id() == id;
      assert items[1..][k - 1].Id() == id;
    }
  }

  lemma {:induction false} CountAbsent(items: Items, id: string)
    ensures Count(items, id) == 0 <==> !HasId(items, id)
  {
    if items != [] {
      HasIdCons(items, id);
      CountAbsent(items[1..], id);
    }
  }

  /** Removing an id that is not in the cart changes nothing. */
  lemma {:induction false} RemoveAbsent(items: Items, id: string)
    requires !HasId(items, id)
    ensures Without(items, id) == items
  {
    if items != [] {
      HasIdCons(items, id);
      RemoveAbsent(items[1..], id);
      assert items == [items[0]] + items[1..];
    }
  }

  /** The filter keeps the relative order: removing from a concatenation is
      removing from each part. */
  lemma {:induction false} RemoveDistributes(a: Items, b: Items, id: string)
    ensures Without(a + b, id) == Without(a, id) + Without(b, id)
  {
    if a != [] {
      assert (a + b)[1..] == a[1..] + b;
      RemoveDistributes(a[1..], b, id);
    } else {
      assert a + b == b;
    }
  }

  /** In a cart with unique ids, removing the id of entry `k` cuts out exactly
      that entry and keeps the others in order. */
  lemma {:induction false} RemoveAt(items: Items, k: nat, id: string)
    requires UniqueIds(items) && k < |items| && items[k].Id() == id
    ensures Without(items, id) == items[..k] + items[k + 1..]
  {
    OnlyAt(items, k);
    if k == 0 {
      RemoveAbsent(items[1..], id);
    } else {
      UniqueTail(items);
      assert items[1..][k - 1] == items[k];
      RemoveAt(items[1..], k - 1, id);
      KeepHead(items, k, id);
    }
  }

  lemma UniqueTail(items: Items)
    requires UniqueIds(items) && items != []
    ensures UniqueIds(items[1..])
  {
    forall a, b | 0 <= a < b < |items[1..]|
      ensures items[1..][a].Id() != items[1..][b].Id()
    {
      assert items[1..][a] == items[a + 1] && items[1..][b] == items[b + 1];
    }
  }

  /** The inductive step of `RemoveAt`: a head entry with another id stays
      in front. */
  lemma KeepHead(items: Items, k: nat, id: string)
    requires 0 < k < |items| && !HasId(items[..k], id)
    requires Without(items[1..], id) == items[1..][..k - 1] + items[1..][k..]
    ensures Without(items, id) == items[..k] + items[k + 1..]
  {
    assert items[0].Id() != id by { assert items[..k][0] == items[0]; }
    assert items[1..][..k - 1] == items[1..k] && items[1..][k..] == items[k + 1..];
    assert items[..k] == [items[0]] + items[1..k];
  }

  /** In a cart with unique ids, entry `k`'s id occurs nowhere before or after it. */
  lemma OnlyAt(items: Items, k: nat)
    requires UniqueIds(items) && k < |items|
    ensures !HasId(items[..k], items[k].Id()) && !HasId(items[k + 1..], items[k].Id())
  {
  }

  /** Updating an id that is not in the cart changes nothing, whatever the
      quantity. */
  lemma UpdateAbsent(items: Items, id: string, quantity: int)
    requires !HasId(items, id)
    ensures UpdateQuantity(items, id, quantity) == items
  {
    if quantity <= 0 {
      RemoveAbsent(items, id);
    } else {
      var r := UpdateQuantity(items, id, quantity);
      assert forall k :: 0 <= k < |items| ==> r[k] == items[k];
    }
  }

  lemma {:induction false} TotalAppend(a: Items, b: Items)
    ensures Total(a + b) == Total(a) + Total(b)
  {
    if a == [] {
      assert a + b == b;
    } else {
      assert (a + b)[1..] == a[1..] + b;
      TotalAppend(a[1..], b);
    }
  }

  /** Replacing entry `k` of a cart changes the total by the difference of
      the two line totals. */
  lemma {:induction false} TotalReplaceAt(a: Items, b: Items, k: nat)
    requires |a| == |b| && k < |a|
    requires forall j :: 0 <= j < |a| && j != k ==> a[j] == b[j]
    ensures Total(b) == Total(a) - a[k].LineTotal() + b[k].LineTotal()
  {
    if k > 0 {
      TotalReplaceAt(a[1..], b[1..], k - 1);
    } else {
      assert a[1..] == b[1..];
    }
  }

  lemma Distribute(p: int, a: int, b: int)
    ensures p * a - p * b == p * (a - b)
  {
  }

  /** In a cart with unique ids, adding the item of entry `k` bumps that
      entry and no other. */
  lemma AddAt(items: Items, k: nat, item: MenuItem)
    requires UniqueIds(items) && k < |items| && items[k].Id() == item.id
    ensures var r := AddItem(items, item);
      |r| == |items| && r[k] == items[k].(quantity := items[k].quantity + 1)
      && forall j :: 0 <= j < |items| && j != k ==> r[j] == items[j]
  {
    assert HasId(items, item.id);
  }

  /** The total follows `addItem`: it grows by the price of the added item,
      and for an item already in the cart that is the first-seen price. */
  lemma TotalAfterAdd(items: Items, item: MenuItem)
    requires UniqueIds(items)
    ensures !HasId(items, item.id) ==> Total(AddItem(items, item)) == Total(items) + item.price
    ensures forall k :: 0 <= k < |items| && items[k].Id() == item.id ==>
      Total(AddItem(items, item)) == Total(items) + items[k].Price()
  {
    if !HasId(items, item.id) {
      TotalAppend(items, [CartItem(item, 1)]);
    }
    forall k | 0 <= k < |items| && items[k].Id() == item.id
      ensures Total(AddItem(items, item)) == Total(items) + items[k].Price()
    {
      TotalAfterAddAt(items, k, item);
    }
  }

  lemma TotalAfterAddAt(items: Items, k: nat, item: MenuItem)
    requires UniqueIds(items) && k < |items| && items[k].Id() == item.id
    ensures Total(AddItem(items, item)) == Total(items) + items[k].Price()
  {
    AddAt(items, k, item);
    TotalRequantify(items, AddItem(items, item), k, items[k].quantity + 1);
  }

  /** Re-counting entry `k` to `q`, and changing nothing else, changes the
      total by the price times the change in quantity. */
  lemma TotalRequantify(a: Items, b: Items, k: nat, q: int)
    requires |a| == |b| && k < |a| && b[k] == a[k].(quantity := q)
    requires forall j :: 0 <= j < |a| && j != k ==> a[j] == b[j]
    ensures Total(b) == Total(a) + a[k].Price() * (q - a[k].quantity)
  {
    TotalReplaceAt(a, b, k);
    Distribute(a[k].Price(), q, a[k].quantity);
  }

  /** The total follows `removeItem`: it drops by the removed line's total. */
  lemma TotalAfterRemove(items: Items, k: nat, id: string)
    requires UniqueIds(items) && k < |items| && items[k].Id() == id
    ensures Total(RemoveItem(items, id)) == Total(items) - items[k].LineTotal()
  {
    RemoveAt(items, k, id);
    TotalAround(items, k);
  }

  /** The total of a cart split around entry `k`. */
  lemma TotalAround(items: Items, k: nat)
    requires k < |items|
    ensures Total(items) == Total(items[..k]) + items[k].LineTotal() + Total(items[k + 1..])
    ensures Total(items[..k] + items[k + 1..]) == Total(items[..k]) + Total(items[k + 1..])
  {
    var pre, post := items[..k], items[k + 1..];
    assert items == pre + [items[k]] + post;
    TotalAppend(pre + [items[k]], post);
    TotalAppend(pre, [items[k]]);
    TotalAppend(pre, post);
  }

  /** In a cart with unique ids, a positive update of entry `k`'s id changes
      that entry's quantity and no other entry. */
  lemma UpdateAt(items: Items, k: nat, id: string, quantity: int)
    requires UniqueIds(items) && k < |items| && items[k].Id() == id && quantity > 0
    ensures var r := UpdateQuantity(items, id, quantity);
      |r| == |items| && r[k] == items[k].(quantity := quantity)
      && forall j :: 0 <= j < |items| && j != k ==> r[j] == items[j]
  {
  }

  /** The total follows `updateQuantity` with a positive quantity: that
      line is re-priced at the new quantity. */
  lemma TotalAfterUpdate(items: Items, k: nat, id: string, quantity: int)
    requires UniqueIds(items) && k < |items| && items[k].Id() == id && quantity > 0
    ensures Total(UpdateQuantity(items, id, quantity))
      == Total(items) + items[k].Price() * (quantity - items[k].quantity)
  {
    UpdateAt(items, k, id, quantity);
    TotalRequantify(items, UpdateQuantity(items, id, quantity), k, quantity);
  }
}
