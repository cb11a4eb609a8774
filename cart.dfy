/** The client-side shopping cart: a list of line items keyed by `serviceId`.
    Each operation builds a new list from the current one, as the cart
    context's state updaters do; `Total` is the running price of the cart. */
module Cart {
  import opened Seqs

  datatype CartItem = CartItem(serviceId: string, serviceName: string, price: int, quantity: int)

  /** What one line contributes to the cart total. */
  function Cost(i: CartItem): (c: int) { i.price * i.quantity }

  /** No line has a negative price or a negative quantity. */
  predicate NonNegative(items: seq<CartItem>) {
    forall k :: 0 <= k < |items| ==> items[k].price >= 0 && items[k].quantity >= 0
  }

  /** Sum of price times quantity, accumulated left to right like the `reduce` that computes it. */
  function Total(items: seq<CartItem>): (t: int)
    ensures NonNegative(items) ==> t >= 0
  {
    if items == [] then 0 else Total(items[..|items| - 1]) + Cost(items[|items| - 1])
  }

  /** No two lines share a `serviceId`. */
  ghost predicate UniqueIds(items: seq<CartItem>) {
    forall i, j :: 0 <= i < j < |items| ==> items[i].serviceId != items[j].serviceId
  }

  /** Some line carries `id`. */
  predicate Contains(items: seq<CartItem>, id: string) {
    First(items, (i: CartItem) => i.serviceId == id).Some?
  }

  /** Adds one more of `item.quantity` to the matching line, or appends `item` when none matches. */
  function AddItem(items: seq<CartItem>, item: CartItem): (r: seq<CartItem>)
    ensures |r| == if Contains(items, item.serviceId) then |items| else |items| + 1
    ensures forall k :: 0 <= k < |items| ==>
      r[k].serviceId == items[k].serviceId && r[k].serviceName == items[k].serviceName && r[k].price == items[k].price
  {
    if Contains(items, item.serviceId) then
      seq(|items|, k requires 0 <= k < |items| =>
        if items[k].serviceId == item.serviceId
        then items[k].(quantity := items[k].quantity + item.quantity)
        else items[k])
    else
      items + [item]
  }

  /** The test `removeItem` keeps a line by. */
  function OtherThan(id: string): (p: CartItem -> bool) {
    (i: CartItem) => i.serviceId != id
  }

  /** Drops every line carrying `id`. */
  function RemoveItem(items: seq<CartItem>, id: string): (r: seq<CartItem>)
    ensures |r| <= |items|
    ensures forall x :: x in r ==> x in items && x.serviceId != id
  {
    FilterMembers(items, OtherThan(id));
    Filter(items, OtherThan(id))
  }

  /** Sets the quantity of every line carrying `id` to `quantity`. */
  function UpdateQuantity(items: seq<CartItem>, id: string, quantity: int): (r: seq<CartItem>)
    ensures |r| == |items|
    ensures forall k :: 0 <= k < |items| ==> r[k].serviceId == items[k].serviceId
  {
    seq(|items|, k requires 0 <= k < |items| =>
      if items[k].serviceId == id then items[k].(quantity := quantity) else items[k])
  }

  /** The emptied cart. */
  function ClearCart(): (r: seq<CartItem>)
    ensures |r| == 0 && Total(r) == 0
  {
    []
  }

  /** The cart's "-" button on line `k`: one fewer, never below zero, and the line stays. */
  function Decrement(items: seq<CartItem>, k: nat): (r: seq<CartItem>)
    requires k < |items|
    ensures |r| == |items| && r[k].serviceId == items[k].serviceId && r[k].quantity >= 0
  {
    UpdateQuantity(items, items[k].serviceId, if items[k].quantity - 1 < 0 then 0 else items[k].quantity - 1)
  }

  // ---------------------------------------------------------------- the total

  /** The total of two carts laid end to end is the sum of their totals. */
  lemma {:induction false} TotalAppend(a: seq<CartItem>, b: seq<CartItem>)
    ensures Total(a + b) == Total(a) + Total(b)
  {
    if b == [] {
      assert a + b == a;
    } else {
      var c := a + b;
      assert c[..|c| - 1] == a + b[..|b| - 1];
      TotalAppend(a, b[..|b| - 1]);
    }
  }

  /** The total of a cart split around one line. */
  lemma TotalAround(a: seq<CartItem>, x: CartItem, b: seq<CartItem>)
    ensures Total(a + [x] + b) == Total(a) + Cost(x) + Total(b)
  {
    TotalAppend(a + [x], b);
    assert (a + [x])[..|a + [x]| - 1] == a;
  }

  /** Replacing line `k` changes the total by exactly the difference of the two lines' costs. */
  lemma TotalReplace(items: seq<CartItem>, k: nat, x: CartItem)
    requires k < |items|
    ensures Total(items[k := x]) == Total(items) - Cost(items[k]) + Cost(x)
  {
    var a, b := items[..k], items[k + 1..];
    SplitAt(items, k);
    SplitAt(items[k := x], k);
    TotalAround(a, items[k], b);
    TotalAround(a, x, b);
  }

  /** Dropping line `k` lowers the total by exactly that line's cost. */
  lemma TotalRemoveAt(items: seq<CartItem>, k: nat)
    requires k < |items|
    ensures Total(items[..k] + items[k + 1..]) == Total(items) - Cost(items[k])
  {
    var a, b := items[..k], items[k + 1..];
    SplitAt(items, k);
    TotalAround(a, items[k], b);
    TotalAppend(a, b);
  }

  // ---------------------------------------------------------------- addItem

  /** A line for a new service goes at the end; the earlier lines are untouched and the total grows by its cost. */
  lemma AddItemNew(items: seq<CartItem>, item: CartItem)
    requires forall k :: 0 <= k < |items| ==> items[k].serviceId != item.serviceId
    ensures |AddItem(items, item)| == |items| + 1
    ensures AddItem(items, item)[..|items|] == items
    ensures AddItem(items, item)[|items|] == item
    ensures Total(AddItem(items, item)) == Total(items) + Cost(item)
  {
    assert !Contains(items, item.serviceId);
    TotalAppend(items, [item]);
  }

  /** Adding a service already in the cart only raises that line's quantity: its name and price are kept,
      the length and every other line are unchanged, and the total grows by the cart's own price times the added quantity. */
  lemma AddItemExisting(items: seq<CartItem>, item: CartItem, k: nat)
    requires UniqueIds(items)
    requires k < |items| && items[k].serviceId == item.serviceId
    ensures AddItem(items, item) == items[k := items[k].(quantity := items[k].quantity + item.quantity)]
    ensures |AddItem(items, item)| == |items|
    ensures AddItem(items, item)[k].serviceName == items[k].serviceName
    ensures AddItem(items, item)[k].price == items[k].price
    ensures Total(AddItem(items, item)) == Total(items) + items[k].price * item.quantity
  {
    AddItemMerges(items, item, k);
    TotalMerged(items, AddItem(items, item), k, item.quantity);
  }

  /** Raising line `k`'s quantity by `n` raises the total by that line's price times `n`. */
  lemma TotalMerged(items: seq<CartItem>, r: seq<CartItem>, k: nat, n: int)
    requires k < |items| && r == items[k := items[k].(quantity := items[k].quantity + n)]
    ensures Total(r) == Total(items) + items[k].price * n
  {
    TotalReplace(items, k, items[k].(quantity := items[k].quantity + n));
    CostMerged(items[k], n);
  }

  /** With unique ids, the matching line is the only one `AddItem` rewrites. */
  lemma AddItemMerges(items: seq<CartItem>, item: CartItem, k: nat)
    requires UniqueIds(items)
    requires k < |items| && items[k].serviceId == item.serviceId
    ensures AddItem(items, item) == items[k := items[k].(quantity := items[k].quantity + item.quantity)]
  {
    assert items[k] in items;
    assert Contains(items, item.serviceId);
    var r := AddItem(items, item);
    forall j | 0 <= j < |items| && j != k ensures r[j] == items[j] {
      assert items[j].serviceId != items[k].serviceId;
    }
  }

  /** Raising a line's quantity by `n` raises its cost by its price times `n`. */
  lemma CostMerged(x: CartItem, n: int)
    ensures Cost(x.(quantity := x.quantity + n)) == Cost(x) + x.price * n
  {
    assert x.price * (x.quantity + n) == x.price * x.quantity + x.price * n;
  }

  /** Adding keeps the service ids unique. */
  lemma AddItemKeepsIdsUnique(items: seq<CartItem>, item: CartItem)
    requires UniqueIds(items)
    ensures UniqueIds(AddItem(items, item))
  {
    if !Contains(items, item.serviceId) {
      var r := AddItem(items, item);
      forall i, j | 0 <= i < j < |r| ensures r[i].serviceId != r[j].serviceId {
        if j == |items| {
          assert r[i] == items[i];
          assert items[i] in items;
        }
      }
    }
  }

  // ---------------------------------------------------------------- removeItem

  /** Removing `id` leaves no line with it and keeps every other line. */
  lemma RemoveItemDropsOnlyId(items: seq<CartItem>, id: string)
    ensures forall x :: x in RemoveItem(items, id) ==> x.serviceId != id
    ensures forall x :: x in items && x.serviceId != id ==> x in RemoveItem(items, id)
  {
    FilterMembers(items, OtherThan(id));
  }

  /** Removing an id that is not in the cart changes nothing. */
  lemma RemoveItemAbsent(items: seq<CartItem>, id: string)
    requires forall k :: 0 <= k < |items| ==> items[k].serviceId != id
    ensures RemoveItem(items, id) == items
  {
    FilterKeepsAll(items, OtherThan(id));
  }

  /** With unique ids, removing the id of line `k` cuts out exactly that line, keeping the others in order,
      and lowers the total by exactly that line's cost. */
  lemma {:induction false} RemoveItemAt(items: seq<CartItem>, k: nat)
    requires UniqueIds(items)
    requires k < |items|
    ensures RemoveItem(items, items[k].serviceId) == items[..k] + items[k + 1..]
    ensures Total(RemoveItem(items, items[k].serviceId)) == Total(items) - Cost(items[k])
  {
    KeepsOthers(items, k, 0, k);
    KeepsOthers(items, k, k + 1, |items|);
    assert items == items[..k] + [items[k]] + items[k + 1..];
    FilterCutsOne(items[..k], items[k], items[k + 1..], OtherThan(items[k].serviceId));
    TotalRemoveAt(items, k);
  }

  /** In a duplicate-free cart, every line of `items[lo..hi]` other than line `k` passes `OtherThan` of line `k`'s id. */
  lemma KeepsOthers(items: seq<CartItem>, k: nat, lo: nat, hi: nat)
    requires UniqueIds(items)
    requires k < |items| && lo <= hi <= |items| && (hi <= k || k < lo)
    ensures forall j :: 0 <= j < hi - lo ==> OtherThan(items[k].serviceId)(items[lo..hi][j])
  {
    forall j | 0 <= j < hi - lo ensures OtherThan(items[k].serviceId)(items[lo..hi][j]) {
      assert items[lo..hi][j] == items[lo + j];
      if lo + j < k {
        assert items[lo + j].serviceId != items[k].serviceId;
      } else {
        assert items[k].serviceId != items[lo + j].serviceId;
      }
    }
  }

  /** A line whose id is new to a duplicate-free tail extends it without duplicates. */
  lemma UniqueCons(h: CartItem, t: seq<CartItem>)
    requires UniqueIds(t)
    requires forall x :: x in t ==> x.serviceId != h.serviceId
    ensures UniqueIds([h] + t)
  {
    var r := [h] + t;
    forall i, j | 0 <= i < j < |r| ensures r[i].serviceId != r[j].serviceId {
      assert r[j] == t[j - 1];
      if i == 0 {
        assert r[j] in t;
      } else {
        assert r[i] == t[i - 1];
      }
    }
  }

  /** Keeping only some lines of a duplicate-free cart leaves it duplicate-free. */
  lemma {:induction false} FilterKeepsIdsUnique(items: seq<CartItem>, p: CartItem -> bool)
    requires UniqueIds(items)
    ensures UniqueIds(Filter(items, p))
  {
    if items != [] {
      var t := items[1..];
      assert UniqueIds(t) by {
        forall i, j | 0 <= i < j < |t| ensures t[i].serviceId != t[j].serviceId {
          assert t[i] == items[i + 1] && t[j] == items[j + 1];
        }
      }
      FilterKeepsIdsUnique(t, p);
      if p(items[0]) {
        FilterMembers(t, p);
        forall x | x in Filter(t, p) ensures x.serviceId != items[0].serviceId {
          var j :| 0 <= j < |t| && t[j] == x;
          assert x == items[j + 1];
        }
        UniqueCons(items[0], Filter(t, p));
      } else {
        assert Filter(items, p) == [] + Filter(t, p);
      }
    }
  }

  /** Removing keeps the service ids unique. */
  lemma RemoveItemKeepsIdsUnique(items: seq<CartItem>, id: string)
    requires UniqueIds(items)
    ensures UniqueIds(RemoveItem(items, id))
  {
    FilterKeepsIdsUnique(items, OtherThan(id));
  }

  // ---------------------------------------------------------------- updateQuantity

  /** Setting a quantity changes nothing but the quantity of the matching lines: no line is added or
      removed (a quantity of 0 included), and ids, names, prices and order stay as they were. */
  lemma UpdateQuantityOnlyQuantity(items: seq<CartItem>, id: string, quantity: int)
    ensures |UpdateQuantity(items, id, quantity)| == |items|
    ensures forall k :: 0 <= k < |items| ==>
      var r := UpdateQuantity(items, id, quantity)[k];
      && r.serviceId == items[k].serviceId
      && r.serviceName == items[k].serviceName
      && r.price == items[k].price
      && r.quantity == (if items[k].serviceId == id then quantity else items[k].quantity)
  {
  }

  /** Setting the quantity of an id that is not in the cart changes nothing. */
  lemma UpdateQuantityAbsent(items: seq<CartItem>, id: string, quantity: int)
    requires forall k :: 0 <= k < |items| ==> items[k].serviceId != id
    ensures UpdateQuantity(items, id, quantity) == items
  {
  }

  /** With unique ids, setting the quantity of line `k` rewrites that line alone, and the total moves
      from that line's old cost to its new one. */
  lemma UpdateQuantityAt(items: seq<CartItem>, k: nat, quantity: int)
    requires UniqueIds(items)
    requires k < |items|
    ensures UpdateQuantity(items, items[k].serviceId, quantity) == items[k := items[k].(quantity := quantity)]
    ensures Total(UpdateQuantity(items, items[k].serviceId, quantity))
         == Total(items) - Cost(items[k]) + items[k].price * quantity
  {
    var r := UpdateQuantity(items, items[k].serviceId, quantity);
    assert r == items[k := items[k].(quantity := quantity)];
    TotalReplace(items, k, items[k].(quantity := quantity));
  }

  /** Setting a quantity keeps the service ids unique. */
  lemma UpdateQuantityKeepsIdsUnique(items: seq<CartItem>, id: string, quantity: int)
    requires UniqueIds(items)
    ensures UniqueIds(UpdateQuantity(items, id, quantity))
  {
    var r := UpdateQuantity(items, id, quantity);
    forall i, j | 0 <= i < j < |r| ensures r[i].serviceId != r[j].serviceId {
      assert r[i].serviceId == items[i].serviceId && r[j].serviceId == items[j].serviceId;
    }
  }

  /** The "-" button keeps line `k` in place, leaves it at one fewer but never below zero,
      and leaves every other line as it was. */
  lemma DecrementClampsAtZero(items: seq<CartItem>, k: nat)
    requires UniqueIds(items)
    requires k < |items|
    ensures |Decrement(items, k)| == |items|
    ensures Decrement(items, k)[k] == items[k].(quantity := if items[k].quantity > 0 then items[k].quantity - 1 else 0)
    ensures forall j :: 0 <= j < |items| && j != k ==> Decrement(items, k)[j] == items[j]
  {
    var r := Decrement(items, k);
    forall j | 0 <= j < |items| && j != k ensures r[j] == items[j] {
      assert items[j].serviceId != items[k].serviceId;
    }
  }
}
