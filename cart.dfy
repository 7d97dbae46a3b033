/** The merchandise cart: one line per item and size, each with a quantity.
    Prices are integer cents. */
module Cart {
  import opened Common

  /** The parts of a merchandise item the cart uses. */
  datatype Merchandise = Merchandise(id: int, name: string, price: int)

  datatype CartItem = CartItem(item: Merchandise, selectedSize: string, quantity: int)

  /** The line is the one for item `id` in size `size`. */
  predicate IsLine(line: CartItem, id: int, size: string)
  {
    line.item.id == id && line.selectedSize == size
  }

  /** `find`: the index of the first line for `id` in `size`. */
  function Find(items: seq<CartItem>, id: int, size: string): (r: Option<nat>)
    ensures r.Some? ==> r.value < |items| && IsLine(items[r.value], id, size)
    ensures r.Some? ==> forall j | 0 <= j < r.value :: !IsLine(items[j], id, size)
    ensures r.None? <==> forall j | 0 <= j < |items| :: !IsLine(items[j], id, size)
  {
    if |items| == 0 then None
    else if IsLine(items[0], id, size) then Some(0)
    else match Find(items[1..], id, size)
      case None => None
      case Some(i) => Some(i + 1)
  }

  /** `map`: every line for `id` in `size` gets one more unit. */
  function Increment(items: seq<CartItem>, id: int, size: string): (r: seq<CartItem>)
    ensures |r| == |items|
    ensures forall j | 0 <= j < |items| ::
      r[j] == if IsLine(items[j], id, size) then items[j].(quantity := items[j].quantity + 1) else items[j]
  {
    if |items| == 0 then []
    else
      var head := if IsLine(items[0], id, size) then items[0].(quantity := items[0].quantity + 1) else items[0];
      [head] + Increment(items[1..], id, size)
  }

  /** The cart after `addToCart`. */
  function Added(items: seq<CartItem>, toAdd: Merchandise, size: string): seq<CartItem>
  {
    if Find(items, toAdd.id, size).Some? then Increment(items, toAdd.id, size)
    else items + [CartItem(toAdd, size, 1)]
  }

  /** `filter`: the lines that are not for `id` in `size`, in order. */
  function Removed(items: seq<CartItem>, id: int, size: string): (r: seq<CartItem>)
    ensures |r| <= |items|
    ensures forall line | line in r :: line in items && !IsLine(line, id, size)
    ensures forall line | line in items && !IsLine(line, id, size) :: line in r
  {
    if |items| == 0 then []
    else if IsLine(items[0], id, size) then Removed(items[1..], id, size)
    else [items[0]] + Removed(items[1..], id, size)
  }

  /** `totalPrice`: the sum of price times quantity. */
  function Total(items: seq<CartItem>): int
  {
    if |items| == 0 then 0 else items[0].item.price * items[0].quantity + Total(items[1..])
  }

  /** `totalItems`: the sum of the quantities. */
  function TotalItems(items: seq<CartItem>): int
  {
    if |items| == 0 then 0 else items[0].quantity + TotalItems(items[1..])
  }

  /** No two lines for the same item and size, and no line below one unit. */
  predicate WellFormed(items: seq<CartItem>)
  {
    && (forall j | 0 <= j < |items| :: items[j].quantity >= 1)
    && (forall i, j | 0 <= i < j < |items| :: !IsLine(items[j], items[i].item.id, items[i].selectedSize))
  }

  class CartProvider {
    var cartItems: seq<CartItem>

    constructor()
      ensures cartItems == []
    {
      cartItems := [];
    }

    method AddToCart(toAdd: Merchandise, selectedSize: string)
      modifies this
      ensures cartItems == Added(old(cartItems), toAdd, selectedSize)
      ensures WellFormed(old(cartItems)) ==> WellFormed(cartItems)
    {
      if Find(cartItems, toAdd.id, selectedSize).Some? {
        cartItems := Increment(cartItems, toAdd.id, selectedSize);
      } else {
        cartItems := cartItems + [CartItem(toAdd, selectedSize, 1)];
      }
      if WellFormed(old(cartItems)) {
        AddedWellFormed(old(cartItems), toAdd, selectedSize);
      }
    }

    method RemoveFromCart(itemId: int, size: string)
      modifies this
      ensures cartItems == Removed(old(cartItems), itemId, size)
      ensures WellFormed(old(cartItems)) ==> WellFormed(cartItems)
    {
      cartItems := Removed(cartItems, itemId, size);
      if WellFormed(old(cartItems)) {
        RemovedWellFormed(old(cartItems), itemId, size);
      }
    }

    method ClearCart()
      modifies this
      ensures cartItems == [] && Total(cartItems) == 0 && TotalItems(cartItems) == 0
    {
      cartItems := [];
    }

    function TotalPrice(): int
      reads this
    {
      Total(cartItems)
    }
  }

  // ----- addToCart -----

  /** A new item and size is appended as one unit at the end. */
  lemma AddNewAppends(items: seq<CartItem>, toAdd: Merchandise, size: string)
    requires forall j | 0 <= j < |items| :: !IsLine(items[j], toAdd.id, size)
    ensures Added(items, toAdd, size) == items + [CartItem(toAdd, size, 1)]
  {
  }

  /** An item already in the cart in that size gets one more unit on its own
      line; every other line and the order stay as they were. */
  lemma AddExistingIncrements(items: seq<CartItem>, toAdd: Merchandise, size: string, i: nat)
    requires WellFormed(items) && i < |items| && IsLine(items[i], toAdd.id, size)
    ensures Added(items, toAdd, size) == items[i := items[i].(quantity := items[i].quantity + 1)]
  {
    var r := Added(items, toAdd, size);
    forall j | 0 <= j < |items| && j != i
      ensures !IsLine(items[j], toAdd.id, size)
    {
      if j < i {
        assert !IsLine(items[i], items[j].item.id, items[j].selectedSize);
      } else {
        assert !IsLine(items[j], items[i].item.id, items[i].selectedSize);
      }
    }
  }

  /** The same item in another size is a separate line. */
  lemma SizesAreSeparateLines(items: seq<CartItem>, toAdd: Merchandise, size: string, other: string)
    requires other != size && WellFormed(items)
    ensures Find(Added(items, toAdd, size), toAdd.id, other) == Find(items, toAdd.id, other)
  {
    var r := Added(items, toAdd, size);
    if Find(items, toAdd.id, size).None? {
      assert r == items + [CartItem(toAdd, size, 1)];
      assert !IsLine(r[|items|], toAdd.id, other);
      FindAppend(items, CartItem(toAdd, size, 1), toAdd.id, other);
    } else {
      FindSameLines(items, r, toAdd.id, other);
    }
  }

  /** `find` over a sequence with one more line at the end that does not match. */
  lemma FindAppend(items: seq<CartItem>, extra: CartItem, id: int, size: string)
    requires !IsLine(extra, id, size)
    ensures Find(items + [extra], id, size) == Find(items, id, size)
  {
    var r := items + [extra];
    match Find(items, id, size)
    case None =>
      assert forall j | 0 <= j < |r| :: !IsLine(r[j], id, size) by {
        forall j | 0 <= j < |r|
          ensures !IsLine(r[j], id, size)
        {
          if j < |items| {
            assert r[j] == items[j];
          }
        }
      }
    case Some(i) =>
      FindUnique(r, id, size, i);
  }

  /** Two sequences whose lines for `id` in `size` sit at the same places
      give the same `find` result. */
  lemma FindSameLines(a: seq<CartItem>, b: seq<CartItem>, id: int, size: string)
    requires |a| == |b|
    requires forall j | 0 <= j < |a| :: IsLine(a[j], id, size) <==> IsLine(b[j], id, size)
    ensures Find(a, id, size) == Find(b, id, size)
  {
    match Find(a, id, size)
    case None =>
    case Some(i) =>
      FindUnique(b, id, size, i);
  }

  /** `find` returns the first matching index. */
  lemma FindUnique(items: seq<CartItem>, id: int, size: string, i: nat)
    requires i < |items| && IsLine(items[i], id, size)
    requires forall j | 0 <= j < i :: !IsLine(items[j], id, size)
    ensures Find(items, id, size) == Some(i)
  {
    assert Find(items, id, size).Some?;
  }

  /** Adding keeps the cart well formed. */
  lemma AddedWellFormed(items: seq<CartItem>, toAdd: Merchandise, size: string)
    requires WellFormed(items)
    ensures WellFormed(Added(items, toAdd, size))
  {
    match Find(items, toAdd.id, size)
    case Some(i) =>
      AddExistingIncrements(items, toAdd, size, i);
    case None =>
      var r := items + [CartItem(toAdd, size, 1)];
      forall i, j | 0 <= i < j < |r|
        ensures !IsLine(r[j], r[i].item.id, r[i].selectedSize)
      {
        if j < |items| {
          assert r[i] == items[i] && r[j] == items[j];
        } else {
          assert !IsLine(items[i], toAdd.id, size);
        }
      }
  }

  /** Adding raises the item count by one, and the total by the price of the
      line that grew (the price already in the cart for an existing line). */
  lemma AddedTotals(items: seq<CartItem>, toAdd: Merchandise, size: string)
    requires WellFormed(items)
    ensures TotalItems(Added(items, toAdd, size)) == TotalItems(items) + 1
    ensures Total(Added(items, toAdd, size)) ==
      Total(items) + match Find(items, toAdd.id, size) case Some(i) => items[i].item.price case None => toAdd.price
  {
    match Find(items, toAdd.id, size)
    case Some(i) =>
      AddExistingIncrements(items, toAdd, size, i);
      TotalsUpdate(items, i, items[i].(quantity := items[i].quantity + 1));
    case None =>
      TotalsAppend(items, CartItem(toAdd, size, 1));
  }

  lemma {:induction false} TotalsAppend(items: seq<CartItem>, line: CartItem)
    ensures Total(items + [line]) == Total(items) + line.item.price * line.quantity
    ensures TotalItems(items + [line]) == TotalItems(items) + line.quantity
    decreases |items|
  {
    if |items| > 0 {
      assert (items + [line])[1..] == items[1..] + [line];
      TotalsAppend(items[1..], line);
    }
  }

  /** Replacing one line changes the totals by the difference of the lines. */
  lemma {:induction false} TotalsUpdate(items: seq<CartItem>, i: nat, line: CartItem)
    requires i < |items|
    ensures Total(items[i := line]) == Total(items) - items[i].item.price * items[i].quantity + line.item.price * line.quantity
    ensures TotalItems(items[i := line]) == TotalItems(items) - items[i].quantity + line.quantity
    decreases i
  {
    if i > 0 {
      assert items[i := line][1..] == items[1..][i - 1 := line];
      TotalsUpdate(items[1..], i - 1, line);
    } else {
      assert items[i := line][1..] == items[1..];
    }
  }

  // ----- removeFromCart, clearCart -----

  /** Removal works line by line: removing from two joined parts is joining
      what is left of each, so the remaining lines keep their order. */
  lemma {:induction false} RemovedConcat(a: seq<CartItem>, b: seq<CartItem>, id: int, size: string)
    ensures Removed(a + b, id, size) == Removed(a, id, size) + Removed(b, id, size)
    decreases |a|
  {
    if |a| > 0 {
      assert (a + b)[1..] == a[1..] + b;
      RemovedConcat(a[1..], b, id, size);
    } else {
      assert a + b == b;
    }
  }

  /** A cart with no line for that item and size is left as it is. */
  lemma {:induction false} RemovedNothing(items: seq<CartItem>, id: int, size: string)
    requires forall j | 0 <= j < |items| :: !IsLine(items[j], id, size)
    ensures Removed(items, id, size) == items
    decreases |items|
  {
    if |items| > 0 {
      RemovedNothing(items[1..], id, size);
      assert [items[0]] + items[1..] == items;
    }
  }

  /** Removing twice is removing once. */
  lemma {:induction false} RemovedIdempotent(items: seq<CartItem>, id: int, size: string)
    ensures Removed(Removed(items, id, size), id, size) == Removed(items, id, size)
    decreases |items|
  {
    if |items| > 0 {
      RemovedIdempotent(items[1..], id, size);
      if !IsLine(items[0], id, size) {
        var rest := Removed(items[1..], id, size);
        assert ([items[0]] + rest)[1..] == rest;
      }
    }
  }

  /** Removing lowers the totals by exactly the removed line, if there was one. */
  lemma {:induction false} RemovedTotals(items: seq<CartItem>, id: int, size: string)
    requires WellFormed(items)
    ensures TotalItems(Removed(items, id, size)) ==
      TotalItems(items) - match Find(items, id, size) case Some(i) => items[i].quantity case None => 0
    ensures Total(Removed(items, id, size)) ==
      Total(items) - match Find(items, id, size) case Some(i) => items[i].item.price * items[i].quantity case None => 0
    decreases |items|
  {
    if |items| > 0 {
      var tail := items[1..];
      assert WellFormed(tail) by {
        forall i, j | 0 <= i < j < |tail|
          ensures !IsLine(tail[j], tail[i].item.id, tail[i].selectedSize)
        {
          assert tail[i] == items[i + 1] && tail[j] == items[j + 1];
        }
      }
      RemovedTotals(tail, id, size);
      if IsLine(items[0], id, size) {
        assert Find(tail, id, size).None? by {
          forall j | 0 <= j < |tail|
            ensures !IsLine(tail[j], id, size)
          {
            assert tail[j] == items[j + 1];
            assert !IsLine(items[j + 1], items[0].item.id, items[0].selectedSize);
          }
        }
      } else {
        var rest := Removed(tail, id, size);
        assert ([items[0]] + rest)[1..] == rest;
      }
    }
  }

  /** The lines after the first of a well-formed cart are well formed. */
  lemma WellFormedTail(items: seq<CartItem>)
    requires WellFormed(items) && |items| > 0
    ensures WellFormed(items[1..])
    ensures forall line | line in items[1..] :: !IsLine(line, items[0].item.id, items[0].selectedSize)
  {
    var tail := items[1..];
    forall i, j | 0 <= i < j < |tail|
      ensures !IsLine(tail[j], tail[i].item.id, tail[i].selectedSize)
    {
      assert tail[i] == items[i + 1] && tail[j] == items[j + 1];
    }
    forall line | line in tail
      ensures !IsLine(line, items[0].item.id, items[0].selectedSize)
    {
      var j :| 0 <= j < |tail| && tail[j] == line;
      assert items[j + 1] == line;
    }
  }

  /** Removing keeps the cart well formed. */
  lemma {:induction false} RemovedWellFormed(items: seq<CartItem>, id: int, size: string)
    requires WellFormed(items)
    ensures WellFormed(Removed(items, id, size))
    decreases |items|
  {
    if |items| > 0 {
      WellFormedTail(items);
      RemovedWellFormed(items[1..], id, size);
      if !IsLine(items[0], id, size) {
        var rest := Removed(items[1..], id, size);
        var r := [items[0]] + rest;
        forall a, b | 0 <= a < b < |r|
          ensures !IsLine(r[b], r[a].item.id, r[a].selectedSize)
        {
          if a > 0 {
            assert r[a] == rest[a - 1] && r[b] == rest[b - 1];
          } else {
            assert r[b] == rest[b - 1] && rest[b - 1] in items[1..];
          }
        }
      }
    }
  }

  /** The empty cart is well formed and totals nothing. */
  lemma EmptyCart()
    ensures WellFormed([]) && Total([]) == 0 && TotalItems([]) == 0
  {
  }
}
