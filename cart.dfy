/**
 * The customer's shopping cart: a list of (item, quantity) lines changed by
 * add, remove and set-quantity, with its item count, its total in cents,
 * checkout and the show/hide toggle.
 */
module Cart {
  import opened StoreTypes

  datatype CartLine = CartLine(item: StoreItem, quantity: int)

  /** The customer view's cart state; the cart starts empty and shown. */
  datatype CartView = CartView(lines: seq<CartLine>, showCart: bool)

  const InitialCart := CartView([], true)

  predicate HasLine(lines: seq<CartLine>, id: int) {
    exists i :: 0 <= i < |lines| && lines[i].item.id == id
  }

  /** Distinct item ids and positive quantities: what add, remove and set-quantity keep. */
  predicate WellFormed(lines: seq<CartLine>) {
    (forall i, j :: 0 <= i < j < |lines| ==> lines[i].item.id != lines[j].item.id) &&
    (forall i :: 0 <= i < |lines| ==> lines[i].quantity >= 1)
  }

  /** `map` over the lines: the line with that id gets quantity q, the others stay. */
  function SetQuantity(lines: seq<CartLine>, id: int, q: int): (r: seq<CartLine>)
    ensures |r| == |lines|
  {
    if |lines| == 0 then []
    else
      var last := lines[|lines| - 1];
      SetQuantity(lines[..|lines| - 1], id, q) + [if last.item.id == id then last.(quantity := q) else last]
  }

  /** `map` over the lines: the line with that id gets one more. */
  function Increment(lines: seq<CartLine>, id: int): (r: seq<CartLine>)
    ensures |r| == |lines|
  {
    if |lines| == 0 then []
    else
      var last := lines[|lines| - 1];
      Increment(lines[..|lines| - 1], id) + [if last.item.id == id then last.(quantity := last.quantity + 1) else last]
  }

  /**
   * addToCart: an item already in the cart gets one more on its line, which
   * keeps the item record it was added with; a new item goes at the end with
   * quantity 1.
   */
  function AddToCart(lines: seq<CartLine>, item: StoreItem): (r: seq<CartLine>)
    ensures HasLine(lines, item.id) ==> |r| == |lines|
    ensures !HasLine(lines, item.id) ==> r == lines + [CartLine(item, 1)]
  {
    if HasLine(lines, item.id) then Increment(lines, item.id)
    else lines + [CartLine(item, 1)]
  }

  /** removeFromCart: `filter` keeping the lines of other items. */
  function RemoveFromCart(lines: seq<CartLine>, id: int): (r: seq<CartLine>)
    ensures |r| <= |lines|
  {
    if |lines| == 0 then []
    else
      var rest := RemoveFromCart(lines[..|lines| - 1], id);
      var last := lines[|lines| - 1];
      if last.item.id == id then rest else rest + [last]
  }

  /** updateQuantity: no positive quantity removes the line; otherwise the line is set. */
  function UpdateQuantity(lines: seq<CartLine>, id: int, q: int): (r: seq<CartLine>)
    ensures q <= 0 ==> r == RemoveFromCart(lines, id)
    ensures q > 0 ==> r == SetQuantity(lines, id, q)
  {
    if q <= 0 then RemoveFromCart(lines, id) else SetQuantity(lines, id, q)
  }

  predicate PositiveQuantities(lines: seq<CartLine>) {
    forall i :: 0 <= i < |lines| ==> lines[i].quantity >= 1
  }

  /** No line has a negative price or quantity (a price written by PUT can be negative). */
  predicate NoNegatives(lines: seq<CartLine>) {
    forall i :: 0 <= i < |lines| ==> lines[i].item.price >= 0 && lines[i].quantity >= 0
  }

  /** getCartItemCount: the quantities summed from the left; every line counts at least once. */
  function ItemCount(lines: seq<CartLine>): (n: int)
    ensures PositiveQuantities(lines) ==> n >= |lines|
  {
    if |lines| == 0 then 0
    else
      assert PositiveQuantities(lines) ==> PositiveQuantities(lines[..|lines| - 1]);
      ItemCount(lines[..|lines| - 1]) + lines[|lines| - 1].quantity
  }

  /** What one line costs: its item's price times its quantity, in cents. */
  function LineCents(l: CartLine): (c: int)
    ensures l.item.price >= 0 && l.quantity >= 0 ==> c >= 0
  {
    l.item.price * l.quantity
  }

  /** getTotalPrice: price times quantity summed from the left, in cents; never below zero without negative prices. */
  function TotalCents(lines: seq<CartLine>): (t: int)
    ensures NoNegatives(lines) ==> t >= 0
  {
    if |lines| == 0 then 0
    else
      assert NoNegatives(lines) ==> NoNegatives(lines[..|lines| - 1]);
      TotalCents(lines[..|lines| - 1]) + LineCents(lines[|lines| - 1])
  }

  /** handleCheckout: an empty cart stays as it is; otherwise the cart is emptied and hidden. */
  function Checkout(v: CartView): (r: CartView)
    ensures |v.lines| == 0 ==> r == v
    ensures |v.lines| > 0 ==> r.lines == [] && !r.showCart
  {
    if |v.lines| == 0 then v else CartView([], false)
  }

  /** toggleCart: flips whether the cart is shown and leaves the lines alone. */
  function ToggleCart(v: CartView): (r: CartView)
    ensures r.lines == v.lines && r.showCart == !v.showCart
  {
    v.(showCart := !v.showCart)
  }

  // ----------------------------------------------------------------------
  // Properties
  // ----------------------------------------------------------------------

  /** The cart the customer view mounts with: empty and shown, so it counts and costs nothing and checkout leaves it alone. */
  lemma InitialCartState(item: StoreItem)
    ensures InitialCart.showCart && ItemCount(InitialCart.lines) == 0 && TotalCents(InitialCart.lines) == 0
    ensures Checkout(InitialCart) == InitialCart
    ensures AddToCart(InitialCart.lines, item) == [CartLine(item, 1)]
  {
    assert !HasLine(InitialCart.lines, item.id);
  }

  /** Toggling twice restores the view. */
  lemma ToggleTwice(v: CartView)
    ensures ToggleCart(ToggleCart(v)) == v
  {
  }

  lemma {:induction false} CountAppend(a: seq<CartLine>, b: seq<CartLine>)
    ensures ItemCount(a + b) == ItemCount(a) + ItemCount(b)
    decreases |b|
  {
    if |b| > 0 {
      assert (a + b)[..|a + b| - 1] == a + b[..|b| - 1];
      CountAppend(a, b[..|b| - 1]);
    } else {
      assert a + b == a;
    }
  }

  lemma {:induction false} TotalAppend(a: seq<CartLine>, b: seq<CartLine>)
    ensures TotalCents(a + b) == TotalCents(a) + TotalCents(b)
    decreases |b|
  {
    if |b| > 0 {
      assert (a + b)[..|a + b| - 1] == a + b[..|b| - 1];
      TotalAppend(a, b[..|b| - 1]);
    } else {
      assert a + b == a;
    }
  }

  /** Set-quantity line by line: the lines with that id take q, the others stay. */
  lemma {:induction false} SetQuantityAt(lines: seq<CartLine>, id: int, q: int)
    ensures forall i :: 0 <= i < |lines| ==>
      SetQuantity(lines, id, q)[i] == if lines[i].item.id == id then lines[i].(quantity := q) else lines[i]
    decreases |lines|
  {
    if |lines| > 0 {
      var init := lines[..|lines| - 1];
      SetQuantityAt(init, id, q);
      assert forall i :: 0 <= i < |init| ==> init[i] == lines[i];
    }
  }

  /** Increment line by line: the lines with that id get one more, the others stay. */
  lemma {:induction false} IncrementAt(lines: seq<CartLine>, id: int)
    ensures forall i :: 0 <= i < |lines| ==>
      Increment(lines, id)[i] == if lines[i].item.id == id then lines[i].(quantity := lines[i].quantity + 1) else lines[i]
    decreases |lines|
  {
    if |lines| > 0 {
      var init := lines[..|lines| - 1];
      IncrementAt(init, id);
      assert forall i :: 0 <= i < |init| ==> init[i] == lines[i];
    }
  }

  /** The position of the line for an id the cart holds. */
  lemma LineIndex(lines: seq<CartLine>, id: int) returns (k: int)
    requires HasLine(lines, id)
    ensures 0 <= k < |lines| && lines[k].item.id == id
  {
    k :| 0 <= k < |lines| && lines[k].item.id == id;
  }

  /** Setting a quantity for an id no line has changes nothing. */
  lemma SetQuantityAbsent(lines: seq<CartLine>, id: int, q: int)
    requires forall i :: 0 <= i < |lines| ==> lines[i].item.id != id
    ensures SetQuantity(lines, id, q) == lines
  {
    SetQuantityAt(lines, id, q);
  }

  /** One more line at the end adds its quantity to the count and its price times quantity to the total. */
  lemma SnocSums(a: seq<CartLine>, x: CartLine)
    ensures ItemCount(a + [x]) == ItemCount(a) + x.quantity
    ensures TotalCents(a + [x]) == TotalCents(a) + LineCents(x)
  {
    assert (a + [x])[..|a|] == a;
  }

  /** Setting the quantity of the only line with that id to q changes the count by q minus the old quantity. */
  lemma {:induction false} SetQuantityCount(lines: seq<CartLine>, id: int, q: int, k: int)
    requires 0 <= k < |lines| && lines[k].item.id == id
    requires forall i :: 0 <= i < |lines| && i != k ==> lines[i].item.id != id
    ensures ItemCount(SetQuantity(lines, id, q)) == ItemCount(lines) - lines[k].quantity + q
    decreases |lines|
  {
    var n := |lines| - 1;
    var init, last := lines[..n], lines[n];
    var fixed := if last.item.id == id then last.(quantity := q) else last;
    assert SetQuantity(lines, id, q) == SetQuantity(init, id, q) + [fixed];
    SnocSums(SetQuantity(init, id, q), fixed);
    if k == n {
      InitLacks(lines, init, id);
      SetQuantityAbsent(init, id, q);
    } else {
      InitOthers(lines, init, id, k);
      SetQuantityCount(init, id, q, k);
    }
  }

  /** The same for the total: it moves by what the line costs at q minus what it cost before. */
  lemma {:induction false} SetQuantityTotal(lines: seq<CartLine>, id: int, q: int, k: int)
    requires 0 <= k < |lines| && lines[k].item.id == id
    requires forall i :: 0 <= i < |lines| && i != k ==> lines[i].item.id != id
    ensures TotalCents(SetQuantity(lines, id, q)) + LineCents(lines[k]) == TotalCents(lines) + LineCents(lines[k].(quantity := q))
    decreases |lines|
  {
    var n := |lines| - 1;
    var init, last := lines[..n], lines[n];
    var fixed := if last.item.id == id then last.(quantity := q) else last;
    assert SetQuantity(lines, id, q) == SetQuantity(init, id, q) + [fixed];
    SnocSums(SetQuantity(init, id, q), fixed);
    if k == n {
      InitLacks(lines, init, id);
      SetQuantityAbsent(init, id, q);
    } else {
      InitOthers(lines, init, id, k);
      SetQuantityTotal(init, id, q, k);
    }
  }

  /** Dropping the last line when it alone has the id leaves no line with the id. */
  lemma InitLacks(lines: seq<CartLine>, init: seq<CartLine>, id: int)
    requires |lines| > 0 && init == lines[..|lines| - 1]
    requires forall i :: 0 <= i < |lines| && i != |lines| - 1 ==> lines[i].item.id != id
    ensures forall i :: 0 <= i < |init| ==> init[i].item.id != id
  {
    forall i | 0 <= i < |init| ensures init[i].item.id != id {
      assert init[i] == lines[i];
    }
  }

  /** Dropping the last line keeps line k and the fact that no other line has its id. */
  lemma InitOthers(lines: seq<CartLine>, init: seq<CartLine>, id: int, k: int)
    requires 0 <= k < |lines| - 1 && lines[k].item.id == id && init == lines[..|lines| - 1]
    requires forall i :: 0 <= i < |lines| && i != k ==> lines[i].item.id != id
    ensures init[k] == lines[k]
    ensures forall i :: 0 <= i < |init| && i != k ==> init[i].item.id != id
  {
    forall i | 0 <= i < |init| && i != k ensures init[i].item.id != id {
      assert init[i] == lines[i];
    }
  }

  /** When one line alone has that id, adding one to it is setting its quantity to one more. */
  lemma IncrementIsSet(lines: seq<CartLine>, id: int, k: int)
    requires 0 <= k < |lines| && lines[k].item.id == id
    requires forall i :: 0 <= i < |lines| && i != k ==> lines[i].item.id != id
    ensures Increment(lines, id) == SetQuantity(lines, id, lines[k].quantity + 1)
  {
    IncrementAt(lines, id);
    SetQuantityAt(lines, id, lines[k].quantity + 1);
  }

  /** Adding one more to the only line with that id raises the count by one and the total by that line's price. */
  lemma IncrementCount(lines: seq<CartLine>, id: int, k: int)
    requires 0 <= k < |lines| && lines[k].item.id == id
    requires forall i :: 0 <= i < |lines| && i != k ==> lines[i].item.id != id
    ensures ItemCount(Increment(lines, id)) == ItemCount(lines) + 1
    ensures TotalCents(Increment(lines, id)) == TotalCents(lines) + lines[k].item.price
  {
    var q := lines[k].quantity + 1;
    IncrementIsSet(lines, id, k);
    SetQuantityCount(lines, id, q, k);
    SetQuantityTotal(lines, id, q, k);
    OneMoreCents(lines[k]);
  }

  /** One more of a line costs one more of its price. */
  lemma OneMoreCents(l: CartLine)
    ensures LineCents(l.(quantity := l.quantity + 1)) == LineCents(l) + l.item.price
  {
    assert l.item.price * (l.quantity + 1) == l.item.price * l.quantity + l.item.price;
  }

  /** In a well-formed cart no other line shares the id of line k. */
  lemma OnlyLine(lines: seq<CartLine>, k: int)
    requires WellFormed(lines) && 0 <= k < |lines|
    ensures forall i :: 0 <= i < |lines| && i != k ==> lines[i].item.id != lines[k].item.id
  {
    forall i | 0 <= i < |lines| && i != k ensures lines[i].item.id != lines[k].item.id {
      if i < k { assert lines[i].item.id != lines[k].item.id; } else { assert lines[k].item.id != lines[i].item.id; }
    }
  }

  /**
   * Adding an item raises the count by one. The total grows by the price of
   * the record the cart holds for that id: the item's own price when it is
   * new, the price it was first added with otherwise.
   */
  lemma AddCounts(lines: seq<CartLine>, item: StoreItem)
    requires WellFormed(lines)
    ensures ItemCount(AddToCart(lines, item)) == ItemCount(lines) + 1
    ensures !HasLine(lines, item.id) ==> TotalCents(AddToCart(lines, item)) == TotalCents(lines) + item.price
    ensures forall k :: 0 <= k < |lines| && lines[k].item.id == item.id ==>
      TotalCents(AddToCart(lines, item)) == TotalCents(lines) + lines[k].item.price
  {
    if HasLine(lines, item.id) {
      var k := LineIndex(lines, item.id);
      OnlyLine(lines, k);
      IncrementCount(lines, item.id, k);
    } else {
      CountAppend(lines, [CartLine(item, 1)]);
      TotalAppend(lines, [CartLine(item, 1)]);
      assert ItemCount([CartLine(item, 1)]) == 1;
    }
  }

  /** An item already in the cart: its line gets one more and every other line stays. */
  lemma AddExisting(lines: seq<CartLine>, item: StoreItem, k: int)
    requires 0 <= k < |lines| && lines[k].item.id == item.id
    ensures AddToCart(lines, item)[k] == lines[k].(quantity := lines[k].quantity + 1)
    ensures forall i :: 0 <= i < |lines| && lines[i].item.id != item.id ==> AddToCart(lines, item)[i] == lines[i]
  {
    IncrementAt(lines, item.id);
  }

  /** Add keeps the cart well formed. */
  lemma AddKeepsWellFormed(lines: seq<CartLine>, item: StoreItem)
    requires WellFormed(lines)
    ensures WellFormed(AddToCart(lines, item))
  {
    if HasLine(lines, item.id) {
      IncrementAt(lines, item.id);
    }
  }

  /** No line with that id is left, and every line left was in the cart. */
  lemma {:induction false} RemoveDrops(lines: seq<CartLine>, id: int)
    ensures !HasLine(RemoveFromCart(lines, id), id)
    ensures forall i :: 0 <= i < |RemoveFromCart(lines, id)| ==> RemoveFromCart(lines, id)[i] in lines
    decreases |lines|
  {
    if |lines| > 0 {
      var init := lines[..|lines| - 1];
      RemoveDrops(init, id);
      assert forall x :: x in init ==> x in lines;
    }
  }

  /** Filtering keeps the order: removing from a concatenation removes from each part. */
  lemma {:induction false} RemoveAppend(a: seq<CartLine>, b: seq<CartLine>, id: int)
    ensures RemoveFromCart(a + b, id) == RemoveFromCart(a, id) + RemoveFromCart(b, id)
    decreases |b|
  {
    if |b| == 0 {
      assert a + b == a;
    } else {
      assert (a + b)[..|a + b| - 1] == a + b[..|b| - 1];
      RemoveAppend(a, b[..|b| - 1], id);
    }
  }

  /** Removing an id the cart does not hold changes nothing. */
  lemma {:induction false} RemoveAbsent(lines: seq<CartLine>, id: int)
    requires !HasLine(lines, id)
    ensures RemoveFromCart(lines, id) == lines
    decreases |lines|
  {
    if |lines| > 0 {
      var init := lines[..|lines| - 1];
      forall j | 0 <= j < |init| ensures init[j].item.id != id {
        assert init[j] == lines[j];
      }
      RemoveAbsent(init, id);
      assert lines == init + [lines[|lines| - 1]];
    }
  }

  /**
   * Removing one line of a well-formed cart: the lines before it and after it
   * stay, in order, and the count and the total lose exactly that line.
   */
  lemma RemoveLine(lines: seq<CartLine>, k: int)
    requires WellFormed(lines) && 0 <= k < |lines|
    ensures RemoveFromCart(lines, lines[k].item.id) == lines[..k] + lines[k + 1..]
    ensures ItemCount(RemoveFromCart(lines, lines[k].item.id)) == ItemCount(lines) - lines[k].quantity
    ensures TotalCents(RemoveFromCart(lines, lines[k].item.id)) == TotalCents(lines) - LineCents(lines[k])
  {
    DropLine(lines, k);
    LineSums(lines, k);
  }

  /** The filter drops line k, the only one with its id. */
  lemma DropLine(lines: seq<CartLine>, k: int)
    requires WellFormed(lines) && 0 <= k < |lines|
    ensures RemoveFromCart(lines, lines[k].item.id) == lines[..k] + lines[k + 1..]
  {
    OnlyLine(lines, k);
    DropOnly(lines, k);
  }

  /** The same, given only that no other line shares line k's id. */
  lemma DropOnly(lines: seq<CartLine>, k: int)
    requires 0 <= k < |lines|
    requires forall i :: 0 <= i < |lines| && i != k ==> lines[i].item.id != lines[k].item.id
    ensures RemoveFromCart(lines, lines[k].item.id) == lines[..k] + lines[k + 1..]
  {
    var id := lines[k].item.id;
    Rejoin(lines, k);
    OthersAround(lines, k);
    DropEnd(lines[..k + 1], id);
    RemoveAbsent(lines[k + 1..], id);
    RemoveAppend(lines[..k + 1], lines[k + 1..], id);
  }

  /** No line before or after line k has its id. */
  lemma OthersAround(lines: seq<CartLine>, k: int)
    requires 0 <= k < |lines|
    requires forall i :: 0 <= i < |lines| && i != k ==> lines[i].item.id != lines[k].item.id
    ensures !HasLine(lines[..k], lines[k].item.id) && !HasLine(lines[k + 1..], lines[k].item.id)
  {
    var id := lines[k].item.id;
    forall j | 0 <= j < k ensures lines[..k][j].item.id != id {
      assert lines[..k][j] == lines[j];
    }
    var tail := lines[k + 1..];
    forall j | 0 <= j < |tail| ensures tail[j].item.id != id {
      assert tail[j] == lines[k + 1 + j];
    }
  }

  /** Lines without the id, then one line with it: the filter keeps exactly the first part. */
  lemma DropEnd(head: seq<CartLine>, id: int)
    requires |head| > 0 && head[|head| - 1].item.id == id
    requires !HasLine(head[..|head| - 1], id)
    ensures RemoveFromCart(head, id) == head[..|head| - 1]
  {
    RemoveAbsent(head[..|head| - 1], id);
  }

  /** Line k contributes its own quantity and price to the sums; the rest is the lines around it. */
  lemma LineSums(lines: seq<CartLine>, k: int)
    requires 0 <= k < |lines|
    ensures ItemCount(lines) == ItemCount(lines[..k] + lines[k + 1..]) + lines[k].quantity
    ensures TotalCents(lines) == TotalCents(lines[..k] + lines[k + 1..]) + LineCents(lines[k])
  {
    CountSplit(lines, k);
    TotalSplit(lines, k);
  }

  /** The count around line k: what is before it, plus its quantity, plus what is after it. */
  lemma CountSplit(lines: seq<CartLine>, k: int)
    requires 0 <= k < |lines|
    ensures ItemCount(lines) == ItemCount(lines[..k] + lines[k + 1..]) + lines[k].quantity
  {
    Rejoin(lines, k);
    CountAppend(lines[..k + 1], lines[k + 1..]);
    CountAppend(lines[..k], lines[k + 1..]);
  }

  /** The total around line k, in the same way. */
  lemma TotalSplit(lines: seq<CartLine>, k: int)
    requires 0 <= k < |lines|
    ensures TotalCents(lines) == TotalCents(lines[..k] + lines[k + 1..]) + LineCents(lines[k])
  {
    Rejoin(lines, k);
    TotalAppend(lines[..k + 1], lines[k + 1..]);
    TotalAppend(lines[..k], lines[k + 1..]);
  }

  /** The lines up to k and the lines after it make up the cart; the first part ends with line k. */
  lemma Rejoin(lines: seq<CartLine>, k: int)
    requires 0 <= k < |lines|
    ensures lines[..k + 1] + lines[k + 1..] == lines
    ensures lines[..k + 1][..k] == lines[..k] && lines[..k + 1][k] == lines[k]
  {
  }

  /** Remove keeps the cart well formed. */
  lemma {:induction false} RemoveKeepsWellFormed(lines: seq<CartLine>, id: int)
    requires WellFormed(lines)
    ensures WellFormed(RemoveFromCart(lines, id))
    decreases |lines|
  {
    if |lines| > 0 {
      var n := |lines| - 1;
      var init, last := lines[..n], lines[n];
      assert WellFormed(init);
      RemoveKeepsWellFormed(init, id);
      RemoveDrops(init, id);
      var rest := RemoveFromCart(init, id);
      if last.item.id != id {
        forall i | 0 <= i < |rest| ensures rest[i].item.id != last.item.id {
          var j :| 0 <= j < |init| && init[j] == rest[i];
          assert lines[j] == init[j];
        }
        assert RemoveFromCart(lines, id) == rest + [last];
      }
    }
  }

  /**
   * Set-quantity keeps the cart well formed, so no quantity ever drops
   * below one; an id the cart does not hold changes nothing.
   */
  lemma UpdateKeepsWellFormed(lines: seq<CartLine>, id: int, q: int)
    requires WellFormed(lines)
    ensures WellFormed(UpdateQuantity(lines, id, q))
    ensures !HasLine(lines, id) ==> UpdateQuantity(lines, id, q) == lines
  {
    if q <= 0 {
      RemoveKeepsWellFormed(lines, id);
      if !HasLine(lines, id) {
        RemoveAbsent(lines, id);
      }
    } else {
      SetQuantityAt(lines, id, q);
    }
  }

  /** A positive quantity for a line the cart holds: that line alone takes it, and the count moves by the difference. */
  lemma UpdateExisting(lines: seq<CartLine>, k: int, q: int)
    requires WellFormed(lines) && 0 <= k < |lines| && q > 0
    ensures UpdateQuantity(lines, lines[k].item.id, q)[k] == lines[k].(quantity := q)
    ensures forall i :: 0 <= i < |lines| && i != k ==> UpdateQuantity(lines, lines[k].item.id, q)[i] == lines[i]
    ensures ItemCount(UpdateQuantity(lines, lines[k].item.id, q)) == ItemCount(lines) - lines[k].quantity + q
  {
    OnlyLine(lines, k);
    SetQuantityAt(lines, lines[k].item.id, q);
    SetQuantityCount(lines, lines[k].item.id, q, k);
  }

  /** Adding the same new item twice leaves one line with quantity 2. */
  lemma AddTwice(lines: seq<CartLine>, item: StoreItem)
    requires WellFormed(lines) && !HasLine(lines, item.id)
    ensures AddToCart(AddToCart(lines, item), item) == lines + [CartLine(item, 2)]
  {
    var once := lines + [CartLine(item, 1)];
    assert once[|lines|].item.id == item.id;
    assert forall i :: 0 <= i < |lines| ==> once[i] == lines[i];
    IncrementAt(once, item.id);
  }
}
