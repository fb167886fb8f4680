/** The shopping cart of the storefront client (src/App.tsx): its three
    updaters, which each return a new list of lines, and the two folds over
    it (the navbar badge count and the subtotal). A line is identified by the
    pair (product id, selected size). */
module Cart {
  import opened Types

  // ---------------------------------------------------------------------
  // Keys and the cart invariant
  // ---------------------------------------------------------------------

  /** A line has the key (id, size): same product id and same selected size. */
  predicate Matches(item: CartItem, id: int, size: int)
  {
    item.product.id == id && item.selectedSize == size
  }

  predicate SameKey(a: CartItem, b: CartItem)
  {
    Matches(a, b.product.id, b.selectedSize)
  }

  /** No two lines share a (product id, size) key. */
  predicate Unique(cart: seq<CartItem>)
  {
    forall i, j :: 0 <= i < j < |cart| ==> !SameKey(cart[i], cart[j])
  }

  /** Every line has a quantity of at least one. */
  predicate AllPositive(cart: seq<CartItem>)
  {
    forall i :: 0 <= i < |cart| ==> cart[i].quantity >= 1
  }

  /** The invariant the three updaters keep. */
  predicate Valid(cart: seq<CartItem>)
  {
    Unique(cart) && AllPositive(cart)
  }

  predicate NoLine(cart: seq<CartItem>, id: int, size: int)
  {
    forall k :: 0 <= k < |cart| ==> !Matches(cart[k], id, size)
  }

  /** In a cart with unique keys, a line that matches is the only one. */
  lemma OnlyMatch(cart: seq<CartItem>, id: int, size: int, k: int)
    requires Unique(cart)
    requires 0 <= k < |cart| && Matches(cart[k], id, size)
    ensures forall j :: 0 <= j < |cart| && j != k ==> !Matches(cart[j], id, size)
  {
    forall j | 0 <= j < |cart| && j != k ensures !Matches(cart[j], id, size) {
      if j < k { assert !SameKey(cart[j], cart[k]); } else { assert !SameKey(cart[k], cart[j]); }
    }
  }

  /** The first line with the key (id, size), if any (App.tsx:1023). */
  function FindLine(cart: seq<CartItem>, id: int, size: int): (r: Option<CartItem>)
    ensures r.None? <==> NoLine(cart, id, size)
    ensures r.Some? ==> r.value in cart && Matches(r.value, id, size)
  {
    if cart == [] then None
    else if Matches(cart[0], id, size) then Some(cart[0])
    else FindLine(cart[1..], id, size)
  }

  // ---------------------------------------------------------------------
  // The folds: `reduce` from the left, starting at 0
  // ---------------------------------------------------------------------

  /** The left fold that adds up the weight `w` of every line. */
  function Sum(cart: seq<CartItem>, w: CartItem -> int): int
  {
    if cart == [] then 0 else Sum(cart[..|cart| - 1], w) + w(cart[|cart| - 1])
  }

  function LineQuantity(item: CartItem): int { item.quantity }

  function LineTotal(item: CartItem): int { item.product.price * item.quantity }

  /** The navbar badge (App.tsx:1059): the quantities of all lines added up.
      With every quantity at least one, it is at least the number of lines. */
  function Count(cart: seq<CartItem>): (n: int)
    ensures AllPositive(cart) ==> n >= |cart|
  {
    if AllPositive(cart) then QuantitiesAtLeastLines(cart); Sum(cart, LineQuantity)
    else Sum(cart, LineQuantity)
  }

  /** The cart drawer's and the checkout page's subtotal (App.tsx:538, 643):
      price times quantity, added up over the lines. */
  function Subtotal(cart: seq<CartItem>): int { Sum(cart, LineTotal) }

  lemma {:induction false} QuantitiesAtLeastLines(cart: seq<CartItem>)
    requires AllPositive(cart)
    ensures Sum(cart, LineQuantity) >= |cart|
  {
    if cart != [] {
      QuantitiesAtLeastLines(cart[..|cart| - 1]);
    }
  }

  lemma {:induction false} SumAppend(a: seq<CartItem>, b: seq<CartItem>, w: CartItem -> int)
    ensures Sum(a + b, w) == Sum(a, w) + Sum(b, w)
  {
    if b == [] {
      assert a + b == a;
    } else {
      var b' := b[..|b| - 1];
      assert (a + b)[..|a + b| - 1] == a + b';
      SumAppend(a, b', w);
    }
  }

  lemma SumSingleton(x: CartItem, w: CartItem -> int)
    ensures Sum([x], w) == w(x)
  {
    assert [x][..0] == [];
  }

  lemma SumThree(a: seq<CartItem>, x: CartItem, b: seq<CartItem>, w: CartItem -> int)
    ensures Sum(a + ([x] + b), w) == Sum(a, w) + w(x) + Sum(b, w)
  {
    SumAppend(a, [x] + b, w);
    SumAppend([x], b, w);
    SumSingleton(x, w);
  }

  /** Removing one line lowers the sum by that line's weight. */
  lemma SumSplice(c: seq<CartItem>, k: int, w: CartItem -> int)
    requires 0 <= k < |c|
    ensures Sum(c[..k] + c[k + 1..], w) == Sum(c, w) - w(c[k])
  {
    var a, x, b := c[..k], c[k], c[k + 1..];
    assert c == a + ([x] + b);
    SumThree(a, x, b, w);
    SumAppend(a, b, w);
  }

  /** Changing one line changes the sum by that line's difference only. */
  lemma SumPointUpdate(c: seq<CartItem>, r: seq<CartItem>, k: int, w: CartItem -> int)
    requires |r| == |c| && 0 <= k < |c|
    requires forall j :: 0 <= j < |c| && j != k ==> r[j] == c[j]
    ensures Sum(r, w) == Sum(c, w) - w(c[k]) + w(r[k])
  {
    assert r[..k] + r[k + 1..] == c[..k] + c[k + 1..];
    SumSplice(c, k, w);
    SumSplice(r, k, w);
  }

  /** The folds are those of `reduce`: the empty cart gives 0, and each line
      adds its own quantity or price times quantity to what came before. */
  lemma FoldSteps(cart: seq<CartItem>, item: CartItem)
    ensures Count([]) == 0 && Subtotal([]) == 0
    ensures Count(cart + [item]) == Count(cart) + item.quantity
    ensures Subtotal(cart + [item]) == Subtotal(cart) + item.product.price * item.quantity
  {
    assert (cart + [item])[..|cart|] == cart;
  }

  // ---------------------------------------------------------------------
  // addToCart
  // ---------------------------------------------------------------------

  function Increment(item: CartItem): CartItem
  {
    item.(quantity := item.quantity + 1)
  }

  /** Every line with the key (id, size) gains one unit; exactly those lines
      change, and only in their quantity. */
  function IncrementLines(cart: seq<CartItem>, id: int, size: int): (r: seq<CartItem>)
    ensures |r| == |cart|
    ensures forall k :: 0 <= k < |cart| ==>
              && r[k].product == cart[k].product && r[k].selectedSize == cart[k].selectedSize
              && (r[k] == cart[k] <==> !Matches(cart[k], id, size))
              && r[k].quantity >= cart[k].quantity
  {
    seq(|cart|, k requires 0 <= k < |cart| =>
      if Matches(cart[k], id, size) then Increment(cart[k]) else cart[k])
  }

  /** Adding a product in a size: the line with that key gains a unit if
      there is one, otherwise a line of quantity one is appended. Either way
      the key is in the cart afterwards, the existing lines keep their keys
      and positions, and the cart grows by a line only for a new key. */
  function AddToCart(cart: seq<CartItem>, product: Product, size: int): (r: seq<CartItem>)
    ensures !NoLine(r, product.id, size)
    ensures |r| == if NoLine(cart, product.id, size) then |cart| + 1 else |cart|
    ensures forall k :: 0 <= k < |cart| ==> SameKey(r[k], cart[k])
  {
    if FindLine(cart, product.id, size).Some? then IncrementLines(cart, product.id, size)
    else
      var r := cart + [CartItem(product, size, 1)];
      assert Matches(r[|cart|], product.id, size);
      r
  }

  /** In a cart with unique keys, incrementing by key changes one line. */
  lemma IncrementOnly(cart: seq<CartItem>, id: int, size: int, k: int)
    requires Unique(cart)
    requires 0 <= k < |cart| && Matches(cart[k], id, size)
    ensures IncrementLines(cart, id, size) == cart[k := Increment(cart[k])]
  {
    OnlyMatch(cart, id, size, k);
  }

  /** Adding a key that is already in the cart adds one to that line's
      quantity and changes nothing else; the badge grows by one and the
      subtotal by the price recorded in that line. */
  lemma AddExisting(cart: seq<CartItem>, product: Product, size: int, k: int)
    requires Unique(cart)
    requires 0 <= k < |cart| && Matches(cart[k], product.id, size)
    ensures var r := AddToCart(cart, product, size);
            && |r| == |cart|
            && r[k] == cart[k].(quantity := cart[k].quantity + 1)
            && (forall j :: 0 <= j < |cart| && j != k ==> r[j] == cart[j])
            && Count(r) == Count(cart) + 1
            && Subtotal(r) == Subtotal(cart) + cart[k].product.price
  {
    IncrementOnly(cart, product.id, size, k);
    assert !NoLine(cart, product.id, size);
    IncrementTotals(cart, k);
    IncrementSubtotal(cart, k);
  }

  /** One more unit on line k raises the badge by one and the subtotal by
      that line's price. */
  lemma IncrementTotals(cart: seq<CartItem>, k: int)
    requires 0 <= k < |cart|
    ensures Count(cart[k := Increment(cart[k])]) == Count(cart) + 1
  {
    var r := cart[k := Increment(cart[k])];
    SumPointUpdate(cart, r, k, LineQuantity);
  }

  lemma IncrementSubtotal(cart: seq<CartItem>, k: int)
    requires 0 <= k < |cart|
    ensures Subtotal(cart[k := Increment(cart[k])]) == Subtotal(cart) + cart[k].product.price
  {
    var r := cart[k := Increment(cart[k])];
    SumPointUpdate(cart, r, k, LineTotal);
    assert LineTotal(r[k]) == LineTotal(cart[k]) + cart[k].product.price by {
      var p, q := cart[k].product.price, cart[k].quantity;
      assert p * (q + 1) == p * q + p;
    }
  }

  /** Adding a key that is not in the cart appends one line, a copy of the
      product with the chosen size and quantity one; the existing lines keep
      their values and their order. */
  lemma AddNew(cart: seq<CartItem>, product: Product, size: int)
    requires NoLine(cart, product.id, size)
    ensures var r := AddToCart(cart, product, size);
            && |r| == |cart| + 1
            && r[..|cart|] == cart
            && r[|cart|] == CartItem(product, size, 1)
            && r[|cart|].product.price == product.price
            && Count(r) == Count(cart) + 1
            && Subtotal(r) == Subtotal(cart) + product.price
  {
    FoldSteps(cart, CartItem(product, size, 1));
  }

  /** Adding keeps keys unique and quantities positive. */
  lemma AddPreservesValid(cart: seq<CartItem>, product: Product, size: int)
    requires Valid(cart)
    ensures Valid(AddToCart(cart, product, size))
  {
    var r := AddToCart(cart, product, size);
    if !NoLine(cart, product.id, size) {
      assert forall j :: 0 <= j < |cart| ==> SameKey(r[j], cart[j]) && SameKey(cart[j], r[j]);
    } else {
      assert forall j :: 0 <= j < |cart| ==> r[j] == cart[j];
    }
  }

  /** Adding the same (product, size) twice to a cart without it yields one
      line of quantity two, never two lines. */
  lemma AddTwice(cart: seq<CartItem>, product: Product, size: int)
    requires NoLine(cart, product.id, size)
    ensures AddToCart(AddToCart(cart, product, size), product, size)
            == cart + [CartItem(product, size, 2)]
  {
    var once := AddToCart(cart, product, size);
    assert once == cart + [CartItem(product, size, 1)];
    assert Matches(once[|cart|], product.id, size);
    assert FindLine(once, product.id, size).Some?;
  }

  // ---------------------------------------------------------------------
  // updateCartQty
  // ---------------------------------------------------------------------

  function Max(a: int, b: int): int { if a < b then b else a }

  /** Every line with the key (id, size) gets quantity `max(1, quantity +
      delta)`; the other lines, and every product and size, stay as they were. */
  function UpdateQuantity(cart: seq<CartItem>, id: int, size: int, delta: int): (r: seq<CartItem>)
    ensures |r| == |cart|
    ensures forall k :: 0 <= k < |cart| ==>
              && r[k].product == cart[k].product && r[k].selectedSize == cart[k].selectedSize
              && (!Matches(cart[k], id, size) ==> r[k] == cart[k])
              && (Matches(cart[k], id, size) ==>
                    && r[k].quantity >= 1 && r[k].quantity >= cart[k].quantity + delta
                    && (r[k].quantity == 1 || r[k].quantity == cart[k].quantity + delta))
  {
    seq(|cart|, k requires 0 <= k < |cart| =>
      if Matches(cart[k], id, size) then cart[k].(quantity := Max(1, cart[k].quantity + delta))
      else cart[k])
  }

  /** The matching line's quantity becomes `max(1, quantity + delta)`, never
      below one; nothing else changes, and the totals move by that line alone. */
  lemma UpdateExisting(cart: seq<CartItem>, id: int, size: int, delta: int, k: int)
    requires Unique(cart)
    requires 0 <= k < |cart| && Matches(cart[k], id, size)
    ensures var r := UpdateQuantity(cart, id, size, delta);
            && |r| == |cart|
            && r[k] == cart[k].(quantity := Max(1, cart[k].quantity + delta))
            && r[k].quantity >= 1
            && r[k].quantity >= cart[k].quantity + delta
            && (forall j :: 0 <= j < |cart| && j != k ==> r[j] == cart[j])
            && Count(r) == Count(cart) - cart[k].quantity + r[k].quantity
            && Subtotal(r) == Subtotal(cart) - LineTotal(cart[k]) + LineTotal(r[k])
  {
    var r := UpdateQuantity(cart, id, size, delta);
    OnlyMatch(cart, id, size, k);
    SumPointUpdate(cart, r, k, LineQuantity);
    SumPointUpdate(cart, r, k, LineTotal);
  }

  /** Without a matching line the update is silently ignored. */
  lemma UpdateAbsent(cart: seq<CartItem>, id: int, size: int, delta: int)
    requires NoLine(cart, id, size)
    ensures UpdateQuantity(cart, id, size, delta) == cart
  {
  }

  /** Decrementing a line of quantity one leaves the whole cart as it was:
      only removal deletes a line. */
  lemma DecrementAtOne(cart: seq<CartItem>, id: int, size: int, k: int)
    requires Unique(cart)
    requires 0 <= k < |cart| && Matches(cart[k], id, size) && cart[k].quantity == 1
    ensures UpdateQuantity(cart, id, size, -1) == cart
  {
    OnlyMatch(cart, id, size, k);
  }

  /** The quantity update keeps keys unique and quantities positive. */
  lemma UpdatePreservesValid(cart: seq<CartItem>, id: int, size: int, delta: int)
    requires Valid(cart)
    ensures Valid(UpdateQuantity(cart, id, size, delta))
  {
    var r := UpdateQuantity(cart, id, size, delta);
    assert forall j :: 0 <= j < |cart| ==> SameKey(r[j], cart[j]) && SameKey(cart[j], r[j]);
  }

  // ---------------------------------------------------------------------
  // removeFromCart
  // ---------------------------------------------------------------------

  /** The lines without the key (id, size), in their order (App.tsx:1047). */
  function RemoveLines(cart: seq<CartItem>, id: int, size: int): (r: seq<CartItem>)
    ensures |r| <= |cart|
    ensures forall x :: x in r <==> x in cart && !Matches(x, id, size)
  {
    if cart == [] then []
    else
      var init, last := cart[..|cart| - 1], cart[|cart| - 1];
      assert cart == init + [last];
      RemoveLines(init, id, size) + (if Matches(last, id, size) then [] else [last])
  }

  /** Removing an absent key leaves the cart unchanged. */
  lemma {:induction false} RemoveAbsent(cart: seq<CartItem>, id: int, size: int)
    requires NoLine(cart, id, size)
    ensures RemoveLines(cart, id, size) == cart
  {
    if cart != [] {
      var init := cart[..|cart| - 1];
      RemoveAbsent(init, id, size);
      assert cart == init + [cart[|cart| - 1]];
    }
  }

  /** In a cart with unique keys, removal deletes exactly the matching line
      and keeps the others in their order. */
  lemma {:induction false} RemoveSplice(cart: seq<CartItem>, id: int, size: int, k: int)
    requires Unique(cart)
    requires 0 <= k < |cart| && Matches(cart[k], id, size)
    ensures RemoveLines(cart, id, size) == cart[..k] + cart[k + 1..]
  {
    var n := |cart|;
    var init, last := cart[..n - 1], cart[n - 1];
    assert cart == init + [last];
    OnlyMatch(cart, id, size, k);
    if k == n - 1 {
      RemoveAbsent(init, id, size);
    } else {
      assert Unique(init);
      RemoveSplice(init, id, size, k);
      assert !Matches(last, id, size);
      assert init[..k] + init[k + 1..] + [last] == cart[..k] + cart[k + 1..];
    }
  }

  /** Removing a present key shortens the cart by one line and lowers the
      badge and the subtotal by that line's quantity and line total. */
  lemma RemoveExisting(cart: seq<CartItem>, id: int, size: int, k: int)
    requires Unique(cart)
    requires 0 <= k < |cart| && Matches(cart[k], id, size)
    ensures var r := RemoveLines(cart, id, size);
            && |r| == |cart| - 1
            && Count(r) == Count(cart) - cart[k].quantity
            && Subtotal(r) == Subtotal(cart) - LineTotal(cart[k])
  {
    RemoveSplice(cart, id, size, k);
    SumSplice(cart, k, LineQuantity);
    SumSplice(cart, k, LineTotal);
  }

  /** Dropping one line of a valid cart leaves a valid cart. */
  lemma SpliceValid(cart: seq<CartItem>, k: int)
    requires Valid(cart) && 0 <= k < |cart|
    ensures Valid(cart[..k] + cart[k + 1..])
  {
    var r := cart[..k] + cart[k + 1..];
    assert forall j :: 0 <= j < |r| ==> r[j] == cart[if j < k then j else j + 1];
    forall i, j | 0 <= i < j < |r| ensures !SameKey(r[i], r[j]) {
      var i', j' := if i < k then i else i + 1, if j < k then j else j + 1;
      assert r[i] == cart[i'] && r[j] == cart[j'] && i' < j';
    }
  }

  /** Removal keeps keys unique and quantities positive. */
  lemma RemovePreservesValid(cart: seq<CartItem>, id: int, size: int)
    requires Valid(cart)
    ensures Valid(RemoveLines(cart, id, size))
  {
    match FindLine(cart, id, size)
    case None => RemoveAbsent(cart, id, size);
    case Some(item) =>
      var k :| 0 <= k < |cart| && cart[k] == item;
      RemoveSplice(cart, id, size, k);
      SpliceValid(cart, k);
  }
}
