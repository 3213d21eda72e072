/** The sales screen's cart (src/components/SalesInterface.jsx): the pure helpers
    that build a new cart array on every edit, the cart total, and the effect
    that committing a cart has on the products table and the sale items table. */
module Cart {
  import opened Wrappers
  import opened Seqs
  import opened Records

  /** A cart line is the product record as it was when it was added
      (`{...product}`) together with the quantity being sold. */
  datatype CartLine = CartLine(item: Product, saleQty: int)

  /** Why an attempt to add to the cart changed nothing. */
  datatype Rejection = NoProductSelected | InvalidQuantity | NotEnoughStock | MaxStockReached

  /** The cart after an edit, and the reason it was left as it was, if it was. */
  datatype CartStep = CartStep(cart: seq<CartLine>, rejected: Option<Rejection>)

  function LineId(l: CartLine): nat { l.item.id }
  function LineAmount(l: CartLine): int { l.item.unitPrice * l.saleQty }
  function LineUnits(l: CartLine): int { l.saleQty }
  function Positive(l: CartLine): bool { l.saleQty > 0 }

  /** `totalAmount`: the sum of unit price times quantity over the lines. */
  function CartTotal(cart: seq<CartLine>): (t: int)
    ensures |cart| == 0 ==> t == 0
  {
    Sum(cart, LineAmount)
  }

  /** The quantity the cart holds of product `id` (the first line with that id), 0 if none. */
  function QtyInCart(cart: seq<CartLine>, id: nat): int
  {
    match Find(cart, LineId, id)
    case Some(l) => l.saleQty
    case None => 0
  }

  predicate InCart(cart: seq<CartLine>, id: nat)
  {
    Find(cart, LineId, id).Some?
  }

  /** One line per product. */
  predicate UniqueLines(cart: seq<CartLine>)
  {
    Distinct(cart, LineId)
  }

  /** The line's quantity is within the stock of its product in `stock`. */
  predicate Stocked(stock: seq<Product>, l: CartLine)
  {
    match Find(stock, ProductId, l.item.id)
    case Some(p) => l.saleQty <= p.quantity
    case None => false
  }

  /** The cart invariant: one line per product, and 0 < sale_qty <= stock on every line. */
  predicate CartValid(cart: seq<CartLine>, stock: seq<Product>)
  {
    UniqueLines(cart) && forall i :: 0 <= i < |cart| ==> 0 < cart[i].saleQty && Stocked(stock, cart[i])
  }

  lemma {:induction false} QtyInCartAt(cart: seq<CartLine>, k: nat)
    requires UniqueLines(cart) && k < |cart|
    ensures InCart(cart, cart[k].item.id) && QtyInCart(cart, cart[k].item.id) == cart[k].saleQty
  {
    FindDistinct(cart, LineId, k);
  }

  /** The products the sales screen lists: those with stock above 0
      (`where('quantity').above(0)`). */
  function AvailableProducts(table: seq<Product>): (r: seq<Product>)
    ensures forall p :: p in r <==> p in table && p.quantity > 0
  {
    Filter(table, (p: Product) => p.quantity > 0)
  }

  /** A cart valid against the screen's product list is valid against the table
      it was read from, as long as the table has one record per id. */
  lemma {:induction false} CartValidAgainstTable(cart: seq<CartLine>, table: seq<Product>)
    requires Distinct(table, ProductId)
    requires CartValid(cart, AvailableProducts(table))
    ensures CartValid(cart, table)
  {
    forall i | 0 <= i < |cart| ensures Stocked(table, cart[i]) {
      var p := Find(AvailableProducts(table), ProductId, cart[i].item.id).value;
      assert p in AvailableProducts(table);
      var k :| 0 <= k < |table| && table[k] == p;
      FindDistinct(table, ProductId, k);
    }
  }

  /** Every line of product `id` gets quantity `q` (`cart.map(...)`). */
  function SetLineQty(cart: seq<CartLine>, id: nat, q: int): (r: seq<CartLine>)
    ensures |r| == |cart|
    ensures forall i :: 0 <= i < |cart| ==> r[i].item == cart[i].item
    ensures forall i :: 0 <= i < |cart| ==> r[i].saleQty == if cart[i].item.id == id then q else cart[i].saleQty
  {
    seq(|cart|, i requires 0 <= i < |cart| =>
      if cart[i].item.id == id then cart[i].(saleQty := q) else cart[i])
  }

  /** `addToCart(product, quantity)`: merges into the product's line when the
      merged quantity fits the product's stock, appends a new line otherwise. */
  function AddToCart(cart: seq<CartLine>, product: Product, quantity: int): (r: CartStep)
    ensures r.rejected.Some? ==> r.cart == cart && r.rejected == Some(MaxStockReached)
    ensures r.rejected.None? <==>
      !InCart(cart, product.id) || QtyInCart(cart, product.id) + quantity <= product.quantity
    ensures !InCart(cart, product.id) ==> r.cart == cart + [CartLine(product, quantity)]
    ensures InCart(cart, product.id) ==>
      |r.cart| == |cart| && forall i :: 0 <= i < |cart| ==> r.cart[i].item == cart[i].item
  {
    match Find(cart, LineId, product.id)
    case Some(existing) =>
      var newQty := existing.saleQty + quantity;
      if newQty <= product.quantity then CartStep(SetLineQty(cart, product.id, newQty), None)
      else CartStep(cart, Some(MaxStockReached))
    case None => CartStep(cart + [CartLine(product, quantity)], None)
  }

  /** An accepted add raises the product's quantity by exactly `quantity`, leaves
      every other product's quantity as it was, and keeps one line per product. */
  lemma {:induction false} AddToCartEffect(cart: seq<CartLine>, product: Product, quantity: int)
    requires UniqueLines(cart)
    ensures UniqueLines(AddToCart(cart, product, quantity).cart)
    ensures var r := AddToCart(cart, product, quantity);
      r.rejected.None? ==>
        && InCart(r.cart, product.id)
        && QtyInCart(r.cart, product.id) == QtyInCart(cart, product.id) + quantity
        && forall o :: o != product.id ==> QtyInCart(r.cart, o) == QtyInCart(cart, o)
  {
    var r := AddToCart(cart, product, quantity);
    var id := product.id;
    if InCart(cart, id) {
      if r.rejected.None? {
        var c := r.cart;
        assert forall i :: 0 <= i < |c| ==> c[i].item == cart[i].item;
        assert UniqueLines(c);
        var k :| 0 <= k < |cart| && cart[k] == Find(cart, LineId, id).value;
        QtyInCartAt(cart, k);
        QtyInCartAt(c, k);
        forall o | o != id ensures QtyInCart(c, o) == QtyInCart(cart, o) {
          if InCart(cart, o) {
            var j :| 0 <= j < |cart| && cart[j] == Find(cart, LineId, o).value;
            QtyInCartAt(cart, j);
            QtyInCartAt(c, j);
          }
        }
      }
    } else {
      var c := r.cart;
      assert c == cart + [CartLine(product, quantity)];
      assert UniqueLines(c);
      QtyInCartAt(c, |cart|);
      forall o | o != id ensures QtyInCart(c, o) == QtyInCart(cart, o) {
        if InCart(cart, o) {
          var j :| 0 <= j < |cart| && cart[j] == Find(cart, LineId, o).value;
          QtyInCartAt(cart, j);
          QtyInCartAt(c, j);
        }
      }
    }
  }

  /** `confirmAddToCart`: the quantity typed in the modal must be a number above 0
      and within the selected product's stock; only then is it added. */
  function ConfirmAddToCart(cart: seq<CartLine>, selected: Option<Product>, qtyInput: Option<int>): (r: CartStep)
    ensures r.rejected.Some? ==> r.cart == cart
    ensures selected.None? ==> r.rejected == Some(NoProductSelected)
    ensures selected.Some? && (qtyInput.None? || qtyInput.value <= 0) ==> r.rejected == Some(InvalidQuantity)
    ensures selected.Some? && qtyInput.Some? && 0 < qtyInput.value && qtyInput.value > selected.value.quantity
            ==> r.rejected == Some(NotEnoughStock)
    ensures r.rejected.None? ==>
              selected.Some? && qtyInput.Some? && 0 < qtyInput.value <= selected.value.quantity
    ensures selected.Some? && qtyInput.Some? && 0 < qtyInput.value <= selected.value.quantity ==>
              r == AddToCart(cart, selected.value, qtyInput.value)
  {
    if selected.None? then CartStep(cart, Some(NoProductSelected))
    else if qtyInput.None? || qtyInput.value <= 0 then CartStep(cart, Some(InvalidQuantity))
    else if qtyInput.value > selected.value.quantity then CartStep(cart, Some(NotEnoughStock))
    else AddToCart(cart, selected.value, qtyInput.value)
  }

  /** Adding through the modal keeps the cart invariant, for a product picked
      from the list the cart is checked against. */
  lemma {:induction false} ConfirmAddKeepsCartValid(cart: seq<CartLine>, stock: seq<Product>, selected: Option<Product>, qtyInput: Option<int>)
    requires CartValid(cart, stock)
    requires selected.Some? ==> Find(stock, ProductId, selected.value.id) == Some(selected.value)
    ensures CartValid(ConfirmAddToCart(cart, selected, qtyInput).cart, stock)
  {
    var r := ConfirmAddToCart(cart, selected, qtyInput);
    if r.rejected.None? {
      var p := selected.value;
      var q := qtyInput.value;
      AddToCartEffect(cart, p, q);
      var c := r.cart;
      if InCart(cart, p.id) {
        var k :| 0 <= k < |cart| && cart[k] == Find(cart, LineId, p.id).value;
        QtyInCartAt(cart, k);
        forall i | 0 <= i < |c| ensures 0 < c[i].saleQty && Stocked(stock, c[i]) {
          assert c[i].item == cart[i].item;
          if cart[i].item.id == p.id {
            assert c[i].saleQty == cart[k].saleQty + q;
          }
        }
      } else {
        assert c == cart + [CartLine(p, q)];
        forall i | 0 <= i < |c| ensures 0 < c[i].saleQty && Stocked(stock, c[i]) {
          if i < |cart| { assert c[i] == cart[i]; }
        }
      }
    }
  }

  function Max(a: int, b: int): int { if a < b then b else a }

  /** The `+`/`-` edit of one line: the new quantity is clamped at 0 and kept
      only if it fits `limit`, the product's stock. */
  function Retarget(l: CartLine, id: nat, delta: int, limit: int): (r: CartLine)
    ensures r.item == l.item
  {
    if l.item.id == id then
      var newQty := Max(0, l.saleQty + delta);
      if newQty <= limit then l.(saleQty := newQty) else l
    else l
  }

  /** The `map` of `updateQty`: line i becomes line i's edit. */
  function RetargetAll(cart: seq<CartLine>, id: nat, delta: int, limit: int): (r: seq<CartLine>)
    ensures |r| == |cart|
    ensures forall i :: 0 <= i < |cart| ==> r[i] == Retarget(cart[i], id, delta, limit)
  {
    seq(|cart|, i requires 0 <= i < |cart| => Retarget(cart[i], id, delta, limit))
  }

  /** `updateQty(id, delta)`: edits the line of product `id` against the stock
      the screen lists, then drops every line whose quantity is not positive.
      If that product is not in the list, `product.quantity` throws inside the
      `map` and the cart is left as it was. */
  function UpdateQty(cart: seq<CartLine>, stock: seq<Product>, id: nat, delta: int): (r: seq<CartLine>)
    ensures |r| <= |cart|
  {
    match Find(stock, ProductId, id)
    case None => if InCart(cart, id) then cart else Filter(cart, Positive)
    case Some(p) => Filter(RetargetAll(cart, id, delta, p.quantity), Positive)
  }

  /** Dropping the empty lines: each product's quantity becomes its positive part. */
  lemma {:induction false} DropEmptyLines(cart: seq<CartLine>, o: nat)
    requires UniqueLines(cart)
    ensures UniqueLines(Filter(cart, Positive))
    ensures QtyInCart(Filter(cart, Positive), o) == Max(0, QtyInCart(cart, o))
  {
    var r := Filter(cart, Positive);
    FilterDistinct(cart, Positive, LineId);
    if InCart(cart, o) {
      var k :| 0 <= k < |cart| && cart[k] == Find(cart, LineId, o).value;
      QtyInCartAt(cart, k);
      if cart[k].saleQty > 0 {
        assert cart[k] in r;
        var m :| 0 <= m < |r| && r[m] == cart[k];
        QtyInCartAt(r, m);
      } else {
        forall m | 0 <= m < |r| ensures r[m].item.id != o {
          assert r[m] in r;
          var j :| 0 <= j < |cart| && cart[j] == r[m];
        }
      }
    } else {
      forall m | 0 <= m < |r| ensures r[m].item.id != o {
        assert r[m] in r;
        var j :| 0 <= j < |cart| && cart[j] == r[m];
      }
    }
  }

  /** With a line for `id` in a valid cart, the product is in the list and the
      edit is the clamped, stock-checked `map` followed by the `filter`. */
  lemma {:induction false} UpdateQtyShape(cart: seq<CartLine>, stock: seq<Product>, id: nat, delta: int) returns (k: nat, p: Product)
    requires CartValid(cart, stock) && InCart(cart, id)
    ensures k < |cart| && cart[k].item.id == id && QtyInCart(cart, id) == cart[k].saleQty
    ensures Find(stock, ProductId, id) == Some(p) && cart[k].saleQty <= p.quantity
    ensures UpdateQty(cart, stock, id, delta) == Filter(RetargetAll(cart, id, delta, p.quantity), Positive)
    ensures UniqueLines(RetargetAll(cart, id, delta, p.quantity))
  {
    k :| 0 <= k < |cart| && cart[k] == Find(cart, LineId, id).value;
    QtyInCartAt(cart, k);
    assert Stocked(stock, cart[k]);
    p := Find(stock, ProductId, id).value;
    var m := RetargetAll(cart, id, delta, p.quantity);
    assert forall i :: 0 <= i < |m| ==> m[i].item == cart[i].item;
  }

  /** Without a line for `id`, `updateQty` changes nothing. */
  lemma {:induction false} UpdateQtyWithoutLine(cart: seq<CartLine>, stock: seq<Product>, id: nat, delta: int)
    requires CartValid(cart, stock) && !InCart(cart, id)
    ensures UpdateQty(cart, stock, id, delta) == cart
  {
    FilterAll(cart, Positive);
    if Find(stock, ProductId, id).Some? {
      assert RetargetAll(cart, id, delta, Find(stock, ProductId, id).value.quantity) == cart;
    }
  }

  /** `updateQty` keeps the cart invariant: one line per product, 0 < sale_qty <= stock. */
  lemma {:induction false} UpdateQtyKeepsCartValid(cart: seq<CartLine>, stock: seq<Product>, id: nat, delta: int)
    requires CartValid(cart, stock)
    ensures CartValid(UpdateQty(cart, stock, id, delta), stock)
  {
    if !InCart(cart, id) {
      UpdateQtyWithoutLine(cart, stock, id, delta);
    } else {
      var k, p := UpdateQtyShape(cart, stock, id, delta);
      var m := RetargetAll(cart, id, delta, p.quantity);
      var r := Filter(m, Positive);
      FilterDistinct(m, Positive, LineId);
      forall i | 0 <= i < |r| ensures 0 < r[i].saleQty && Stocked(stock, r[i]) {
        assert r[i] in r;
        var j :| 0 <= j < |m| && m[j] == r[i];
        assert Stocked(stock, cart[j]);
      }
    }
  }

  /** `updateQty` leaves the quantity of every other product as it was. */
  lemma {:induction false} UpdateQtyKeepsOthers(cart: seq<CartLine>, stock: seq<Product>, id: nat, delta: int, o: nat)
    requires CartValid(cart, stock) && o != id
    ensures QtyInCart(UpdateQty(cart, stock, id, delta), o) == QtyInCart(cart, o)
  {
    if !InCart(cart, id) {
      UpdateQtyWithoutLine(cart, stock, id, delta);
    } else {
      var k, p := UpdateQtyShape(cart, stock, id, delta);
      var m := RetargetAll(cart, id, delta, p.quantity);
      DropEmptyLines(m, o);
      if InCart(cart, o) {
        var j :| 0 <= j < |cart| && cart[j] == Find(cart, LineId, o).value;
        QtyInCartAt(cart, j);
        QtyInCartAt(m, j);
      } else {
        assert forall i :: 0 <= i < |m| ==> m[i].item.id != o by {
          forall i | 0 <= i < |m| ensures m[i].item.id != o {
            assert m[i].item == cart[i].item;
          }
        }
      }
    }
  }

  /** The `map` of `updateQty` returns every line of another product as it was,
      and every line it returns carries a product record the cart held. */
  lemma {:induction false} RetargetKeepsOtherLines(cart: seq<CartLine>, id: nat, delta: int, limit: int)
    ensures forall l: CartLine :: l.item.id != id ==> (l in RetargetAll(cart, id, delta, limit) <==> l in cart)
    ensures forall l :: l in RetargetAll(cart, id, delta, limit) ==> exists j :: 0 <= j < |cart| && cart[j].item == l.item
  {
    var m := RetargetAll(cart, id, delta, limit);
    forall l: CartLine | l.item.id != id ensures l in m <==> l in cart {
      if l in cart {
        var j :| 0 <= j < |cart| && cart[j] == l;
        assert m[j] == l;
      }
      if l in m {
        var j :| 0 <= j < |m| && m[j] == l;
        assert m[j].item == cart[j].item;
      }
    }
    forall l | l in m ensures exists j :: 0 <= j < |cart| && cart[j].item == l.item {
      var j :| 0 <= j < |m| && m[j] == l;
      assert m[j].item == cart[j].item;
    }
  }

  /** `updateQty` returns every line of another product as it was, and every line
      it keeps, the edited one included, carries a product record the cart held. */
  lemma {:induction false} UpdateQtyKeepsOtherLines(cart: seq<CartLine>, stock: seq<Product>, id: nat, delta: int)
    requires CartValid(cart, stock)
    ensures forall l: CartLine :: l.item.id != id ==> (l in UpdateQty(cart, stock, id, delta) <==> l in cart)
    ensures forall l :: l in UpdateQty(cart, stock, id, delta) ==> exists j :: 0 <= j < |cart| && cart[j].item == l.item
  {
    var r := UpdateQty(cart, stock, id, delta);
    forall l | l in cart ensures Positive(l) {
      var j :| 0 <= j < |cart| && cart[j] == l;
    }
    match Find(stock, ProductId, id)
    case None =>
      forall l | l in r ensures exists j :: 0 <= j < |cart| && cart[j].item == l.item {
        var j :| 0 <= j < |cart| && cart[j] == l;
      }
    case Some(p) =>
      RetargetKeepsOtherLines(cart, id, delta, p.quantity);
  }

  /** `updateQty` sets the edited line to max(0, sale_qty + delta) when that fits
      the product's stock, keeps it otherwise, and removes the line when it reaches 0. */
  lemma {:induction false} UpdateQtyEditsLine(cart: seq<CartLine>, stock: seq<Product>, id: nat, delta: int)
    requires CartValid(cart, stock) && InCart(cart, id)
    ensures Find(stock, ProductId, id).Some?
    ensures var limit := Find(stock, ProductId, id).value.quantity;
            var newQty := Max(0, QtyInCart(cart, id) + delta);
            var r := UpdateQty(cart, stock, id, delta);
            && (newQty <= limit ==> QtyInCart(r, id) == newQty)
            && (newQty > limit ==> QtyInCart(r, id) == QtyInCart(cart, id))
            && (newQty == 0 ==> !InCart(r, id))
  {
    var k, p := UpdateQtyShape(cart, stock, id, delta);
    var m := RetargetAll(cart, id, delta, p.quantity);
    QtyInCartAt(m, k);
    DropEmptyLines(m, id);
    var r := Filter(m, Positive);
    if InCart(r, id) {
      var l := Find(r, LineId, id).value;
      var i :| 0 <= i < |r| && r[i] == l;
      assert r[i] in r;
    }
  }

  /** `db.products.update(id, {quantity: q})`. */
  function SetQuantity(ps: seq<Product>, id: nat, q: int): (r: seq<Product>)
    ensures |r| == |ps|
    ensures forall i :: 0 <= i < |ps| ==> r[i] == ps[i].(quantity := r[i].quantity)
    ensures forall i :: 0 <= i < |ps| ==> r[i].quantity == if ps[i].id == id then q else ps[i].quantity
  {
    seq(|ps|, i requires 0 <= i < |ps| => if ps[i].id == id then ps[i].(quantity := q) else ps[i])
  }

  /** The stock write for one cart line: re-read the product, store its quantity
      less the line's. A missing product is the error case, handled by the caller. */
  function CommitLine(ps: seq<Product>, l: CartLine): (r: seq<Product>)
    ensures |r| == |ps|
    ensures forall i :: 0 <= i < |ps| ==> r[i] == ps[i].(quantity := r[i].quantity)
    ensures Find(ps, ProductId, l.item.id).None? ==> r == ps
    ensures forall i :: 0 <= i < |ps| && ps[i].id != l.item.id ==> r[i] == ps[i]
  {
    match Find(ps, ProductId, l.item.id)
    case Some(p) => SetQuantity(ps, l.item.id, p.quantity - l.saleQty)
    case None => ps
  }

  /** The products table after the stock writes for `cart`, line by line. Only
      quantities change: ids, names and prices stay. */
  function Decrement(ps: seq<Product>, cart: seq<CartLine>): (r: seq<Product>)
    ensures |r| == |ps|
    ensures forall i :: 0 <= i < |ps| ==> r[i] == ps[i].(quantity := r[i].quantity)
  {
    if |cart| == 0 then ps
    else CommitLine(Decrement(ps, cart[..|cart| - 1]), cart[|cart| - 1])
  }

  /** The units of product `id` the cart sells, over all its lines. */
  function UnitsFor(cart: seq<CartLine>, id: nat): int
  {
    Sum(cart, (l: CartLine) => if l.item.id == id then l.saleQty else 0)
  }

  lemma {:induction false} UnitsForSplit(cart: seq<CartLine>, id: nat)
    requires |cart| > 0
    ensures UnitsFor(cart, id) ==
      UnitsFor(cart[..|cart| - 1], id) + (if cart[|cart| - 1].item.id == id then cart[|cart| - 1].saleQty else 0)
  {
    var n := |cart|;
    assert cart == cart[..n - 1] + [cart[n - 1]];
    SumAppend(cart[..n - 1], [cart[n - 1]], (l: CartLine) => if l.item.id == id then l.saleQty else 0);
  }

  /** Committing a cart lowers each product's stock by exactly the units the cart
      sells of it; a product the cart does not hold is left as it was. */
  lemma {:induction false} DecrementPerProduct(ps: seq<Product>, cart: seq<CartLine>, k: nat)
    requires Distinct(ps, ProductId) && k < |ps|
    ensures Decrement(ps, cart)[k] == ps[k].(quantity := ps[k].quantity - UnitsFor(cart, ps[k].id))
  {
    var n := |cart|;
    if n == 0 {
      assert UnitsFor(cart, ps[k].id) == 0;
    } else {
      var c' := cart[..n - 1];
      var l := cart[n - 1];
      var d' := Decrement(ps, c');
      DecrementPerProduct(ps, c', k);
      UnitsForSplit(cart, ps[k].id);
      assert Distinct(d', ProductId) by {
        forall i, j | 0 <= i < j < |d'| ensures d'[i].id != d'[j].id {
          assert d'[i].id == ps[i].id && d'[j].id == ps[j].id;
        }
      }
      if l.item.id == ps[k].id {
        FindDistinct(d', ProductId, k);
      }
    }
  }

  /** If the cart invariant holds against the current table, committing the cart
      drives no quantity below zero. */
  lemma {:induction false} NoNegativeStock(ps: seq<Product>, cart: seq<CartLine>)
    requires Distinct(ps, ProductId)
    requires CartValid(cart, ps)
    ensures forall k :: 0 <= k < |ps| && ps[k].quantity >= 0 ==> Decrement(ps, cart)[k].quantity >= 0
  {
    forall k | 0 <= k < |ps| && ps[k].quantity >= 0 ensures Decrement(ps, cart)[k].quantity >= 0 {
      DecrementPerProduct(ps, cart, k);
      UnitsForLine(cart, ps[k].id);
      if InCart(cart, ps[k].id) {
        var j :| 0 <= j < |cart| && cart[j] == Find(cart, LineId, ps[k].id).value;
        QtyInCartAt(cart, j);
        assert Stocked(ps, cart[j]);
        FindDistinct(ps, ProductId, k);
      }
    }
  }

  /** With one line per product, the units the cart sells of a product are that line's quantity. */
  lemma {:induction false} UnitsForLine(cart: seq<CartLine>, id: nat)
    requires UniqueLines(cart)
    ensures UnitsFor(cart, id) == QtyInCart(cart, id)
  {
    if |cart| > 0 {
      var rest := cart[1..];
      assert UniqueLines(rest) by {
        forall i, j | 0 <= i < j < |rest| ensures rest[i].item.id != rest[j].item.id {
          assert rest[i] == cart[i + 1] && rest[j] == cart[j + 1];
        }
      }
      UnitsForLine(rest, id);
      if cart[0].item.id == id {
        assert forall i :: 0 <= i < |rest| ==> rest[i].item.id != id by {
          forall i | 0 <= i < |rest| ensures rest[i].item.id != id {
            assert rest[i] == cart[i + 1];
          }
        }
      }
    }
  }

  lemma {:induction false} SetQuantityUnits(ps: seq<Product>, id: nat, q: int, m: nat)
    requires Distinct(ps, ProductId) && m < |ps| && ps[m].id == id
    ensures Sum(SetQuantity(ps, id, q), ProductQuantity) == Sum(ps, ProductQuantity) - ps[m].quantity + q
  {
    var r := SetQuantity(ps, id, q);
    assert r[1..] == SetQuantity(ps[1..], id, q);
    var rest := ps[1..];
    assert Distinct(rest, ProductId) by {
      forall i, j | 0 <= i < j < |rest| ensures rest[i].id != rest[j].id {
        assert rest[i] == ps[i + 1] && rest[j] == ps[j + 1];
      }
    }
    if m == 0 {
      assert forall i :: 0 <= i < |rest| ==> rest[i].id != id by {
        forall i | 0 <= i < |rest| ensures rest[i].id != id {
          assert rest[i] == ps[i + 1];
        }
      }
      assert SetQuantity(rest, id, q) == rest;
    } else {
      SetQuantityUnits(rest, id, q, m - 1);
    }
  }

  /** The stock writes keep one record per product id. */
  lemma {:induction false} DecrementDistinct(ps: seq<Product>, cart: seq<CartLine>)
    requires Distinct(ps, ProductId)
    ensures Distinct(Decrement(ps, cart), ProductId)
  {
    var d := Decrement(ps, cart);
    forall i, j | 0 <= i < j < |d| ensures d[i].id != d[j].id {
      assert d[i].id == ps[i].id && d[j].id == ps[j].id;
    }
  }

  /** One stock write takes the line's units off the table's total. */
  lemma {:induction false} CommitLineUnits(ps: seq<Product>, l: CartLine, m: nat)
    requires Distinct(ps, ProductId) && m < |ps| && ps[m].id == l.item.id
    ensures Sum(CommitLine(ps, l), ProductQuantity) == Sum(ps, ProductQuantity) - l.saleQty
  {
    FindDistinct(ps, ProductId, m);
    assert CommitLine(ps, l) == SetQuantity(ps, l.item.id, ps[m].quantity - l.saleQty);
    SetQuantityUnits(ps, l.item.id, ps[m].quantity - l.saleQty, m);
  }

  /** Every cart line's product is in the table: the condition under which the
      sale transaction commits. */
  ghost predicate AllStocked(ps: seq<Product>, cart: seq<CartLine>)
  {
    |cart| == 0 ||
    (AllStocked(ps, cart[..|cart| - 1]) && Find(ps, ProductId, cart[|cart| - 1].item.id).Some?)
  }

  /** All lines are stocked exactly when each line is. */
  lemma {:induction false} AllStockedAt(ps: seq<Product>, cart: seq<CartLine>)
    ensures AllStocked(ps, cart) <==> forall i :: 0 <= i < |cart| ==> Find(ps, ProductId, cart[i].item.id).Some?
  {
    if |cart| > 0 {
      var init := cart[..|cart| - 1];
      AllStockedAt(ps, init);
      assert forall i :: 0 <= i < |init| ==> init[i] == cart[i];
    }
  }

  /** Conservation of stock: when every cart line's product exists, committing the
      cart removes from the table exactly the units the cart sells. */
  lemma {:induction false} DecrementConservesUnits(ps: seq<Product>, cart: seq<CartLine>)
    requires Distinct(ps, ProductId) && AllStocked(ps, cart)
    ensures Sum(Decrement(ps, cart), ProductQuantity) == Sum(ps, ProductQuantity) - Sum(cart, LineUnits)
  {
    var n := |cart|;
    if n > 0 {
      var c' := cart[..n - 1];
      var l := cart[n - 1];
      assert cart == c' + [l];
      calc {
        Sum(Decrement(ps, cart), ProductQuantity);
        Sum(CommitLine(Decrement(ps, c'), l), ProductQuantity);
        == { CommitAfterDecrement(ps, c', l); }
        Sum(Decrement(ps, c'), ProductQuantity) - l.saleQty;
        == { DecrementConservesUnits(ps, c'); }
        Sum(ps, ProductQuantity) - Sum(c', LineUnits) - l.saleQty;
        == { SumAppend(c', [l], LineUnits); }
        Sum(ps, ProductQuantity) - Sum(cart, LineUnits);
      }
    }
  }

  /** A stock write for a product the table holds, applied after earlier writes,
      takes the line's units off the total. */
  lemma CommitAfterDecrement(ps: seq<Product>, done: seq<CartLine>, l: CartLine)
    requires Distinct(ps, ProductId) && Find(ps, ProductId, l.item.id).Some?
    ensures Sum(CommitLine(Decrement(ps, done), l), ProductQuantity) ==
            Sum(Decrement(ps, done), ProductQuantity) - l.saleQty
  {
    var m :| 0 <= m < |ps| && ps[m] == Find(ps, ProductId, l.item.id).value;
    DecrementDistinct(ps, done);
    CommitLineUnits(Decrement(ps, done), l, m);
  }

  /** The sale item recorded for one cart line: quantity, price and cost copied from the line. */
  function ItemFor(saleId: nat, l: CartLine, itemId: nat): SaleItem
  {
    SaleItem(itemId, saleId, l.item.id, l.saleQty, l.item.unitPrice, l.item.purchasePrice)
  }

  /** The sale items a sale creates, one per cart line, under consecutive ids from `firstId`. */
  function NewItems(saleId: nat, cart: seq<CartLine>, firstId: nat): (items: seq<SaleItem>)
    ensures |items| == |cart|
    ensures forall k :: 0 <= k < |items| ==> items[k].saleId == saleId && items[k].id == firstId + k
    ensures forall k :: 0 <= k < |items| ==>
              && items[k].productId == cart[k].item.id && items[k].quantity == cart[k].saleQty
              && items[k].priceAtSale == cart[k].item.unitPrice
              && items[k].purchasePriceAtSale == cart[k].item.purchasePrice
  {
    seq(|cart|, i requires 0 <= i < |cart| => ItemFor(saleId, cart[i], firstId + i))
  }

  /** The items of a sale reconcile with its total: the sum of price times quantity
      over the items recorded for a cart is the cart total. */
  lemma {:induction false} ItemsReconcile(saleId: nat, cart: seq<CartLine>, firstId: nat)
    ensures Sum(NewItems(saleId, cart, firstId), ItemAmount) == CartTotal(cart)
  {
    if |cart| > 0 {
      assert NewItems(saleId, cart, firstId)[1..] == NewItems(saleId, cart[1..], firstId + 1);
      ItemsReconcile(saleId, cart[1..], firstId + 1);
    }
  }

  /** Recording one more line appends its item after the previous ones. */
  lemma NewItemsStep(saleId: nat, cart: seq<CartLine>, i: nat, firstId: nat)
    requires i < |cart|
    ensures NewItems(saleId, cart[..i + 1], firstId) ==
            NewItems(saleId, cart[..i], firstId) + [ItemFor(saleId, cart[i], firstId + i)]
  {
    assert NewItems(saleId, cart[..i + 1], firstId)[i] == ItemFor(saleId, cart[i], firstId + i);
  }

  /** Stock writes change quantities only, so whether a key is found is as before. */
  lemma DecrementKeepsKeys(ps: seq<Product>, cart: seq<CartLine>, id: nat)
    ensures Find(Decrement(ps, cart), ProductId, id).None? <==> Find(ps, ProductId, id).None?
  {
    var d := Decrement(ps, cart);
    assert forall i :: 0 <= i < |ps| ==> d[i].id == ps[i].id;
  }

  /** Stock writes keep the table's keys in order and below the key generator. */
  lemma DecrementKeyedBelow(ps: seq<Product>, cart: seq<CartLine>, next: nat)
    requires KeyedBelow(ps, ProductId, next)
    ensures KeyedBelow(Decrement(ps, cart), ProductId, next)
  {
    var d := Decrement(ps, cart);
    assert forall i :: 0 <= i < |ps| ==> d[i].id == ps[i].id;
  }

  /** The items a sale appends carry consecutive fresh keys and the sale's key. */
  lemma NewItemsKeyed(items: seq<SaleItem>, saleId: nat, cart: seq<CartLine>, next: nat)
    requires KeyedBelow(items, ItemId, next)
    ensures KeyedBelow(items + NewItems(saleId, cart, next), ItemId, next + |cart|)
  {
  }

  /** The stock writes for the first i + 1 lines are those for the first i, then line i's. */
  lemma {:induction false} DecrementPrefix(ps: seq<Product>, cart: seq<CartLine>, i: nat)
    requires i < |cart|
    ensures Decrement(ps, cart[..i + 1]) == CommitLine(Decrement(ps, cart[..i]), cart[i])
  {
    var done := cart[..i + 1];
    assert done[..i] == cart[..i];
  }

}
