/** `CartService`: adding, removing, re-quantifying and clearing cart lines
    (orders/services.py, orders/models.py). A user's cart is the sequence of
    its lines, oldest first; a user without a `Cart` row has no entry. */
module Carts {
  import opened Wrappers
  import opened Errors
  import opened Store

  /** The position of the first line satisfying `p`, or `|lines|`: what
      `get` / `get_or_create` on the cart's items finds. */
  function FindFirst(lines: seq<CartLine>, p: CartLine -> bool): (i: nat)
    ensures i <= |lines|
    ensures i < |lines| ==> p(lines[i])
    ensures forall j :: 0 <= j < i ==> !p(lines[j])
  {
    if lines == [] then 0
    else if p(lines[0]) then 0
    else 1 + FindFirst(lines[1..], p)
  }

  /** The line of product `productId`. */
  function ForProduct(productId: nat): CartLine -> bool {
    (l: CartLine) => l.productId == productId
  }

  /** The line with key `id`. */
  function WithId(id: nat): CartLine -> bool {
    (l: CartLine) => l.id == id
  }

  /** The cart's lines, empty when the user has no cart. */
  function LinesOf(w: World, userId: nat): seq<CartLine> {
    if userId in w.carts then w.carts[userId] else []
  }

  /** Every cart line names an existing product (the `PROTECT` foreign
      key), no cart holds two lines for one product (`unique_together`),
      and every line key is below the next key. */
  predicate CartsWellFormed(w: World) {
    forall u :: u in w.carts ==>
      && (forall i :: 0 <= i < |w.carts[u]| ==> w.carts[u][i].productId in w.products && w.carts[u][i].id < w.nextLineId)
      && (forall i, j :: 0 <= i < j < |w.carts[u]| ==> w.carts[u][i].productId != w.carts[u][j].productId)
  }

  /** `CartItem.subtotal`: the product's live price times the quantity. */
  function LineSubtotal(w: World, line: CartLine): int
    requires line.productId in w.products
  {
    w.products[line.productId].price * line.quantity
  }

  /** `Cart.total_price`: the sum of the lines' live subtotals, 0 for an
      empty cart. */
  function CartTotal(w: World, lines: seq<CartLine>): int
    requires forall i :: 0 <= i < |lines| ==> lines[i].productId in w.products
  {
    if lines == [] then 0 else LineSubtotal(w, lines[0]) + CartTotal(w, lines[1..])
  }

  /** The units of product `productId` the lines hold. */
  function LinesQuantity(lines: seq<CartLine>, productId: nat): nat {
    if lines == [] then 0
    else (if lines[0].productId == productId then lines[0].quantity else 0) + LinesQuantity(lines[1..], productId)
  }

  /** The world after the product's price is changed. */
  function Reprice(w: World, productId: nat, price: int): World
    requires productId in w.products
  {
    w.(products := w.products[productId := w.products[productId].(price := price)])
  }

  /** The cart total reads the live price: changing one product's price
      moves the total by the price difference times the units of that
      product in the cart, and leaves it alone otherwise. */
  lemma {:induction false} CartTotalFollowsPrice(w: World, lines: seq<CartLine>, productId: nat, price: int)
    requires productId in w.products
    requires forall i :: 0 <= i < |lines| ==> lines[i].productId in w.products
    ensures CartTotal(Reprice(w, productId, price), lines)
            == CartTotal(w, lines) + (price - w.products[productId].price) * LinesQuantity(lines, productId)
  {
    if lines != [] {
      CartTotalFollowsPrice(w, lines[1..], productId, price);
      var w2 := Reprice(w, productId, price);
      var l := lines[0];
      var d := price - w.products[productId].price;
      if l.productId == productId {
        assert LineSubtotal(w2, l) == LineSubtotal(w, l) + d * l.quantity;
      } else {
        assert LineSubtotal(w2, l) == LineSubtotal(w, l);
      }
    }
  }

  /** `add_to_cart`: the product must exist and be active and its stock
      must cover the increment alone; the line for the product is created
      or grows by `quantity`; the database refuses a negative line. Returns
      the line's key. */
  function AddToCart(w: World, userId: nat, productId: nat, quantity: int): (r: Result<(World, nat), Error>)
    ensures productId !in w.products || !w.products[productId].isActive ==> r == Fail(ProductNotFound)
    ensures productId in w.products && w.products[productId].isActive && w.products[productId].stock < quantity ==>
              r == Fail(NotEnoughStock)
    ensures r.Ok? <==>
              && productId in w.products && w.products[productId].isActive
              && w.products[productId].stock >= quantity
              && (var lines := LinesOf(w, userId); var i := FindFirst(lines, ForProduct(productId));
                  (if i < |lines| then lines[i].quantity else 0) + quantity >= 0)
    ensures r.Fail? ==> r.error in {ProductNotFound, NotEnoughStock, NegativeQuantity}
    ensures r.Ok? ==>
              var (w', id) := r.value;
              var lines := LinesOf(w, userId);
              var i := FindFirst(lines, ForProduct(productId));
              && userId in w'.carts
              && w' == w.(carts := w'.carts, nextLineId := w'.nextLineId)
              && (forall u :: u in w.carts && u != userId ==> u in w'.carts && w'.carts[u] == w.carts[u])
              && (i < |lines| ==>
                    id == lines[i].id
                    && w'.carts[userId] == lines[i := lines[i].(quantity := lines[i].quantity + quantity)])
              && (i == |lines| ==>
                    id == w.nextLineId && w'.nextLineId == w.nextLineId + 1
                    && w'.carts[userId] == lines + [CartLine(id, productId, quantity)])
  {
    if productId !in w.products || !w.products[productId].isActive then Fail(ProductNotFound)
    else if w.products[productId].stock < quantity then Fail(NotEnoughStock)
    else
      var lines := LinesOf(w, userId);
      var i := FindFirst(lines, ForProduct(productId));
      if i < |lines| then
        var q := lines[i].quantity + quantity;
        if q < 0 then Fail(NegativeQuantity)
        else Ok((w.(carts := w.carts[userId := lines[i := lines[i].(quantity := q)]]), lines[i].id))
      else if quantity < 0 then Fail(NegativeQuantity)
      else
        Ok((w.(carts := w.carts[userId := lines + [CartLine(w.nextLineId, productId, quantity)]],
               nextLineId := w.nextLineId + 1), w.nextLineId))
  }

  /** The stock check sees only the increment: a line already holding
      `held` units grows to `held + quantity` even past the stock. */
  lemma AddChecksOnlyIncrement(w: World, userId: nat, productId: nat, quantity: nat)
    requires productId in w.products && w.products[productId].isActive
    requires w.products[productId].stock >= quantity
    requires FindFirst(LinesOf(w, userId), ForProduct(productId)) < |LinesOf(w, userId)|
    ensures AddToCart(w, userId, productId, quantity).Ok?
    ensures var lines := LinesOf(w, userId);
            var i := FindFirst(lines, ForProduct(productId));
            AddToCart(w, userId, productId, quantity).value.0.carts[userId][i].quantity == lines[i].quantity + quantity
  {
  }

  /** Adding keeps every cart well formed. */
  lemma AddKeepsCartsWellFormed(w: World, userId: nat, productId: nat, quantity: int)
    requires CartsWellFormed(w)
    requires AddToCart(w, userId, productId, quantity).Ok?
    ensures CartsWellFormed(AddToCart(w, userId, productId, quantity).value.0)
  {
    var w' := AddToCart(w, userId, productId, quantity).value.0;
    var lines := LinesOf(w, userId);
    var i := FindFirst(lines, ForProduct(productId));
    var nl := w'.carts[userId];
    assert |nl| == |lines| || |nl| == |lines| + 1;
    forall a, b | 0 <= a < b < |nl|
      ensures nl[a].productId != nl[b].productId
    {
      if b == |lines| {
        assert nl[b].productId == productId;
        assert nl[a] == lines[a];
      } else {
        assert nl[a].productId == lines[a].productId && nl[b].productId == lines[b].productId;
      }
    }
    forall a | 0 <= a < |nl|
      ensures nl[a].productId in w'.products && nl[a].id < w'.nextLineId
    {
      if a < |lines| {
        assert nl[a].productId == lines[a].productId && nl[a].id == lines[a].id;
      }
    }
  }

  /** `remove_from_cart`: deletes the user's line with key `itemId`. */
  function RemoveFromCart(w: World, userId: nat, itemId: nat): (r: Result<World, Error>)
    ensures r.Ok? <==> FindFirst(LinesOf(w, userId), WithId(itemId)) < |LinesOf(w, userId)|
    ensures r.Fail? ==> r.error == CartItemNotFound
    ensures r.Ok? ==>
              var lines := LinesOf(w, userId);
              var i := FindFirst(lines, WithId(itemId));
              r.value == w.(carts := w.carts[userId := lines[..i] + lines[i + 1..]])
  {
    var lines := LinesOf(w, userId);
    var i := FindFirst(lines, WithId(itemId));
    if i == |lines| then Fail(CartItemNotFound)
    else Ok(w.(carts := w.carts[userId := lines[..i] + lines[i + 1..]]))
  }

  /** Removing a line keeps every cart well formed. */
  lemma RemoveKeepsCartsWellFormed(w: World, userId: nat, itemId: nat)
    requires CartsWellFormed(w)
    requires RemoveFromCart(w, userId, itemId).Ok?
    ensures CartsWellFormed(RemoveFromCart(w, userId, itemId).value)
  {
    var lines := LinesOf(w, userId);
    var i := FindFirst(lines, WithId(itemId));
    var nl := lines[..i] + lines[i + 1..];
    assert forall a :: 0 <= a < |nl| ==> nl[a] == lines[if a < i then a else a + 1];
    assert userId in w.carts;
  }

  /** `update_quantity`: the quantity must be positive, the line must be
      in the user's cart and the product's stock must cover the new
      quantity, checked in that order. */
  function UpdateQuantity(w: World, userId: nat, itemId: nat, quantity: int): (r: Result<World, Error>)
    requires CartsWellFormed(w)
    ensures quantity <= 0 ==> r == Fail(NonPositiveQuantity)
    ensures quantity > 0 && FindFirst(LinesOf(w, userId), WithId(itemId)) == |LinesOf(w, userId)| ==> r == Fail(CartItemNotFound)
    ensures r.Ok? <==>
              var lines := LinesOf(w, userId);
              var i := FindFirst(lines, WithId(itemId));
              quantity > 0 && i < |lines| && w.products[lines[i].productId].stock >= quantity
    ensures r.Fail? ==> r.error in {NonPositiveQuantity, CartItemNotFound, NotEnoughStock}
    ensures r.Ok? ==>
              var lines := LinesOf(w, userId);
              var i := FindFirst(lines, WithId(itemId));
              r.value == w.(carts := w.carts[userId := lines[i := lines[i].(quantity := quantity)]])
  {
    if quantity <= 0 then Fail(NonPositiveQuantity)
    else
      var lines := LinesOf(w, userId);
      var i := FindFirst(lines, WithId(itemId));
      if i == |lines| then Fail(CartItemNotFound)
      else if w.products[lines[i].productId].stock < quantity then Fail(NotEnoughStock)
      else Ok(w.(carts := w.carts[userId := lines[i := lines[i].(quantity := quantity)]]))
  }

  /** After a successful update the line never exceeds the stock, unlike
      after `add_to_cart`. */
  lemma UpdateRespectsStock(w: World, userId: nat, itemId: nat, quantity: int)
    requires CartsWellFormed(w)
    requires UpdateQuantity(w, userId, itemId, quantity).Ok?
    ensures var lines := UpdateQuantity(w, userId, itemId, quantity).value.carts[userId];
            var i := FindFirst(LinesOf(w, userId), WithId(itemId));
            0 < lines[i].quantity <= w.products[lines[i].productId].stock
  {
  }

  /** `clear_cart`: empties the cart if there is one. */
  function ClearCart(w: World, userId: nat): (r: World)
    ensures LinesOf(r, userId) == []
    ensures userId !in w.carts ==> r == w
    ensures forall u :: u != userId ==> LinesOf(r, u) == LinesOf(w, u)
    ensures r.(carts := w.carts) == w
  {
    if userId in w.carts then w.(carts := w.carts[userId := []]) else w
  }

  /** Clearing keeps every cart well formed. */
  lemma ClearKeepsCartsWellFormed(w: World, userId: nat)
    requires CartsWellFormed(w)
    ensures CartsWellFormed(ClearCart(w, userId))
  {
  }
}
