/** The cart store behind `CartController`: a cart per `cartToken` cookie, its
    lines, and the total it caches, recomputed from the lines after every
    change. */
module CartController {
  import opened Common
  import opened Store

  /** The price one unit of a variant is sold at: the sale price when set. */
  function UnitPrice(v: ProductVariant): int {
    match v.salePrice
    case Some(s) => s
    case None => v.price
  }

  /** `CalcCartItemTotalPrice`: the line's quantity times the sale price when
      the variant has one, and times the list price otherwise. */
  function CalcCartItemTotalPrice(item: CartItem, v: ProductVariant): (r: int)
    ensures v.salePrice.Some? ==> r == item.quantity * v.salePrice.value
    ensures v.salePrice.None? ==> r == item.quantity * v.price
  {
    item.quantity * UnitPrice(v)
  }

  /** One more unit on a line costs exactly one more unit price. */
  lemma BumpedLinePrice(item: CartItem, v: ProductVariant)
    ensures CalcCartItemTotalPrice(item.(quantity := item.quantity + 1), v)
         == CalcCartItemTotalPrice(item, v) + UnitPrice(v)
  {
    var u := UnitPrice(v);
    assert (item.quantity + 1) * u == item.quantity * u + u;
  }

  /** The sum of the line prices of `lines`. */
  function LinesTotal(lines: seq<CartItem>, variants: map<int, ProductVariant>): int
    requires KnownVariants(lines, variants)
  {
    if |lines| == 0 then 0
    else
      assert lines[0] in lines;
      CalcCartItemTotalPrice(lines[0], variants[lines[0].variantId]) + LinesTotal(lines[1..], variants)
  }

  lemma {:induction false} LinesTotalAppend(a: seq<CartItem>, b: seq<CartItem>, variants: map<int, ProductVariant>)
    requires KnownVariants(a, variants) && KnownVariants(b, variants)
    ensures KnownVariants(a + b, variants)
    ensures LinesTotal(a + b, variants) == LinesTotal(a, variants) + LinesTotal(b, variants)
  {
    if |a| == 0 {
      assert a + b == b;
    } else {
      assert (a + b)[1..] == a[1..] + b;
      LinesTotalAppend(a[1..], b, variants);
    }
  }

  /** What the cart `cartId` should cache: the sum of its line prices. */
  function CartTotal(items: seq<CartItem>, variants: map<int, ProductVariant>, cartId: int): int
    requires KnownVariants(items, variants)
  {
    LinesTotal(LinesOf(items, cartId), variants)
  }

  /** The share of one row in the total of cart `cartId`. */
  function Share(item: CartItem, variants: map<int, ProductVariant>, cartId: int): int
    requires item.variantId in variants
  {
    if item.cartId == cartId then CalcCartItemTotalPrice(item, variants[item.variantId]) else 0
  }

  lemma {:induction false} CartTotalAppend(a: seq<CartItem>, b: seq<CartItem>, variants: map<int, ProductVariant>, cartId: int)
    requires KnownVariants(a, variants) && KnownVariants(b, variants)
    ensures KnownVariants(a + b, variants)
    ensures CartTotal(a + b, variants, cartId) == CartTotal(a, variants, cartId) + CartTotal(b, variants, cartId)
  {
    var p := (it: CartItem) => it.cartId == cartId;
    FilterAppend(a, b, p);
    LinesTotalAppend(LinesOf(a, cartId), LinesOf(b, cartId), variants);
  }

  lemma CartTotalSingle(x: CartItem, variants: map<int, ProductVariant>, cartId: int)
    requires x.variantId in variants
    ensures KnownVariants([x], variants)
    ensures CartTotal([x], variants, cartId) == Share(x, variants, cartId)
  {
    assert [x][1..] == [];
    assert LinesOf([x], cartId) == if x.cartId == cartId then [x] else [];
    assert x in [x];
    assert LinesTotal([x], variants) == CalcCartItemTotalPrice(x, variants[x.variantId]) + LinesTotal([], variants);
  }

  /** Replacing row `k` by `x` changes a cart's total by the difference of their shares. */
  lemma CartTotalReplace(items: seq<CartItem>, k: nat, x: CartItem, variants: map<int, ProductVariant>, cartId: int)
    requires k < |items| && KnownVariants(items, variants) && x.variantId in variants
    ensures KnownVariants(items[k := x], variants)
    ensures CartTotal(items[k := x], variants, cartId)
         == CartTotal(items, variants, cartId) - Share(items[k], variants, cartId) + Share(x, variants, cartId)
  {
    var pre, post := items[..k], items[k + 1..];
    assert items == pre + [items[k]] + post;
    assert items[k := x] == pre + [x] + post;
    CartTotalSingle(items[k], variants, cartId);
    CartTotalSingle(x, variants, cartId);
    CartTotalAppend(pre, [items[k]], variants, cartId);
    CartTotalAppend(pre + [items[k]], post, variants, cartId);
    CartTotalAppend(pre, [x], variants, cartId);
    CartTotalAppend(pre + [x], post, variants, cartId);
  }

  /** Removing row `k` takes its share out of a cart's total. */
  lemma CartTotalRemove(items: seq<CartItem>, k: nat, variants: map<int, ProductVariant>, cartId: int)
    requires k < |items| && KnownVariants(items, variants)
    ensures KnownVariants(RemoveAt(items, k), variants)
    ensures CartTotal(RemoveAt(items, k), variants, cartId)
         == CartTotal(items, variants, cartId) - Share(items[k], variants, cartId)
  {
    var pre, post := items[..k], items[k + 1..];
    assert items == pre + [items[k]] + post;
    CartTotalSingle(items[k], variants, cartId);
    CartTotalAppend(pre, [items[k]], variants, cartId);
    CartTotalAppend(pre + [items[k]], post, variants, cartId);
    CartTotalAppend(pre, post, variants, cartId);
  }

  // ---- FindOrCreateCart

  /** The carts after `FindOrCreateCart(token)`: a cart with the token exists,
      and at most one cart was added after the existing ones. */
  function WithCart(carts: seq<Cart>, token: string, newId: int): (r: seq<Cart>)
    ensures CartIndex(r, token).Some?
    ensures carts <= r && |r| <= |carts| + 1
  {
    if CartIndex(carts, token).Some? then carts
    else
      var r := carts + [Cart(newId, token, 0)];
      assert r[|carts|].token == token;
      r
  }

  /** An existing cart is returned as it is and nothing is created. */
  lemma WithCartFinds(carts: seq<Cart>, token: string, newId: int)
    requires CartIndex(carts, token).Some?
    ensures WithCart(carts, token, newId) == carts
  {
  }

  /** Without a cart for the token, exactly one empty cart with that token is created, and it is the one found. */
  lemma WithCartCreates(carts: seq<Cart>, token: string, newId: int)
    requires CartIndex(carts, token).None?
    ensures WithCart(carts, token, newId) == carts + [Cart(newId, token, 0)]
    ensures CartIndex(WithCart(carts, token, newId), token) == Some(|carts|)
  {
    var r := carts + [Cart(newId, token, 0)];
    assert r[|carts|].token == token;
  }

  /** Finding or creating twice creates no second cart. */
  lemma WithCartTwice(carts: seq<Cart>, token: string, id1: int, id2: int)
    ensures WithCart(WithCart(carts, token, id1), token, id2) == WithCart(carts, token, id1)
  {
  }

  method FindOrCreateCart(db: Db, token: string) returns (k: nat)
    requires db.Valid()
    modifies db`carts, db`nextCartId
    ensures db.Valid()
    ensures db.carts == WithCart(old(db.carts), token, old(db.nextCartId))
    ensures db.nextCartId == old(db.nextCartId) + |db.carts| - |old(db.carts)|
    ensures CartIndex(db.carts, token) == Some(k)
  {
    var found := CartIndex(db.carts, token);
    if found.Some? {
      k := found.value;
    } else {
      WithCartCreates(db.carts, token, db.nextCartId);
      k := |db.carts|;
      db.carts := db.carts + [Cart(db.nextCartId, token, 0)];
      db.nextCartId := db.nextCartId + 1;
    }
  }

  // ---- UpdateCartTotalAmount

  /** The carts after `UpdateCartTotalAmount(token)`: the token's cart caches
      the sum of its line prices; every other cart, and every cart's identity,
      is as before. No cart for the token: nothing changes. */
  function Retotal(carts: seq<Cart>, token: string, items: seq<CartItem>, variants: map<int, ProductVariant>): (r: seq<Cart>)
    requires KnownVariants(items, variants)
    ensures |r| == |carts|
    ensures forall j :: 0 <= j < |r| ==> r[j].id == carts[j].id && r[j].token == carts[j].token
    ensures forall j :: 0 <= j < |r| && CartIndex(carts, token) != Some(j) ==> r[j] == carts[j]
    ensures CartIndex(carts, token).Some? ==>
              var k := CartIndex(carts, token).value;
              r[k].totalAmount == CartTotal(items, variants, carts[k].id)
  {
    match CartIndex(carts, token)
    case None => carts
    case Some(k) => carts[k := carts[k].(totalAmount := CartTotal(items, variants, carts[k].id))]
  }

  /** Recomputing a total never changes which cart a token finds. */
  lemma RetotalKeepsLookup(carts: seq<Cart>, token: string, items: seq<CartItem>, variants: map<int, ProductVariant>, other: string)
    requires KnownVariants(items, variants)
    ensures CartIndex(Retotal(carts, token, items, variants), other) == CartIndex(carts, other)
  {
    FirstIndexAgrees(Retotal(carts, token, items, variants), (c: Cart) => c.token == other,
                     carts, (c: Cart) => c.token == other);
  }

  method UpdateCartTotalAmount(db: Db, token: string)
    requires db.Valid()
    modifies db`carts
    ensures db.Valid()
    ensures db.carts == Retotal(old(db.carts), token, db.items, db.variants)
  {
    var found := CartIndex(db.carts, token);
    if found.Some? {
      var k := found.value;
      var total := CartTotal(db.items, db.variants, db.carts[k].id);
      db.carts := db.carts[k := db.carts[k].(totalAmount := total)];
    }
  }

  // ---- The cart as the actions answer it

  datatype LineView = LineView(itemId: int, quantity: int, variant: ProductVariant)

  datatype CartView = CartView(id: int, totalAmount: int, lines: seq<LineView>)

  /** The answer for a request without a cart: total 0 and no lines. */
  const EmptyCart := CartView(0, 0, [])

  /** Lines as the cart answer lists them: newest first (`OrderByDescending(CreatedAt)`;
      rows are appended in creation order, so table order is creation order). */
  function NewestFirst(ls: seq<CartItem>, variants: map<int, ProductVariant>): (r: seq<LineView>)
    requires KnownVariants(ls, variants)
    ensures |r| == |ls|
    ensures forall j :: 0 <= j < |r| ==>
              r[j] == LineView(ls[|ls| - 1 - j].id, ls[|ls| - 1 - j].quantity, variants[ls[|ls| - 1 - j].variantId])
  {
    var n := |ls|;
    seq(n, j requires 0 <= j < n =>
      assert ls[n - 1 - j] in ls;
      LineView(ls[n - 1 - j].id, ls[n - 1 - j].quantity, variants[ls[n - 1 - j].variantId]))
  }

  /** A cart as `CartDto`: its id, its cached total, and its own lines newest first. */
  function ViewOf(cart: Cart, items: seq<CartItem>, variants: map<int, ProductVariant>): (v: CartView)
    requires KnownVariants(items, variants)
    ensures v.id == cart.id && v.totalAmount == cart.totalAmount
    ensures KnownVariants(LinesOf(items, cart.id), variants)
    ensures v.lines == NewestFirst(LinesOf(items, cart.id), variants)
  {
    CartView(cart.id, cart.totalAmount, NewestFirst(LinesOf(items, cart.id), variants))
  }

  /** `GetCart`: no cookie or no cart for it answers the empty cart; otherwise
      the token's cart as stored, cached total included. Nothing is written. */
  method GetCart(db: Db, cookie: string) returns (v: CartView)
    requires db.Valid()
    ensures cookie == "" || CartIndex(db.carts, cookie).None? ==> v == EmptyCart
    ensures cookie != "" && CartIndex(db.carts, cookie).Some? ==>
              v == ViewOf(db.carts[CartIndex(db.carts, cookie).value], db.items, db.variants)
  {
    if cookie == "" {
      return EmptyCart;
    }
    var found := CartIndex(db.carts, cookie);
    if found.None? {
      return EmptyCart;
    }
    v := ViewOf(db.carts[found.value], db.items, db.variants);
  }

  // ---- AddToCart

  /** The cart token a request works on: the cookie, or a fresh GUID when the cookie is absent or empty. */
  function RequestToken(cookie: string, guid: string): string {
    if cookie == "" then guid else cookie
  }

  /** The lines after adding variant `variantId` to cart `cartId`: the cart's
      line for that variant gains exactly one unit and no line is inserted,
      or, when there is no such line, exactly one line with quantity 1 is
      appended. Either way the line exists afterwards. */
  function AddLine(items: seq<CartItem>, cartId: int, variantId: int, newId: int): (r: seq<CartItem>)
    ensures LineIndex(items, cartId, variantId).Some? ==>
              var k := LineIndex(items, cartId, variantId).value;
              && |r| == |items|
              && r[k] == items[k].(quantity := items[k].quantity + 1)
              && forall j :: 0 <= j < |r| && j != k ==> r[j] == items[j]
    ensures LineIndex(items, cartId, variantId).None? ==>
              r == items + [CartItem(newId, cartId, variantId, 1)]
    ensures LineIndex(r, cartId, variantId).Some?
  {
    match LineIndex(items, cartId, variantId)
    case Some(k) => items[k := items[k].(quantity := items[k].quantity + 1)]
    case None =>
      var r := items + [CartItem(newId, cartId, variantId, 1)];
      assert r[|items|].cartId == cartId && r[|items|].variantId == variantId;
      r
  }

  /** No cart holds two lines for the same variant. */
  ghost predicate LinesUnique(items: seq<CartItem>) {
    forall i, j :: 0 <= i < j < |items| && items[i].cartId == items[j].cartId ==>
      items[i].variantId != items[j].variantId
  }

  /** Adding never creates a second line for the same (cart, variant). */
  lemma AddLineKeepsLinesUnique(items: seq<CartItem>, cartId: int, variantId: int, newId: int)
    requires LinesUnique(items)
    ensures LinesUnique(AddLine(items, cartId, variantId, newId))
  {
    var r := AddLine(items, cartId, variantId, newId);
    if LineIndex(items, cartId, variantId).None? {
      forall i, j | 0 <= i < j < |r| && r[i].cartId == r[j].cartId
        ensures r[i].variantId != r[j].variantId
      {
        if j == |items| {
          assert r[i] == items[i];
        }
      }
    }
  }

  /** Adding raises the cart's total by one unit price of the variant and leaves
      every other cart's total as it was. */
  lemma AddLineRaisesTotal(items: seq<CartItem>, variants: map<int, ProductVariant>, cartId: int, variantId: int, newId: int, other: int)
    requires KnownVariants(items, variants) && variantId in variants
    ensures KnownVariants(AddLine(items, cartId, variantId, newId), variants)
    ensures CartTotal(AddLine(items, cartId, variantId, newId), variants, cartId)
         == CartTotal(items, variants, cartId) + UnitPrice(variants[variantId])
    ensures other != cartId ==>
              (CartTotal(AddLine(items, cartId, variantId, newId), variants, other)
               == CartTotal(items, variants, other))
  {
    match LineIndex(items, cartId, variantId)
    case Some(k) =>
      var x := items[k].(quantity := items[k].quantity + 1);
      assert AddLine(items, cartId, variantId, newId) == items[k := x];
      BumpedLinePrice(items[k], variants[variantId]);
      CartTotalReplace(items, k, x, variants, cartId);
      CartTotalReplace(items, k, x, variants, other);
    case None =>
      var x := CartItem(newId, cartId, variantId, 1);
      CartTotalSingle(x, variants, cartId);
      CartTotalSingle(x, variants, other);
      CartTotalAppend(items, [x], variants, cartId);
      CartTotalAppend(items, [x], variants, other);
  }

  /** The row write of `AddToCart` for cart `cartId`: one more unit on the
      cart's line for the variant, or a new line of quantity 1. The insert
      of a line for a variant that does not exist fails (`ok` false) and
      writes nothing; an existing line always names a known variant. */
  method AddItem(db: Db, cartId: int, variantId: int) returns (ok: bool)
    requires db.Valid()
    modifies db`items, db`nextItemId
    ensures db.Valid()
    ensures ok <==> variantId in db.variants
    ensures !ok ==> db.items == old(db.items) && db.nextItemId == old(db.nextItemId)
    ensures ok ==> db.items == AddLine(old(db.items), cartId, variantId, old(db.nextItemId))
    ensures db.nextItemId == old(db.nextItemId) + |db.items| - |old(db.items)|
  {
    var line := LineIndex(db.items, cartId, variantId);
    if line.Some? {
      var k := line.value;
      assert db.items[k] in db.items;
      db.items := db.items[k := db.items[k].(quantity := db.items[k].quantity + 1)];
      return true;
    }
    if variantId !in db.variants {
      return false;
    }
    db.items := db.items + [CartItem(db.nextItemId, cartId, variantId, 1)];
    db.nextItemId := db.nextItemId + 1;
    return true;
  }

  /** `AddToCart`: find or create the cart for the request token, add one unit
      of the variant, recompute that cart's total and answer the cart. An
      unknown variant fails the insert's foreign key (500) after the cart was
      created. A token the request had to invent is handed back as the cookie to set. */
  method AddToCart(db: Db, cookie: string, variantId: int, guid: string) returns (r: Result<CartView>, issued: Option<string>)
    requires db.Valid()
    modifies db`carts, db`items, db`nextCartId, db`nextItemId
    ensures db.Valid()
    ensures var withCart := WithCart(old(db.carts), RequestToken(cookie, guid), old(db.nextCartId));
            && db.nextCartId == old(db.nextCartId) + |withCart| - |old(db.carts)|
            && (variantId !in db.variants ==>
                  && db.carts == withCart && db.items == old(db.items)
                  && r == Fail(ServerError(UnknownVariant)) && issued == None)
    ensures var token := RequestToken(cookie, guid);
            var withCart := WithCart(old(db.carts), token, old(db.nextCartId));
            var k := CartIndex(withCart, token).value;
            variantId in db.variants ==>
              && db.items == AddLine(old(db.items), withCart[k].id, variantId, old(db.nextItemId))
              && db.carts == Retotal(withCart, token, db.items, db.variants)
              && r == Ok(ViewOf(db.carts[k], db.items, db.variants))
              && r.value.totalAmount == CartTotal(db.items, db.variants, withCart[k].id)
              && issued == (if cookie == "" then Some(token) else None)
  {
    var token := RequestToken(cookie, guid);
    var k := FindOrCreateCart(db, token);
    var ok := AddItem(db, db.carts[k].id, variantId);
    if !ok {
      return Fail(ServerError(UnknownVariant)), None;
    }
    ghost var withCart := db.carts;
    UpdateCartTotalAmount(db, token);
    RetotalKeepsLookup(withCart, token, db.items, db.variants, token);
    r := Ok(ViewOf(db.carts[k], db.items, db.variants));
    issued := if cookie == "" then Some(token) else None;
  }

  // ---- UpdateCartItem and DeleteCartItem

  /** `UpdateCartItem`: without a cookie 400, for an unknown item id 404, and
      neither writes anything. Otherwise the item, looked up by id in every
      cart and not only the caller's, takes exactly the requested quantity,
      zero and negative values included, and stays in the table; then the
      total of the cookie's cart is recomputed. When the cookie has no cart
      the write stands and the answer is 500. */
  method UpdateCartItem(db: Db, cookie: string, id: int, quantity: int) returns (r: Result<CartView>)
    requires db.Valid()
    modifies db`carts, db`items
    ensures db.Valid()
    ensures cookie == "" ==>
              r == Fail(BadRequest(CartTokenMissing)) && db.carts == old(db.carts) && db.items == old(db.items)
    ensures cookie != "" && ItemIndex(old(db.items), id).None? ==>
              r == Fail(NotFound(CartItemNotFound)) && db.carts == old(db.carts) && db.items == old(db.items)
    ensures cookie != "" && ItemIndex(old(db.items), id).Some? ==>
              var k := ItemIndex(old(db.items), id).value;
              && db.items == old(db.items)[k := old(db.items)[k].(quantity := quantity)]
              && |db.items| == |old(db.items)| && db.items[k].quantity == quantity
              && db.carts == Retotal(old(db.carts), cookie, db.items, db.variants)
              && (CartIndex(db.carts, cookie).None? ==> r == Fail(ServerError(CartVanished)))
              && (CartIndex(db.carts, cookie).Some? ==>
                    r == Ok(ViewOf(db.carts[CartIndex(db.carts, cookie).value], db.items, db.variants)))
  {
    if cookie == "" {
      return Fail(BadRequest(CartTokenMissing));
    }
    var found := ItemIndex(db.items, id);
    if found.None? {
      return Fail(NotFound(CartItemNotFound));
    }
    var k := found.value;
    assert db.items[k] in db.items;
    db.items := db.items[k := db.items[k].(quantity := quantity)];
    ghost var before := db.carts;
    UpdateCartTotalAmount(db, cookie);
    RetotalKeepsLookup(before, cookie, db.items, db.variants, cookie);
    var c := CartIndex(db.carts, cookie);
    if c.None? {
      return Fail(ServerError(CartVanished));
    }
    r := Ok(ViewOf(db.carts[c.value], db.items, db.variants));
  }

  /** `DeleteCartItem`: without a cookie 400, for an unknown item id 404, and
      neither writes anything. Otherwise exactly the item with that id, in
      whichever cart it is, is removed; then the total of the cookie's cart is
      recomputed. When the cookie has no cart the removal stands and the answer is 500. */
  method DeleteCartItem(db: Db, cookie: string, id: int) returns (r: Result<CartView>)
    requires db.Valid()
    modifies db`carts, db`items
    ensures db.Valid()
    ensures cookie == "" ==>
              r == Fail(BadRequest(CartTokenMissing)) && db.carts == old(db.carts) && db.items == old(db.items)
    ensures cookie != "" && ItemIndex(old(db.items), id).None? ==>
              r == Fail(NotFound(CartItemNotFound)) && db.carts == old(db.carts) && db.items == old(db.items)
    ensures cookie != "" && ItemIndex(old(db.items), id).Some? ==>
              var k := ItemIndex(old(db.items), id).value;
              && db.items == RemoveAt(old(db.items), k)
              && db.carts == Retotal(old(db.carts), cookie, db.items, db.variants)
              && (CartIndex(db.carts, cookie).None? ==> r == Fail(ServerError(CartVanished)))
              && (CartIndex(db.carts, cookie).Some? ==>
                    r == Ok(ViewOf(db.carts[CartIndex(db.carts, cookie).value], db.items, db.variants)))
  {
    if cookie == "" {
      return Fail(BadRequest(CartTokenMissing));
    }
    var found := ItemIndex(db.items, id);
    if found.None? {
      return Fail(NotFound(CartItemNotFound));
    }
    db.items := RemoveAt(db.items, found.value);
    ghost var before := db.carts;
    UpdateCartTotalAmount(db, cookie);
    RetotalKeepsLookup(before, cookie, db.items, db.variants, cookie);
    var c := CartIndex(db.carts, cookie);
    if c.None? {
      return Fail(ServerError(CartVanished));
    }
    r := Ok(ViewOf(db.carts[c.value], db.items, db.variants));
  }

  // ---- Consequences of looking items up by id alone

  /** Changing a line of another cart refreshes only the caller's total: the
      owning cart keeps a stale cache. Cart 2 holds one unit at 100; a request
      with cart 1's token sets that line to 3, and cart 2 still claims 100
      while its lines now add up to 300. */
  lemma ForeignUpdateLeavesStaleTotal()
    ensures var variants := map[7 := ProductVariant(7, 1, 100, None, 5)];
            var carts := [Cart(1, "a", 0), Cart(2, "b", 100)];
            var items := [CartItem(1, 2, 7, 1)];
            var after := items[0 := items[0].(quantity := 3)];
            && KnownVariants(after, variants)
            && Retotal(carts, "a", after, variants)[1].totalAmount == 100
            && CartTotal(after, variants, 2) == 300
  {
    var variants := map[7 := ProductVariant(7, 1, 100, None, 5)];
    var carts := [Cart(1, "a", 0), Cart(2, "b", 100)];
    var after := [CartItem(1, 2, 7, 3)];
    assert CartIndex(carts, "a") == Some(0) by {
      assert carts[0].token == "a";
    }
    CartTotalSingle(after[0], variants, 2);
    assert after == [after[0]];
  }

  /** Because a quantity at or below zero is stored as it is, a cart's total
      can be negative: a single line of quantity -1 at price 100 sums to -100. */
  lemma NegativeQuantityGivesNegativeTotal()
    ensures var variants := map[7 := ProductVariant(7, 1, 100, None, 5)];
            var items := [CartItem(1, 1, 7, -1)];
            KnownVariants(items, variants) && CartTotal(items, variants, 1) == -100
  {
    var variants := map[7 := ProductVariant(7, 1, 100, None, 5)];
    var items := [CartItem(1, 1, 7, -1)];
    CartTotalSingle(items[0], variants, 1);
    assert items == [items[0]];
  }
}
