/** `OrderController`: checkout turns a cart into a PENDING order and asks the
    gateway for a payment; the gateway's notification then settles the order.
    The class exists in two diverging versions. Both check out alike
    (`CreateOrder`); they differ in the notification handler, modelled as
    `CheckoutCallback` (the version that reads the payment status) and
    `Callback` (the version that always records success). */
module Orders {
  import opened Common
  import opened Numbers
  import opened Store
  import opened Services
  import CartController

  // ---- The item snapshot

  /** The order's copy of the cart lines: one entry per line, in cart order,
      with the line's id, quantity and variant and the variant's prices and
      stock at checkout time. */
  function Snapshot(lines: seq<CartItem>, variants: map<int, ProductVariant>): (r: seq<OrderLine>)
    requires KnownVariants(lines, variants)
    ensures |r| == |lines|
    ensures forall j :: 0 <= j < |r| ==>
              && lines[j].variantId in variants
              && r[j] == OrderLine(lines[j].id, lines[j].quantity, lines[j].variantId,
                                   variants[lines[j].variantId].price, variants[lines[j].variantId].salePrice,
                                   variants[lines[j].variantId].stock)
  {
    if |lines| == 0 then []
    else
      assert lines[0] in lines;
      var v := variants[lines[0].variantId];
      [OrderLine(lines[0].id, lines[0].quantity, lines[0].variantId, v.price, v.salePrice, v.stock)]
        + Snapshot(lines[1..], variants)
  }

  /** What the snapshot's lines cost at the prices it recorded. */
  function SnapshotTotal(lines: seq<OrderLine>): int {
    if |lines| == 0 then 0
    else
      var l := lines[0];
      l.quantity * (match l.salePrice case Some(s) => s case None => l.price) + SnapshotTotal(lines[1..])
  }

  /** The snapshot prices the lines exactly as the cart prices them. */
  lemma {:induction false} SnapshotTotalIsLinesTotal(lines: seq<CartItem>, variants: map<int, ProductVariant>)
    requires KnownVariants(lines, variants)
    ensures SnapshotTotal(Snapshot(lines, variants)) == CartController.LinesTotal(lines, variants)
  {
    if |lines| > 0 {
      assert lines[0] in lines;
      assert Snapshot(lines, variants)[1..] == Snapshot(lines[1..], variants);
      SnapshotTotalIsLinesTotal(lines[1..], variants);
    }
  }

  // ---- CreateOrder

  /** The order a checkout of cart `cart` for form `form` stores before asking for payment. */
  function PlacedOrder(id: int, cart: Cart, items: seq<CartItem>, variants: map<int, ProductVariant>, form: Contact): (o: Order)
    requires KnownVariants(items, variants)
    ensures o.id == id && o.token == cart.token && o.totalAmount == cart.totalAmount
    ensures o.status == PENDING && o.paymentId == None && o.contact == form
    ensures KnownVariants(LinesOf(items, cart.id), variants)
    ensures o.lines == Snapshot(LinesOf(items, cart.id), variants)
  {
    Order(id, cart.token, cart.totalAmount, PENDING, None, Snapshot(LinesOf(items, cart.id), variants), form)
  }

  /** Stores `o` as a new order under the next identity value. */
  method AddOrder(db: Db, o: Order)
    requires db.Valid() && o.id == db.nextOrderId
    modifies db`orders, db`nextOrderId
    ensures db.Valid()
    ensures db.orders == old(db.orders) + [o] && db.nextOrderId == old(db.nextOrderId) + 1
  {
    db.orders := db.orders + [o];
    db.nextOrderId := db.nextOrderId + 1;
  }

  /** Empties cart `k`: its total becomes 0 and its lines are removed (`RemoveRange(cart.Items)`). */
  method ClearCart(db: Db, k: nat)
    requires db.Valid() && k < |db.carts|
    modifies db`carts, db`items
    ensures db.Valid()
    ensures db.carts == old(db.carts)[k := old(db.carts)[k].(totalAmount := 0)]
    ensures db.items == WithoutLinesOf(old(db.items), old(db.carts)[k].id)
  {
    assert db.carts[k] in db.carts;
    db.carts := db.carts[k := db.carts[k].(totalAmount := 0)];
    db.items := WithoutLinesOf(db.items, db.carts[k].id);
  }

  /** `CreateOrder`. Without a cookie 400, without a cart for it 404, for a
      cart whose cached total is 0 400; none of these writes anything. Else
      the PENDING order is stored, then the cart's total is set to 0 and all
      its lines are removed, and only then is payment requested for the
      order's total and id. When the gateway refuses the answer is 500 and
      the order and the emptied cart stay as they are; otherwise the payment
      id is stored on the order and the answer is the confirmation URL. A
      cart whose cached total went below zero (a stored negative quantity)
      is still turned into an order and emptied, and only then refused. The
      payment mail is attempted; `mailDelivered` says whether it went out,
      and the contract does not mention it because the source catches and
      logs a failed send, so the answer and the tables are the same either way. */
  method CreateOrder(db: Db, cookie: string, form: Contact, gateway: PaymentRequest -> PaymentReply, mailDelivered: bool)
    returns (r: Result<string>, mail: Option<Mail>)
    requires db.Valid()
    modifies db`orders, db`carts, db`items, db`nextOrderId
    ensures db.Valid()
    ensures cookie == "" ==>
              && r == Fail(BadRequest(CartTokenMissing)) && mail == None
              && db.orders == old(db.orders) && db.carts == old(db.carts) && db.items == old(db.items)
    ensures cookie != "" && CartIndex(old(db.carts), cookie).None? ==>
              && r == Fail(NotFound(CartNotFound)) && mail == None
              && db.orders == old(db.orders) && db.carts == old(db.carts) && db.items == old(db.items)
    ensures cookie != "" && CartIndex(old(db.carts), cookie).Some? &&
            old(db.carts)[CartIndex(old(db.carts), cookie).value].totalAmount == 0 ==>
              && r == Fail(BadRequest(CartEmpty)) && mail == None
              && db.orders == old(db.orders) && db.carts == old(db.carts) && db.items == old(db.items)
    ensures cookie != "" && CartIndex(old(db.carts), cookie).Some? &&
            old(db.carts)[CartIndex(old(db.carts), cookie).value].totalAmount != 0 ==>
              var k := CartIndex(old(db.carts), cookie).value;
              var cart := old(db.carts)[k];
              var placed := PlacedOrder(old(db.nextOrderId), cart, old(db.items), db.variants, form);
              && db.nextOrderId == old(db.nextOrderId) + 1
              && db.carts == old(db.carts)[k := cart.(totalAmount := 0)]
              && db.items == WithoutLinesOf(old(db.items), cart.id)
              && match CreatePayment(gateway, PaymentRequest(cart.totalAmount, placed.id))
                 case Failed =>
                   && db.orders == old(db.orders) + [placed]
                   && r == Fail(ServerError(PaymentFailed)) && mail == None
                 case Created(paymentId, url) =>
                   && db.orders == old(db.orders) + [placed.(paymentId := Some(paymentId))]
                   && r == Ok(url) && mail == Some(PendingPayment(form.email, placed.id, cart.totalAmount, url))
    ensures cookie != "" && CartIndex(old(db.carts), cookie).Some? &&
            old(db.carts)[CartIndex(old(db.carts), cookie).value].totalAmount < 0 ==>
              var k := CartIndex(old(db.carts), cookie).value;
              var cart := old(db.carts)[k];
              && r == Fail(ServerError(PaymentFailed)) && mail == None
              && db.orders == old(db.orders) + [PlacedOrder(old(db.nextOrderId), cart, old(db.items), db.variants, form)]
              && db.carts[k].totalAmount == 0
              && LinesOf(db.items, cart.id) == []
  {
    if cookie == "" {
      return Fail(BadRequest(CartTokenMissing)), None;
    }
    var found := CartIndex(db.carts, cookie);
    if found.None? {
      return Fail(NotFound(CartNotFound)), None;
    }
    var k := found.value;
    var cart := db.carts[k];
    if cart.totalAmount == 0 {
      return Fail(BadRequest(CartEmpty)), None;
    }
    r, mail := PlaceOrder(db, k, form, gateway);
    ClearedCartHasNoLines(old(db.items), cart.id);
  }

  /** The checkout past its guards, for the cart at position `k`: the PENDING
      order is stored, the cart emptied, and then payment requested. */
  method PlaceOrder(db: Db, k: nat, form: Contact, gateway: PaymentRequest -> PaymentReply)
    returns (r: Result<string>, mail: Option<Mail>)
    requires db.Valid() && k < |db.carts|
    modifies db`orders, db`carts, db`items, db`nextOrderId
    ensures db.Valid()
    ensures var cart := old(db.carts)[k];
            var placed := PlacedOrder(old(db.nextOrderId), cart, old(db.items), db.variants, form);
            && db.nextOrderId == old(db.nextOrderId) + 1
            && db.carts == old(db.carts)[k := cart.(totalAmount := 0)]
            && db.items == WithoutLinesOf(old(db.items), cart.id)
            && match CreatePayment(gateway, PaymentRequest(cart.totalAmount, placed.id))
               case Failed =>
                 && db.orders == old(db.orders) + [placed]
                 && r == Fail(ServerError(PaymentFailed)) && mail == None
               case Created(paymentId, url) =>
                 && db.orders == old(db.orders) + [placed.(paymentId := Some(paymentId))]
                 && r == Ok(url) && mail == Some(PendingPayment(form.email, placed.id, cart.totalAmount, url))
  {
    var placed, at := StoreOrder(db, k, form);
    ghost var stored := db.orders;
    r, mail := RequestPayment(db, at, placed, gateway);
    match CreatePayment(gateway, PaymentRequest(placed.totalAmount, placed.id)) {
      case Created(paymentId, _) =>
        assert stored[at := placed.(paymentId := Some(paymentId))] == old(db.orders) + [placed.(paymentId := Some(paymentId))];
      case Failed =>
    }
  }

  /** Stores the PENDING order for the cart at position `k`, then empties that cart. */
  method StoreOrder(db: Db, k: nat, form: Contact) returns (placed: Order, at: nat)
    requires db.Valid() && k < |db.carts|
    modifies db`orders, db`carts, db`items, db`nextOrderId
    ensures db.Valid()
    ensures placed == PlacedOrder(old(db.nextOrderId), old(db.carts)[k], old(db.items), db.variants, form)
    ensures at == |old(db.orders)| && db.orders == old(db.orders) + [placed]
    ensures db.nextOrderId == old(db.nextOrderId) + 1
    ensures db.carts == old(db.carts)[k := old(db.carts)[k].(totalAmount := 0)]
    ensures db.items == WithoutLinesOf(old(db.items), old(db.carts)[k].id)
  {
    var cart := db.carts[k];
    placed := PlacedOrder(db.nextOrderId, cart, db.items, db.variants, form);
    at := |db.orders|;
    AddOrder(db, placed);
    ClearCart(db, k);
  }

  /** Asks the gateway to charge stored order `placed` (at position `at`).
      A refusal is a 500 and leaves the order as it is; a payment has its id
      stored on the order, and the buyer is sent its confirmation URL. */
  method RequestPayment(db: Db, at: nat, placed: Order, gateway: PaymentRequest -> PaymentReply)
    returns (r: Result<string>, mail: Option<Mail>)
    requires db.Valid() && at < |db.orders| && db.orders[at] == placed
    modifies db`orders
    ensures db.Valid()
    ensures match CreatePayment(gateway, PaymentRequest(placed.totalAmount, placed.id))
            case Failed =>
              && db.orders == old(db.orders)
              && r == Fail(ServerError(PaymentFailed)) && mail == None
            case Created(paymentId, url) =>
              && db.orders == old(db.orders)[at := placed.(paymentId := Some(paymentId))]
              && r == Ok(url) && mail == Some(PendingPayment(placed.contact.email, placed.id, placed.totalAmount, url))
  {
    var reply := CreatePayment(gateway, PaymentRequest(placed.totalAmount, placed.id));
    if reply.Failed? {
      return Fail(ServerError(PaymentFailed)), None;
    }
    assert db.orders[at] in db.orders;
    db.orders := db.orders[at := placed.(paymentId := Some(reply.paymentId))];
    mail := Some(PendingPayment(placed.contact.email, placed.id, placed.totalAmount, reply.confirmationUrl));
    r := Ok(reply.confirmationUrl);
  }

  /** After a checkout that got past the guards the cart has no lines left,
      whatever the gateway answered. */
  lemma ClearedCartHasNoLines(items: seq<CartItem>, cartId: int)
    ensures LinesOf(WithoutLinesOf(items, cartId), cartId) == []
  {
    var rest := WithoutLinesOf(items, cartId);
    FilterNone(rest, (it: CartItem) => it.cartId == cartId);
  }

  /** Clearing one cart leaves every other cart's lines exactly as they were. */
  lemma {:induction false} ClearingKeepsOtherCarts(items: seq<CartItem>, cartId: int, other: int)
    requires other != cartId
    ensures LinesOf(WithoutLinesOf(items, cartId), other) == LinesOf(items, other)
  {
    if |items| > 0 {
      var rest := WithoutLinesOf(items[1..], cartId);
      ClearingKeepsOtherCarts(items[1..], cartId, other);
      if items[0].cartId != cartId {
        assert WithoutLinesOf(items, cartId) == [items[0]] + rest;
        assert ([items[0]] + rest)[1..] == rest;
      }
    }
  }

  // ---- The payment notification

  datatype Metadata = Metadata(orderId: Option<string>)

  datatype PaymentObject = PaymentObject(status: Option<string>, metadata: Option<Metadata>)

  /** `PaymentCallbackData`: the notification's `type`, `event` and `object`; a JSON null is `None`. */
  datatype CallbackData = CallbackData(kind: Option<string>, event: Option<string>, obj: Option<PaymentObject>)

  /** The status a notification records: SUCCEEDED for a "succeeded" payment
      and CANCELLED for any other status or none. It never leaves an order PENDING. */
  function NotifiedStatus(status: Option<string>): (s: OrderStatus)
    ensures s == SUCCEEDED <==> status == Some("succeeded")
    ensures s == CANCELLED <==> status != Some("succeeded")
  {
    if status == Some("succeeded") then SUCCEEDED else CANCELLED
  }

  /** The notification the status-reading handler accepts: of type
      "notification", with an event, an object with metadata and a non-empty
      order id. Anything else is answered 400. */
  predicate WellFormedNotification(data: Option<CallbackData>) {
    && data.Some?
    && data.value.kind == Some("notification")
    && data.value.event.Some?
    && data.value.obj.Some?
    && data.value.obj.value.metadata.Some?
    && data.value.obj.value.metadata.value.orderId.Some?
    && data.value.obj.value.metadata.value.orderId.value != ""
  }

  /** The orders after order `k` takes status `s`, regardless of the status it had. */
  function WithStatus(orders: seq<Order>, k: nat, s: OrderStatus): (r: seq<Order>)
    requires k < |orders|
    ensures |r| == |orders| && r[k].status == s
    ensures r[k] == orders[k].(status := s)
    ensures forall j :: 0 <= j < |r| && j != k ==> r[j] == orders[j]
  {
    orders[k := orders[k].(status := s)]
  }

  /** A notification replayed has no further effect. */
  lemma WithStatusIdempotent(orders: seq<Order>, k: nat, s: OrderStatus)
    requires k < |orders|
    ensures WithStatus(WithStatus(orders, k, s), k, s) == WithStatus(orders, k, s)
  {
  }

  /** No terminal state is guarded: a later notification overrides an earlier
      one, so a SUCCEEDED order becomes CANCELLED and back. */
  lemma LaterNotificationWins(orders: seq<Order>, k: nat, s: OrderStatus, t: OrderStatus)
    requires k < |orders|
    ensures WithStatus(WithStatus(orders, k, s), k, t) == WithStatus(orders, k, t)
  {
  }

  /** `CheckoutCallback` (OrderContoller.cs). A malformed notification is
      answered 400; an order id `int.Parse` rejects fails the request (500);
      an unknown order is 404; none of these writes anything. Otherwise the
      order's status becomes `NotifiedStatus` of the payment status, whatever
      it was, and the matching mail is attempted. `mailDelivered` says whether
      it went out; the source catches a failed send, so the contract, which
      does not mention it, holds either way. */
  method CheckoutCallback(db: Db, data: Option<CallbackData>, mailDelivered: bool) returns (r: Result<()>, mail: Option<Mail>)
    requires db.Valid()
    modifies db`orders
    ensures db.Valid()
    ensures !WellFormedNotification(data) ==>
              r == Fail(BadRequest(InvalidCallback)) && mail == None && db.orders == old(db.orders)
    ensures WellFormedNotification(data) ==>
              var text := data.value.obj.value.metadata.value.orderId.value;
              var status := data.value.obj.value.status;
              && (ParseInt32(text).None? ==>
                    r == Fail(ServerError(OrderIdNotNumeric)) && mail == None && db.orders == old(db.orders))
              && (ParseInt32(text).Some? && OrderIndex(old(db.orders), ParseInt32(text).value).None? ==>
                    r == Fail(NotFound(OrderNotFound)) && mail == None && db.orders == old(db.orders))
              && (ParseInt32(text).Some? && OrderIndex(old(db.orders), ParseInt32(text).value).Some? ==>
                    var k := OrderIndex(old(db.orders), ParseInt32(text).value).value;
                    var o := old(db.orders)[k];
                    && db.orders == WithStatus(old(db.orders), k, NotifiedStatus(status))
                    && r == Ok(())
                    && mail == Some(if NotifiedStatus(status) == SUCCEEDED
                                    then PaymentSucceeded(o.contact.email, o.id, o.lines)
                                    else PaymentCancelled(o.contact.email, o.id)))
  {
    if !WellFormedNotification(data) {
      return Fail(BadRequest(InvalidCallback)), None;
    }
    var obj := data.value.obj.value;
    var orderId := ParseInt32(obj.metadata.value.orderId.value);
    if orderId.None? {
      return Fail(ServerError(OrderIdNotNumeric)), None;
    }
    var found := OrderIndex(db.orders, orderId.value);
    if found.None? {
      return Fail(NotFound(OrderNotFound)), None;
    }
    var k := found.value;
    var o := db.orders[k];
    var succeeded := obj.status == Some("succeeded");
    db.orders := db.orders[k := o.(status := if succeeded then SUCCEEDED else CANCELLED)];
    if succeeded {
      mail := Some(PaymentSucceeded(o.contact.email, o.id, o.lines));
    } else {
      mail := Some(PaymentCancelled(o.contact.email, o.id));
    }
    r := Ok(());
  }

  /** The raw request body of the notification: text the JSON reader rejects,
      or a document that is null or a `PaymentCallbackData`. */
  datatype Body = Malformed | Json(data: Option<CallbackData>)

  /** The order whose id, written as `ToString()` writes it, is exactly `text`. */
  function OrderIndexByText(orders: seq<Order>, text: string): Option<nat> {
    FirstIndex(orders, (o: Order) => IntToString(o.id) == text)
  }

  /** Matching by text finds exactly the order matching by number, for the
      text `ToString()` gives that number. */
  lemma OrderIndexByCanonicalText(orders: seq<Order>, n: int)
    ensures OrderIndexByText(orders, IntToString(n)) == OrderIndex(orders, n)
  {
    forall j | 0 <= j < |orders|
      ensures IntToString(orders[j].id) == IntToString(n) <==> orders[j].id == n
    {
      if IntToString(orders[j].id) == IntToString(n) {
        IntToStringInjective(orders[j].id, n);
      }
    }
    FirstIndexAgrees(orders, (o: Order) => IntToString(o.id) == IntToString(n),
                     orders, (o: Order) => o.id == n);
  }

  /** The two handlers disagree on a zero-padded id: "07" names order 7 for
      the one that parses the id and no order at all for the one that compares text. */
  lemma PaddedIdMatchesOnlyWhenParsed(orders: seq<Order>)
    ensures ParseInt32("07") == Some(7)
    ensures OrderIndexByText(orders, "07").None?
  {
    LeadingZeroOnlyParses();
  }

  /** `Callback` (OrderController.cs). Unreadable JSON, a null document or a
      null object is answered 400, as is a missing or empty order id; an id no
      order's text form equals is 404; none of these writes anything.
      Otherwise the order becomes SUCCEEDED whatever the notification's type,
      event or payment status, and the success mail is always the one attempted.
      As in `CheckoutCallback`, a failed send (`mailDelivered` false) is caught
      and changes nothing. */
  method Callback(db: Db, body: Body, mailDelivered: bool) returns (r: Result<()>, mail: Option<Mail>)
    requires db.Valid()
    modifies db`orders
    ensures db.Valid()
    ensures body.Malformed? ==> r == Fail(BadRequest(InvalidJson)) && mail == None && db.orders == old(db.orders)
    ensures body.Json? && (body.data.None? || body.data.value.obj.None?) ==>
              r == Fail(BadRequest(InvalidCallback)) && mail == None && db.orders == old(db.orders)
    ensures body.Json? && body.data.Some? && body.data.value.obj.Some? ==>
              var meta := body.data.value.obj.value.metadata;
              && (meta.None? || meta.value.orderId.None? || meta.value.orderId.value == "" ==>
                    r == Fail(BadRequest(OrderIdMissing)) && mail == None && db.orders == old(db.orders))
              && (meta.Some? && meta.value.orderId.Some? && meta.value.orderId.value != "" ==>
                    var found := OrderIndexByText(old(db.orders), meta.value.orderId.value);
                    && (found.None? ==>
                          r == Fail(NotFound(OrderNotFound)) && mail == None && db.orders == old(db.orders))
                    && (found.Some? ==>
                          var o := old(db.orders)[found.value];
                          && db.orders == WithStatus(old(db.orders), found.value, SUCCEEDED)
                          && r == Ok(()) && mail == Some(PaymentSucceeded(o.contact.email, o.id, o.lines))))
  {
    if body.Malformed? {
      return Fail(BadRequest(InvalidJson)), None;
    }
    if body.data.None? || body.data.value.obj.None? {
      return Fail(BadRequest(InvalidCallback)), None;
    }
    var meta := body.data.value.obj.value.metadata;
    if meta.None? || meta.value.orderId.None? || meta.value.orderId.value == "" {
      return Fail(BadRequest(OrderIdMissing)), None;
    }
    var found := OrderIndexByText(db.orders, meta.value.orderId.value);
    if found.None? {
      return Fail(NotFound(OrderNotFound)), None;
    }
    var o := db.orders[found.value];
    db.orders := db.orders[found.value := o.(status := SUCCEEDED)];
    var succeeded := db.orders[found.value].status == SUCCEEDED;
    if succeeded {
      mail := Some(PaymentSucceeded(o.contact.email, o.id, o.lines));
    } else {
      mail := Some(PaymentCancelled(o.contact.email, o.id));
    }
    r := Ok(());
  }
}
