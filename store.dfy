/** The entities of the shop and the database context that holds them.

    Each table is an ordered sequence of rows; a row is a value, and an
    in-place change to an entity is a new sequence with that row replaced.
    Lookups take the first row that matches, as `FirstOrDefaultAsync` does
    over the table's order. Identity columns are drawn from `next*Id`
    counters. Prices and totals are whole numbers of the smallest currency
    unit, as in the source's `int` columns. */
module Store {
  import opened Common

  datatype ProductVariant = ProductVariant(
    id: int,
    productId: int,
    price: int,
    salePrice: Option<int>,
    stock: int)

  /** A cart is found by the opaque token of the `cartToken` cookie and caches its total. */
  datatype Cart = Cart(id: int, token: string, totalAmount: int)

  datatype CartItem = CartItem(id: int, cartId: int, variantId: int, quantity: int)

  datatype OrderStatus = PENDING | SUCCEEDED | CANCELLED

  /** One entry of an order's item snapshot (the JSON array in `Order.Items`). */
  datatype OrderLine = OrderLine(
    itemId: int,
    quantity: int,
    variantId: int,
    price: int,
    salePrice: Option<int>,
    stock: int)

  /** The contact fields a checkout form carries and an order copies. */
  datatype Contact = Contact(
    firstName: string,
    email: string,
    phone: string,
    address: string,
    comment: Option<string>)

  datatype Order = Order(
    id: int,
    token: string,
    totalAmount: int,
    status: OrderStatus,
    paymentId: Option<string>,
    lines: seq<OrderLine>,
    contact: Contact)

  datatype Role = USER | ADMIN

  /** `verified` is the time of verification, `None` while the account is unconfirmed. */
  datatype User = User(
    id: int,
    firstName: string,
    email: string,
    password: string,
    role: Role,
    verified: Option<int>,
    provider: Option<string>,
    providerId: Option<string>)

  datatype VerificationCode = VerificationCode(
    id: int,
    userId: int,
    code: string,
    sessionToken: string,
    expiresAt: int)

  // Table queries, one per `FirstOrDefaultAsync` predicate of the controllers.

  function CartIndex(carts: seq<Cart>, token: string): Option<nat> {
    FirstIndex(carts, (c: Cart) => c.token == token)
  }

  function ItemIndex(items: seq<CartItem>, id: int): Option<nat> {
    FirstIndex(items, (it: CartItem) => it.id == id)
  }

  /** The line of cart `cartId` for variant `variantId`. */
  function LineIndex(items: seq<CartItem>, cartId: int, variantId: int): Option<nat> {
    FirstIndex(items, (it: CartItem) => it.cartId == cartId && it.variantId == variantId)
  }

  function OrderIndex(orders: seq<Order>, id: int): Option<nat> {
    FirstIndex(orders, (o: Order) => o.id == id)
  }

  function UserIndex(users: seq<User>, id: int): Option<nat> {
    FirstIndex(users, (u: User) => u.id == id)
  }

  /** The lines of one cart, in table order (the cart's `Items` navigation). */
  function LinesOf(items: seq<CartItem>, cartId: int): seq<CartItem> {
    Filter(items, (it: CartItem) => it.cartId == cartId)
  }

  /** The rows left after removing every line of cart `cartId` (`RemoveRange(cart.Items)`). */
  function WithoutLinesOf(items: seq<CartItem>, cartId: int): seq<CartItem> {
    Filter(items, (it: CartItem) => it.cartId != cartId)
  }

  /** Every line refers to a variant that exists (the foreign key of `CartItem`). */
  ghost predicate KnownVariants(lines: seq<CartItem>, variants: map<int, ProductVariant>) {
    forall it :: it in lines ==> it.variantId in variants
  }

  /** Every verification record's session token is its own (they come from `Guid.NewGuid`). */
  ghost predicate SessionsUnique(codes: seq<VerificationCode>) {
    forall i, j :: 0 <= i < j < |codes| ==> codes[i].sessionToken != codes[j].sessionToken
  }

  /** The database context: the tables the controllers read and write. */
  class Db {
    var variants: map<int, ProductVariant>
    var carts: seq<Cart>
    var items: seq<CartItem>
    var orders: seq<Order>
    var users: seq<User>
    var codes: seq<VerificationCode>
    var nextCartId: int
    var nextItemId: int
    var nextOrderId: int
    var nextUserId: int
    var nextCodeId: int

    /** Foreign keys hold and every identity counter is past the ids it issued. */
    ghost predicate Valid()
      reads this
    {
      && KnownVariants(items, variants)
      && (forall c :: c in carts ==> c.id < nextCartId)
      && (forall it :: it in items ==> it.id < nextItemId)
      && (forall o :: o in orders ==> o.id < nextOrderId)
      && (forall u :: u in users ==> u.id < nextUserId)
      && (forall vc :: vc in codes ==> vc.id < nextCodeId)
      && (forall vc :: vc in codes ==> UserIndex(users, vc.userId).Some?)
      && SessionsUnique(codes)
    }

    /** An empty store over a fixed catalogue of variants. */
    constructor (catalogue: map<int, ProductVariant>)
      ensures Valid()
      ensures variants == catalogue
      ensures carts == [] && items == [] && orders == [] && users == [] && codes == []
    {
      variants := catalogue;
      carts, items, orders, users, codes := [], [], [], [], [];
      nextCartId, nextItemId, nextOrderId, nextUserId, nextCodeId := 1, 1, 1, 1, 1;
    }
  }
}
