# device-drop-backend store model

A Dafny model of the shop logic in the device-drop backend, an ASP.NET
service for an electronics shop. It models five parts:

- **Carts.** A guest cart is kept per `cartToken` cookie. Adding a variant
  adds one unit to its line or creates a line of quantity 1. Lines are
  updated and deleted by item id. After every change the cart's cached total
  is recomputed as the sum of quantity × (sale price, or list price).
- **Checkout.** A non-empty cart becomes a PENDING order holding a snapshot
  of the cart lines. The cart is then emptied and a payment is requested
  from the gateway.
- **Payment notifications.** The order controller exists in two diverging
  versions. `CheckoutCallback` sets SUCCEEDED or CANCELLED from the payment
  status. `Callback` always sets SUCCEEDED.
- **Accounts.** Registration mails a six-digit code bound to a session
  token. The code is valid for two hours and is consumed on use. Login
  requires a verified account. OAuth sign-in upserts a user by
  (provider, provider id). Session tokens are accepted only for verified
  users.
- **Catalogue.** The similar-products rule runs three passes, each sorted by
  cheapest variant, and returns at most four products. Search returns at
  most five products, ordered by name.

The database context is the class `Store.Db`:

- each table is a `seq` field, in the order its rows were inserted;
- the variant catalogue is a map;
- identity columns are `next…Id` counters;
- `Db.Valid()` holds two foreign keys: every cart line names a known
  variant, and every verification record names an existing user. It also
  holds that every id is below its identity counter and that verification
  session tokens are unique. It does not hold the line-to-cart key, nor
  unique ids or unique cart tokens; no contract needs them.

Each cart, order and account action is a method at module level that takes
the context `db: Db`, with a `modifies` clause for the tables it writes.
Its `ensures` relates the new tables to a transition function: `WithCart`,
`AddLine`, `Retotal`, `PlacedOrder`, `WithStatus` or `Upsert`. The lemmas
about those functions state the properties. The catalogue actions,
`GetSimilarProducts` and `SearchProducts`, only read, so they take the
product table as a sequence and do not use `Db`.

The LINQ queries become functions over sequences:

- `FirstOrDefault` is `FirstIndex`;
- `Where`, `OrderBy` and `Take` are `Filter`, the stable `SortBy` and `Take`;
- `int.Parse` and `int.ToString()` are `ParseInt32` and `IntToString`,
  over the 32-bit range.

Outside code is passed in as parameters:

- the payment gateway's HTTP reply: a function from request to reply;
- BCrypt: `hash`, and `passwordMatches`, where `None` means the check threw;
- JWT: `Jwt(sign, idClaim)`;
- the clock: `now`, in seconds;
- randomness: `roll`, the number `Random.Next` drew;
- GUIDs: the `guid` and `session` parameters;
- whether a mail was delivered: `mailDelivered`.

The model follows the code where its behaviour is surprising:

- An unknown variant in `AddToCart` fails with 500 after the cart was
  created.
- `Register`'s mail send is not guarded, so a failed send gives 500 after
  the user and the code record were stored.
- `Login` answers 500 when BCrypt throws.
- `GetCurrentUser` and `VerifyToken` answer 500 when the id claim is not a
  number, because `int.Parse` throws.

## Model

| member | source | states |
|---|---|---|
| Common.FirstIndex | device-drop-backend/Controllers/CartControllers.cs:300-303 | the index found satisfies the predicate and no earlier element does; `None` exactly when no element satisfies it |
| Common.FirstIndexAgrees | device-drop-backend/Controllers/CartControllers.cs:315-321 | two tables that agree on the predicate at every position give the same first match |
| Common.Filter | device-drop-backend/Controllers/ProductsController.cs:121-125 | a `Where` keeps each element satisfying the predicate and no other, and never adds an element |
| Common.FilterCounts | device-drop-backend/Controllers/ProductsController.cs:121-125 | a `Where` keeps every copy of each element satisfying the predicate and no copy of any other |
| Common.FilterAppend | device-drop-backend/Controllers/CartControllers.cs:328 | filtering distributes over concatenation |
| Common.Take | device-drop-backend/Controllers/ProductsController.cs:127 | `Take(n)` is the prefix of length min(n, length), and empty for n ≤ 0 |
| Common.RemoveAt | device-drop-backend/Controllers/CartControllers.cs:252 | removing one row keeps every other row, in order |
| Numbers.IntToString | device-drop-backend/Controllers/OrderController.cs:156 | `ToString()` is non-empty and starts with '-' exactly for negative numbers |
| Numbers.IntToStringInjective | device-drop-backend/Controllers/OrderController.cs:156 | two different numbers never print alike |
| Numbers.ParseInt32 | device-drop-backend/Controllers/OrderContoller.cs:147 | `int.Parse` succeeds only with a 32-bit value |
| Numbers.TrailingNulsAfterWhiteSpace | device-drop-backend/Controllers/OrderContoller.cs:147 | `int.Parse` accepts U+0000 characters after the number's trailing white space ("5 \0\0" is 5) but not before it ("5\0 " is refused) |
| Numbers.ParseOfFormat | device-drop-backend/Controllers/AuthController.cs:42 | parsing what `ToString()` wrote gives the number back, for every 32-bit number |
| Numbers.LeadingZeroOnlyParses | device-drop-backend/Controllers/OrderController.cs:156 | "07" parses to 7, but no number prints as "07" |
| Sorting.SortBy | device-drop-backend/Controllers/ProductsController.cs:126 | an `OrderBy` is a permutation of its input |
| Sorting.SortBySorted | device-drop-backend/Controllers/ProductsController.cs:126 | under a total preorder the `OrderBy` result is sorted |
| Sorting.UniqueBySubMultiset | device-drop-backend/Controllers/ProductsController.cs:163 | a sub-multiset of a sequence with distinct keys has distinct keys |
| Sorting.Top | device-drop-backend/Controllers/ProductsController.cs:121-127 | a `Where`/`OrderBy`/`Take(n)` query returns at most n elements |
| Sorting.TopMembers | device-drop-backend/Controllers/ProductsController.cs:121-127 | the query returns elements of the table that satisfy the filter, none more often than the table has them; a short answer holds every match |
| Sorting.TopOrder | device-drop-backend/Controllers/ProductsController.cs:121-127 | the query answers in order, and every match it keeps comes no later than every match it leaves out |
| Services.CreatePayment | device-drop-backend/Services/YookassaPaymentService.cs:35-89 | a payment is created exactly when the amount is positive and the gateway returns an id and a confirmation URL; an amount ≤ 0 is refused without asking |
| CartController.CalcCartItemTotalPrice | device-drop-backend/Controllers/CartControllers.cs:342-345 | a line costs its quantity times the sale price when there is one, and times the list price otherwise |
| CartController.BumpedLinePrice | device-drop-backend/Controllers/CartControllers.cs:97 | one more unit on a line costs exactly one more unit price |
| CartController.LinesTotalAppend | device-drop-backend/Controllers/CartControllers.cs:328 | the sum of line prices over two runs of lines is the sum of their sums |
| CartController.CartTotalAppend | device-drop-backend/Controllers/CartControllers.cs:328 | a cart's total over two runs of rows is the sum of its totals over each |
| CartController.CartTotalSingle | device-drop-backend/Controllers/CartControllers.cs:328 | a single row adds its line price to its own cart's total and nothing to any other cart's |
| CartController.CartTotalReplace | device-drop-backend/Controllers/CartControllers.cs:187 | changing a row changes a cart's total by the difference of the row's old and new shares |
| CartController.CartTotalRemove | device-drop-backend/Controllers/CartControllers.cs:252 | removing a row takes exactly its share out of a cart's total |
| CartController.WithCart | device-drop-backend/Controllers/CartControllers.cs:300-313 | afterwards a cart with the token exists; the existing carts are untouched and at most one is added |
| CartController.WithCartFinds | device-drop-backend/Controllers/CartControllers.cs:302-313 | when the token already has a cart, nothing changes |
| CartController.WithCartCreates | device-drop-backend/Controllers/CartControllers.cs:305-310 | without a cart for the token exactly one empty cart with that token is appended, and it is the one found |
| CartController.WithCartTwice | device-drop-backend/Controllers/CartControllers.cs:300-313 | finding or creating twice creates no second cart |
| CartController.FindOrCreateCart | device-drop-backend/Controllers/CartControllers.cs:300-313 | the carts become `WithCart`, the identity counter moves only when a cart was created, and the returned position holds the token's cart |
| CartController.Retotal | device-drop-backend/Controllers/CartControllers.cs:315-340 | the token's cart caches the sum of its line prices; every other cart, and every cart's id and token, is unchanged; with no cart for the token nothing changes |
| CartController.RetotalKeepsLookup | device-drop-backend/Controllers/CartControllers.cs:315-340 | recomputing a total never changes which cart a token finds |
| CartController.UpdateCartTotalAmount | device-drop-backend/Controllers/CartControllers.cs:315-340 | the carts become `Retotal` of the old carts over the current lines |
| CartController.NewestFirst | device-drop-backend/Controllers/CartControllers.cs:45-59 | the answer lists every line of the cart exactly once, newest first, each with its variant |
| CartController.ViewOf | device-drop-backend/Controllers/CartControllers.cs:41-60 | the answer carries the cart's id, its cached total and its own lines newest first |
| CartController.GetCart | device-drop-backend/Controllers/CartControllers.cs:19-76 | no cookie or no cart for it gives total 0 and no lines; otherwise the token's cart as stored; nothing is written |
| CartController.AddLine | device-drop-backend/Controllers/CartControllers.cs:92-110 | an existing line for the variant gains exactly one unit and no line is inserted or changed otherwise; without one, exactly one line of quantity 1 is appended |
| CartController.AddLineKeepsLinesUnique | device-drop-backend/Controllers/CartControllers.cs:92-110 | adding never creates a second line for the same (cart, variant) |
| CartController.AddLineRaisesTotal | device-drop-backend/Controllers/CartControllers.cs:92-112 | adding raises the cart's total by exactly one unit price and leaves every other cart's total unchanged |
| CartController.AddItem | device-drop-backend/Controllers/CartControllers.cs:92-110 | the rows become `AddLine` when the variant exists; a line for an unknown variant is refused and nothing is written |
| CartController.AddToCart | device-drop-backend/Controllers/CartControllers.cs:79-168 | find or create the cart, `AddLine`, then `Retotal`; the answer's total is the sum of the cart's line prices; an unknown variant gives 500 after the cart was created; an invented token is handed back as the cookie |
| CartController.UpdateCartItem | device-drop-backend/Controllers/CartControllers.cs:171-233 | no cookie gives 400 and an unknown item id 404, both writing nothing; otherwise the item, in whichever cart, takes exactly the requested quantity, ≤ 0 included, no row is removed, and the cookie's cart is retotalled |
| CartController.DeleteCartItem | device-drop-backend/Controllers/CartControllers.cs:236-298 | no cookie gives 400 and an unknown item id 404, both writing nothing; otherwise exactly the item with that id, in whichever cart, is removed and the cookie's cart is retotalled |
| CartController.ForeignUpdateLeavesStaleTotal | device-drop-backend/Controllers/CartControllers.cs:181-190 | updating another cart's line through one's own token leaves the owning cart's cached total stale |
| CartController.NegativeQuantityGivesNegativeTotal | device-drop-backend/Controllers/CartControllers.cs:187 | a stored negative quantity makes a cart's total negative |
| Orders.Snapshot | device-drop-backend/Controllers/OrderContoller.cs:61-82 | one snapshot entry per cart line, in cart order, carrying the line's id, quantity and variant and the variant's list price, sale price and stock |
| Orders.SnapshotTotalIsLinesTotal | device-drop-backend/Controllers/OrderContoller.cs:51-83 | the snapshot priced at its recorded prices costs exactly the cart's sum of line prices |
| Orders.PlacedOrder | device-drop-backend/Controllers/OrderContoller.cs:51-83 | the order is PENDING, has no payment id, and copies the cart's token and total, the contact form and the snapshot of the cart's lines |
| Orders.AddOrder | device-drop-backend/Controllers/OrderContoller.cs:85-86 | exactly one order is appended under the next identity |
| Orders.ClearCart | device-drop-backend/Controllers/OrderContoller.cs:88-90 | the cart's total becomes 0 and exactly its lines are removed |
| Orders.CreateOrder | device-drop-backend/Controllers/OrderContoller.cs:25-130 | no cookie gives 400, an unknown cart 404 and a zero total 400, none writing anything; otherwise one PENDING order is stored and the cart emptied before payment is requested for the order's total and id; a refusal gives 500 and keeps the order, a payment stores its id on the order; a negative cached total, too, is stored as an order and its cart emptied before the refusal; the mail outcome changes nothing |
| Orders.PlaceOrder | device-drop-backend/Controllers/OrderController.cs:51-105 | past the guards: one PENDING order is stored and the cart emptied, then the payment reply decides the answer and the order's payment id |
| Orders.StoreOrder | device-drop-backend/Controllers/OrderController.cs:51-90 | the order `PlacedOrder` is appended, then the cart's total is set to 0 and its lines are removed |
| Orders.RequestPayment | device-drop-backend/Controllers/OrderController.cs:92-105 | payment is requested for the order's total and id; a refusal is 500 with orders unchanged; a payment stores its id on that order only and answers its confirmation URL |
| Orders.ClearedCartHasNoLines | device-drop-backend/Controllers/OrderController.cs:89 | after checkout the cart has no lines |
| Orders.ClearingKeepsOtherCarts | device-drop-backend/Controllers/OrderController.cs:89 | clearing one cart leaves every other cart's lines as they were |
| Orders.NotifiedStatus | device-drop-backend/Controllers/OrderContoller.cs:156-157 | the status is SUCCEEDED exactly when the payment status is "succeeded" and CANCELLED otherwise |
| Orders.WithStatus | device-drop-backend/Controllers/OrderContoller.cs:157 | only the one order's status changes, whatever it was |
| Orders.WithStatusIdempotent | device-drop-backend/Controllers/OrderContoller.cs:157 | replaying a notification has no further effect |
| Orders.LaterNotificationWins | device-drop-backend/Controllers/OrderContoller.cs:157 | no final status is guarded: a later notification overrides an earlier one |
| Orders.CheckoutCallback | device-drop-backend/Controllers/OrderContoller.cs:133-197 | a malformed notification gives 400, a non-numeric order id 500 and an unknown order 404, none writing anything; otherwise the order takes `NotifiedStatus` whatever its status was, and the matching mail is attempted |
| Orders.OrderIndexByCanonicalText | device-drop-backend/Controllers/OrderController.cs:156 | matching the id's text finds the same order as matching the number, for the text `ToString()` writes |
| Orders.PaddedIdMatchesOnlyWhenParsed | device-drop-backend/Controllers/OrderController.cs:156 | "07" names order 7 for the handler that parses and no order for the one that compares text |
| Orders.Callback | device-drop-backend/Controllers/OrderController.cs:133-196 | unreadable JSON or a null object gives 400, a missing or empty order id 400 and an id no order's text equals 404, none writing anything; otherwise the order becomes SUCCEEDED whatever the payload says, and the success mail is always the one attempted |
| AuthController.GenerateVerificationCode | device-drop-backend/Controllers/AuthController.cs:225-228 | the code is six decimal digits, denotes the number drawn, and is never "999999" |
| AuthController.FreshCodeMatchesUntilExpiry | device-drop-backend/Controllers/AuthController.cs:94-150 | a code stored with a two-hour expiry is found with its session token before two hours have passed, and never after |
| AuthController.ConsumedCodeCannotBeReused | device-drop-backend/Controllers/AuthController.cs:148-156 | once its record is removed, nothing matches that session: a code succeeds at most once |
| AuthController.Register | device-drop-backend/Controllers/AuthController.cs:73-109 | a used e-mail gives 400, saying whether that account is unconfirmed, and writes nothing; otherwise one unverified USER with the hashed password and one code record for it, expiring two hours from now, are stored and the code is mailed |
| AuthController.Enroll | device-drop-backend/Controllers/AuthController.cs:82-103 | exactly one user and then exactly one code record for it are stored |
| AuthController.AddUser | device-drop-backend/Controllers/AuthController.cs:89-90 | exactly one user is appended under the next identity, and that id now finds it |
| AuthController.AddCode | device-drop-backend/Controllers/AuthController.cs:96-103 | exactly one code record is appended under the next identity, and session tokens stay unique |
| AuthController.VerifyCode | device-drop-backend/Controllers/AuthController.cs:140-163 | an empty code, a missing session, or no unexpired record for them gives 400 and writes nothing; otherwise the user is marked verified now, exactly that record is removed, and the code no longer matches |
| AuthController.MarkVerified | device-drop-backend/Controllers/AuthController.cs:155 | only that user's verification time changes |
| AuthController.RemoveCode | device-drop-backend/Controllers/AuthController.cs:156 | exactly that code record is removed |
| AuthController.Login | device-drop-backend/Controllers/AuthController.cs:60-71 | signs in only the first user with the e-mail, when the password matches and the account is verified; every other case is 401, or 500 with its own reason when the hash check throws on a stored password that is not a hash; nothing is written |
| AuthController.Upsert | device-drop-backend/Controllers/AuthController.cs:114-134 | an existing provider account has only its e-mail and first name overwritten; otherwise exactly one verified USER for it is appended; either way the account then has a user |
| AuthController.UpsertTwiceAddsNoUser | device-drop-backend/Controllers/AuthController.cs:114-134 | a second sign-in with the same provider account adds no user and finds the same one |
| AuthController.UpdateAccount | device-drop-backend/Controllers/AuthController.cs:117-119 | only that user's e-mail and first name change, and the account still finds it |
| AuthController.OAuth | device-drop-backend/Controllers/AuthController.cs:111-138 | the users become `Upsert`, and the answer signs in the account's user |
| AuthController.TokenUser | device-drop-backend/Controllers/AuthController.cs:36-48 | a token that does not validate gives 401, a non-numeric id claim 500; a user is returned exactly when a verified user has the claimed id, and it is that user |
| AuthController.SignedTokenNamesUser | device-drop-backend/Controllers/AuthController.cs:181-189 | a token signed for a verified user names that user back |
| AuthController.GetCurrentUser | device-drop-backend/Controllers/AuthController.cs:27-58 | no cookie gives 401; otherwise the token's verified user; nothing is written |
| AuthController.VerifyToken | device-drop-backend/Controllers/AuthController.cs:165-179 | an empty token gives 400; otherwise the token's verified user; nothing is written |
| ProductsController.Ids | device-drop-backend/Controllers/ProductsController.cs:163 | the ids of the products, position by position |
| ProductsController.MinPrice | device-drop-backend/Controllers/ProductsController.cs:126 | the lowest variant price, which some variant has, and none without variants |
| ProductsController.Cheapest | device-drop-backend/Controllers/ProductsController.cs:135-137 | exactly one variant when there are any, and it is priced no higher than any other |
| ProductsController.BasePrice | device-drop-backend/Controllers/ProductsController.cs:118 | the reference price is the minimum variant price |
| ProductsController.Projected | device-drop-backend/Controllers/ProductsController.cs:128-154 | each product is listed with its cheapest variant only, position by position |
| ProductsController.IdsOfProjected | device-drop-backend/Controllers/ProductsController.cs:128-154 | projecting keeps every product's id |
| ProductsController.PriceLeIsPreorder | device-drop-backend/Controllers/ProductsController.cs:126 | ordering by lowest variant price, products without variants last, is a total preorder |
| ProductsController.Pass1Facts | device-drop-backend/Controllers/ProductsController.cs:121-127 | pass 1 returns catalogue products of the category, other than the current one, with a variant within 2000 of the reference price; a short pass 1 holds all of them |
| ProductsController.Pass2Facts | device-drop-backend/Controllers/ProductsController.cs:161-165 | pass 2 returns catalogue products of the category, other than the current one, not yet chosen; a short pass 2 holds all of them |
| ProductsController.Pass3Facts | device-drop-backend/Controllers/ProductsController.cs:200-204 | pass 3 returns catalogue products of the category not yet chosen, the current one included; a short pass 3 holds all of them |
| ProductsController.PassesCheapestFirst | device-drop-backend/Controllers/ProductsController.cs:126 | every pass is sorted cheapest first, and pass 1 keeps no near product that costs more than one it leaves out |
| ProductsController.ChosenAtMostLimit | device-drop-backend/Controllers/ProductsController.cs:159-204 | the passes together choose at most four products |
| ProductsController.ChosenFromCategory | device-drop-backend/Controllers/ProductsController.cs:121-204 | every choice is a catalogue product of the current product's category, and the first two passes never choose the current product |
| ProductsController.ChosenUnique | device-drop-backend/Controllers/ProductsController.cs:159-204 | with distinct catalogue ids, no product is chosen twice |
| ProductsController.ShortAnswerHoldsWholeCategory | device-drop-backend/Controllers/ProductsController.cs:159-204 | when the first two passes find fewer than four, the answer holds every product of the category |
| ProductsController.CurrentAnsweredIffShort | device-drop-backend/Controllers/ProductsController.cs:197-204 | the current product is in the answer exactly when the first two passes found fewer than four |
| ProductsController.Similar | device-drop-backend/Controllers/ProductsController.cs:118-238 | at most four products, each a same-category catalogue product reduced to its cheapest variant, the ids being those the passes chose, with no duplicate id when the catalogue has none |
| ProductsController.SimilarStartsWithPass1 | device-drop-backend/Controllers/ProductsController.cs:195 | the answer starts with pass 1's products, in order |
| ProductsController.FillSimilar | device-drop-backend/Controllers/ProductsController.cs:121-236 | the list grown pass by pass is the projection of what the three passes choose |
| ProductsController.GetSimilarProducts | device-drop-backend/Controllers/ProductsController.cs:98-245 | an unknown id gives 404 and a product without variants 400; otherwise the answer is `Similar`, starting with pass 1 |
| ProductsController.LexLeTotal | device-drop-backend/Controllers/ProductsController.cs:68 | ordinal string order is total |
| ProductsController.LexLeTransitive | device-drop-backend/Controllers/ProductsController.cs:68 | ordinal string order is transitive |
| ProductsController.SearchProducts | device-drop-backend/Controllers/ProductsController.cs:63-96 | at most five matching catalogue products, ordered by name; a short answer holds every match, and no match left out sorts before one kept |

## Left out

- HTTP plumbing is not modelled: cookie options and expiry, request-body
  reading, and status-code bodies and messages beyond the refusal reason.
- `CheckoutCallback`: the `[FromBody]` binding of `PaymentCallbackData` and
  the JSON key names that binding depends on are not modelled. The model
  takes the already-bound object, with a JSON null as `None`.
- BCrypt, JWT signing and validation, `Random`, `Guid.NewGuid` and the
  clock are parameters. Two consequences:
  - the ten-minute token lifetime is hidden inside `Jwt.idClaim`;
  - a session GUID is assumed unused, the precondition `Register` states.
- The payment gateway's HTTP exchange is an oracle. The payment description
  and return URL it sends are not modelled.
- SMTP and the mail bodies: HTML templates, amount formatting and
  floating-point `/ 100.0`. A mail is only its recipient and the data it
  carries. `mailDelivered` says whether sending succeeded.
- Case-insensitive `ILike` matching depends on the database collation.
  `SearchProducts` takes the match as a predicate `matches`.
- `SearchProducts`, `Similar`: database ordering is modelled as a stable
  sort, so ties keep table order; the database may order ties differently.
  Name order is ordinal per character, while the database collation may
  differ.
- Lookups by `FirstOrDefault` without an `OrderBy` are modelled as the
  first matching row in table order; the database may return any matching
  row. This matters for `Login` when two users share an e-mail, which an
  OAuth sign-in next to a local account can produce.
- Concurrency and transactions are not modelled. Each request is one atomic
  step, and a failure between two `SaveChangesAsync` keeps the first write,
  as modelled.
- Totals use unbounded `int`, so two 32-bit overflows in the cart total are
  not modelled. A line price `Quantity * price` is computed unchecked and
  wraps silently; `UpdateCartItem` stores any quantity, so it can be
  reached. The LINQ `Sum` of the line prices is checked: it throws, and the
  action's `catch` answers 500.
- `CreatedAt` timestamps are not stored. Table order stands for creation
  order, so `NewestFirst` reverses it.
- Fields the rules never read are dropped: names, descriptions, brands,
  colours and images. `Category` and `Color` are reduced to ids. A
  variant's stock is kept, shown by `GetCart` and copied into the order
  snapshot, but never checked.
- `GetProduct`, `GetProductsLength` and
  `CategoryControllers.cs` are not modelled; they only read and project.
- `CreateOrder`: a gateway that throws and a gateway that returns no data
  both give the same 500.
- `Register`: the verification cookie is modelled as issued only together
  with the success answer. When the mail fails the response is 500, and
  the cookie the source appended on that response is not modelled.
- `TokenUser`, `GetCurrentUser`, `VerifyToken`: a valid token without an
  "id" claim is modelled as carrying an empty claim. It fails `int.Parse`
  with 500, where the source's `First` throws, which also gives 500.
- `CheckoutCallback`, `Callback`: an exception while saving is not
  modelled; the answer would be 500.
