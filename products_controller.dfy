/** `ProductsController`: the similar-products rule (three passes over one
    category, at most four results, cheapest first) and the bound on search
    results. The catalogue is read, never written. */
module ProductsController {
  import opened Common
  import opened Store
  import opened Sorting

  datatype Product = Product(id: int, name: string, categoryId: int, variants: seq<ProductVariant>)

  /** How far, either way, a variant price may be from the reference price in the first pass. */
  const PriceRange: int := 2000
  /** How many similar products are answered at most. */
  const SimilarLimit: int := 4
  /** How many search hits are answered at most. */
  const SearchLimit: int := 5

  function Id(p: Product): int {
    p.id
  }

  function Ids(s: seq<Product>): (r: seq<int>)
    ensures |r| == |s| && forall j :: 0 <= j < |s| ==> r[j] == s[j].id
  {
    seq(|s|, j requires 0 <= j < |s| => s[j].id)
  }

  lemma IdsAppend(a: seq<Product>, b: seq<Product>)
    ensures Ids(a + b) == Ids(a) + Ids(b)
  {
  }

  lemma IdOfMember(s: seq<Product>, x: Product)
    requires x in s
    ensures x.id in Ids(s)
  {
    var j :| 0 <= j < |s| && s[j] == x;
    assert Ids(s)[j] == x.id;
  }

  // ---- Prices

  predicate VariantPriceLe(a: ProductVariant, b: ProductVariant) {
    a.price <= b.price
  }

  lemma VariantPriceLeIsPreorder()
    ensures TotalPreorder(VariantPriceLe)
  {
  }

  /** `Variants.Min(v => v.Price)`: the lowest variant price, `None` (SQL NULL) without variants. */
  function MinPrice(vs: seq<ProductVariant>): (m: Option<int>)
    ensures m.None? <==> |vs| == 0
    ensures m.Some? ==> exists j :: 0 <= j < |vs| && vs[j].price == m.value
    ensures m.Some? ==> forall j :: 0 <= j < |vs| ==> m.value <= vs[j].price
  {
    if |vs| == 0 then None
    else
      match MinPrice(vs[1..])
      case None => Some(vs[0].price)
      case Some(m) =>
        assert forall j :: 1 <= j < |vs| ==> vs[j] == vs[1..][j - 1];
        Some(if vs[0].price <= m then vs[0].price else m)
  }

  /** `Variants.OrderBy(v => v.Price).Take(1)`: a cheapest variant, none without variants. */
  function Cheapest(vs: seq<ProductVariant>): (r: seq<ProductVariant>)
    ensures |r| == if |vs| == 0 then 0 else 1
    ensures |r| == 1 ==> r[0] in vs && forall v :: v in vs ==> r[0].price <= v.price
  {
    VariantPriceLeIsPreorder();
    SortBySorted(vs, VariantPriceLe);
    var sorted := SortBy(vs, VariantPriceLe);
    if |sorted| == 0 then []
    else
      assert forall v :: v in vs ==> VariantPriceLe(sorted[0], v) by {
        forall v | v in vs ensures VariantPriceLe(sorted[0], v) {
          SortByMembers(vs, VariantPriceLe, v);
          SortedHeadIsLeast(sorted, VariantPriceLe, v);
        }
      }
      SortByMembers(vs, VariantPriceLe, sorted[0]);
      Take(sorted, 1)
  }

  /** The reference price of the first pass: the price of the first variant in
      price order, which is exactly the lowest variant price. */
  function BasePrice(vs: seq<ProductVariant>): (b: int)
    requires |vs| > 0
    ensures MinPrice(vs) == Some(b)
  {
    var c := Cheapest(vs);
    var j :| 0 <= j < |vs| && vs[j] == c[0];
    c[0].price
  }

  /** A product as a similar-products answer lists it: with its cheapest variant only. */
  function Project(p: Product): Product {
    p.(variants := Cheapest(p.variants))
  }

  function Projected(s: seq<Product>): (r: seq<Product>)
    ensures |r| == |s| && forall j :: 0 <= j < |s| ==> r[j] == Project(s[j])
  {
    seq(|s|, j requires 0 <= j < |s| => Project(s[j]))
  }

  lemma ProjectedAppend(a: seq<Product>, b: seq<Product>)
    ensures Projected(a + b) == Projected(a) + Projected(b)
  {
  }

  lemma IdsOfProjected(s: seq<Product>)
    ensures Ids(Projected(s)) == Ids(s)
  {
  }

  /** The order of every pass: by lowest variant price, products without
      variants (a NULL minimum) last. */
  predicate PriceLe(p: Product, q: Product) {
    match MinPrice(p.variants)
    case None => MinPrice(q.variants).None?
    case Some(x) => MinPrice(q.variants).None? || x <= MinPrice(q.variants).value
  }

  lemma PriceLeIsPreorder()
    ensures TotalPreorder(PriceLe)
  {
  }

  // ---- The three passes

  /** Some variant of `p` is priced within `PriceRange` of `base`, bounds included. */
  predicate NearPrice(p: Product, base: int) {
    exists j :: 0 <= j < |p.variants| && base - PriceRange <= p.variants[j].price <= base + PriceRange
  }

  /** A first-pass candidate: another product of the category, priced near `base`. */
  predicate IsNear(p: Product, cur: Product, base: int) {
    p.id != cur.id && p.categoryId == cur.categoryId && NearPrice(p, base)
  }

  /** A second-pass candidate: another product of the category not yet chosen. */
  predicate IsOther(p: Product, cur: Product, chosen: seq<int>) {
    p.id != cur.id && p.categoryId == cur.categoryId && p.id !in chosen
  }

  /** A third-pass candidate: any product of the category not yet chosen, the current one included. */
  predicate IsFiller(p: Product, cur: Product, chosen: seq<int>) {
    p.categoryId == cur.categoryId && p.id !in chosen
  }

  function NearQuery(cur: Product, base: int): Product -> bool {
    (p: Product) => IsNear(p, cur, base)
  }

  function OtherQuery(cur: Product, chosen: seq<int>): Product -> bool {
    (p: Product) => IsOther(p, cur, chosen)
  }

  function FillerQuery(cur: Product, chosen: seq<int>): Product -> bool {
    (p: Product) => IsFiller(p, cur, chosen)
  }

  function Pass1(products: seq<Product>, cur: Product, base: int): seq<Product> {
    Top(products, NearQuery(cur, base), PriceLe, SimilarLimit)
  }

  function Pass2(products: seq<Product>, cur: Product, chosen: seq<int>, room: int): seq<Product> {
    Top(products, OtherQuery(cur, chosen), PriceLe, room)
  }

  function Pass3(products: seq<Product>, cur: Product, chosen: seq<int>, room: int): seq<Product> {
    Top(products, FillerQuery(cur, chosen), PriceLe, room)
  }

  /** The first pass: up to four other products of the category priced near
      `base`, cheapest first, all of them when fewer than four are. */
  lemma Pass1Facts(products: seq<Product>, cur: Product, base: int)
    ensures multiset(Pass1(products, cur, base)) <= multiset(products)
    ensures forall x :: x in Pass1(products, cur, base) ==> x in products && IsNear(x, cur, base)
    ensures |Pass1(products, cur, base)| < SimilarLimit ==>
              forall x :: x in products && IsNear(x, cur, base) ==> x in Pass1(products, cur, base)
  {
    TopMembers(products, NearQuery(cur, base), PriceLe, SimilarLimit);
  }

  /** The second pass: up to `room` other products of the category not yet
      chosen, cheapest first, all of them when fewer than `room` are. */
  lemma Pass2Facts(products: seq<Product>, cur: Product, chosen: seq<int>, room: int)
    ensures multiset(Pass2(products, cur, chosen, room)) <= multiset(products)
    ensures forall x :: x in Pass2(products, cur, chosen, room) ==> x in products && IsOther(x, cur, chosen)
    ensures |Pass2(products, cur, chosen, room)| < room ==>
              forall x :: x in products && IsOther(x, cur, chosen) ==> x in Pass2(products, cur, chosen, room)
  {
    TopMembers(products, OtherQuery(cur, chosen), PriceLe, room);
  }

  /** The third pass: up to `room` products of the category not yet chosen,
      the current one included, all of them when fewer than `room` are. */
  lemma Pass3Facts(products: seq<Product>, cur: Product, chosen: seq<int>, room: int)
    ensures multiset(Pass3(products, cur, chosen, room)) <= multiset(products)
    ensures forall x :: x in Pass3(products, cur, chosen, room) ==> x in products && IsFiller(x, cur, chosen)
    ensures |Pass3(products, cur, chosen, room)| < room ==>
              forall x :: x in products && IsFiller(x, cur, chosen) ==> x in Pass3(products, cur, chosen, room)
  {
    TopMembers(products, FillerQuery(cur, chosen), PriceLe, room);
  }

  /** Every pass lists its products cheapest first, and the first pass
      leaves out no near-priced product cheaper than one it keeps. */
  lemma PassesCheapestFirst(products: seq<Product>, cur: Product, base: int, chosen: seq<int>, room: int)
    ensures SortedBy(Pass1(products, cur, base), PriceLe)
    ensures forall x, y :: x in Pass1(products, cur, base) && y in products && IsNear(y, cur, base) && y !in Pass1(products, cur, base) ==> PriceLe(x, y)
    ensures SortedBy(Pass2(products, cur, chosen, room), PriceLe)
    ensures SortedBy(Pass3(products, cur, chosen, room), PriceLe)
  {
    PriceLeIsPreorder();
    TopOrder(products, NearQuery(cur, base), PriceLe, SimilarLimit);
    TopOrder(products, OtherQuery(cur, chosen), PriceLe, room);
    TopOrder(products, FillerQuery(cur, chosen), PriceLe, room);
  }

  /** What the first two passes choose: products other than the current one. */
  function FromOthers(products: seq<Product>, cur: Product, base: int): seq<Product> {
    var p1 := Pass1(products, cur, base);
    if |p1| < SimilarLimit then p1 + Pass2(products, cur, Ids(p1), SimilarLimit - |p1|) else p1
  }

  /** Everything the three passes choose, before projection. */
  function Chosen(products: seq<Product>, cur: Product, base: int): seq<Product> {
    var others := FromOthers(products, cur, base);
    if |others| < SimilarLimit then others + Pass3(products, cur, Ids(others), SimilarLimit - |others|) else others
  }

  lemma {:induction false} ChosenAtMostLimit(products: seq<Product>, cur: Product, base: int)
    ensures |FromOthers(products, cur, base)| <= SimilarLimit
    ensures |Chosen(products, cur, base)| <= SimilarLimit
  {
  }

  /** The first two passes choose catalogue products of the current
      product's category other than the current product. */
  lemma OthersFromCategory(products: seq<Product>, cur: Product, base: int)
    ensures forall x :: x in FromOthers(products, cur, base) ==> x in products && x.categoryId == cur.categoryId && x.id != cur.id
  {
    var p1 := Pass1(products, cur, base);
    Pass1Facts(products, cur, base);
    if |p1| < SimilarLimit {
      var p2 := Pass2(products, cur, Ids(p1), SimilarLimit - |p1|);
      Pass2Facts(products, cur, Ids(p1), SimilarLimit - |p1|);
      assert FromOthers(products, cur, base) == p1 + p2;
      forall x | x in p1 + p2
        ensures x in products && x.categoryId == cur.categoryId && x.id != cur.id
      {
        if x !in p1 {
          assert x in p2;
        }
      }
    }
  }

  /** Every choice is a catalogue product of the current product's category,
      and the first two passes never choose the current product. */
  lemma ChosenFromCategory(products: seq<Product>, cur: Product, base: int)
    ensures forall x :: x in FromOthers(products, cur, base) ==> x in products && x.categoryId == cur.categoryId && x.id != cur.id
    ensures forall x :: x in Chosen(products, cur, base) ==> x in products && x.categoryId == cur.categoryId
  {
    OthersFromCategory(products, cur, base);
    var others := FromOthers(products, cur, base);
    if |others| < SimilarLimit {
      var p3 := Pass3(products, cur, Ids(others), SimilarLimit - |others|);
      Pass3Facts(products, cur, Ids(others), SimilarLimit - |others|);
      assert Chosen(products, cur, base) == others + p3;
      forall x | x in others + p3
        ensures x in products && x.categoryId == cur.categoryId
      {
        if x !in others {
          assert x in p3;
        }
      }
    }
  }

  /** Appending a sequence none of whose keys occur in the first keeps keys distinct. */
  lemma UniqueAppend(a: seq<Product>, b: seq<Product>)
    requires UniqueBy(a, Id) && UniqueBy(b, Id)
    requires forall y :: y in b ==> y.id !in Ids(a)
    ensures UniqueBy(a + b, Id)
  {
    var s := a + b;
    forall i, j | 0 <= i < j < |s|
      ensures Id(s[i]) != Id(s[j])
    {
      if i < |a| && j >= |a| {
        assert s[j] == b[j - |a|];
        assert Ids(a)[i] == s[i].id;
      } else if i >= |a| {
        assert s[i] == b[i - |a|] && s[j] == b[j - |a|];
      } else {
        assert s[i] == a[i] && s[j] == a[j];
      }
    }
  }

  /** With distinct ids in the catalogue, no product is chosen twice. */
  lemma ChosenUnique(products: seq<Product>, cur: Product, base: int)
    requires UniqueBy(products, Id)
    ensures UniqueBy(Chosen(products, cur, base), Id)
  {
    var p1 := Pass1(products, cur, base);
    Pass1Facts(products, cur, base);
    UniqueBySubMultiset(p1, products, Id);
    var others := FromOthers(products, cur, base);
    if |p1| < SimilarLimit {
      var p2 := Pass2(products, cur, Ids(p1), SimilarLimit - |p1|);
      Pass2Facts(products, cur, Ids(p1), SimilarLimit - |p1|);
      UniqueBySubMultiset(p2, products, Id);
      UniqueAppend(p1, p2);
    }
    if |others| < SimilarLimit {
      var p3 := Pass3(products, cur, Ids(others), SimilarLimit - |others|);
      Pass3Facts(products, cur, Ids(others), SimilarLimit - |others|);
      ChosenFromCategory(products, cur, base);
      UniqueBySubMultiset(p3, products, Id);
      UniqueAppend(others, p3);
    }
  }

  /** Fewer than four from the first two passes means the second pass ran. */
  lemma ShortOthersUnfold(products: seq<Product>, cur: Product, base: int)
    requires |FromOthers(products, cur, base)| < SimilarLimit
    ensures |Pass1(products, cur, base)| < SimilarLimit
    ensures FromOthers(products, cur, base) ==
              Pass1(products, cur, base) + Pass2(products, cur, Ids(Pass1(products, cur, base)), SimilarLimit - |Pass1(products, cur, base)|)
  {
  }

  /** When the first two passes find fewer than four products, they found
      every other product of the category. */
  lemma OthersHoldRestOfCategory(products: seq<Product>, cur: Product, base: int)
    requires |FromOthers(products, cur, base)| < SimilarLimit
    ensures forall p :: p in products && p.categoryId == cur.categoryId && p.id != cur.id ==>
              p.id in Ids(FromOthers(products, cur, base))
  {
    var p1 := Pass1(products, cur, base);
    var others := FromOthers(products, cur, base);
    var p2 := Pass2(products, cur, Ids(p1), SimilarLimit - |p1|);
    ShortOthersUnfold(products, cur, base);
    Pass2Facts(products, cur, Ids(p1), SimilarLimit - |p1|);
    IdsAppend(p1, p2);
    assert |p2| < SimilarLimit - |p1|;
    forall p | p in products && p.categoryId == cur.categoryId && p.id != cur.id
      ensures p.id in Ids(others)
    {
      if p.id in Ids(p1) {
        assert Ids(others) == Ids(p1) + Ids(p2);
      } else {
        assert IsOther(p, cur, Ids(p1));
        assert p in p2;
        IdOfMember(p2, p);
        assert Ids(others) == Ids(p1) + Ids(p2);
      }
    }
  }

  /** When the first two passes find fewer than four products, the answer
      holds every product of the category: all the others, and the current
      product itself through the third pass. */
  lemma ShortAnswerHoldsWholeCategory(products: seq<Product>, cur: Product, base: int)
    requires |FromOthers(products, cur, base)| < SimilarLimit
    ensures forall p :: p in products && p.categoryId == cur.categoryId ==> p.id in Ids(Chosen(products, cur, base))
  {
    var others := FromOthers(products, cur, base);
    var chosen := Chosen(products, cur, base);
    var p3 := Pass3(products, cur, Ids(others), SimilarLimit - |others|);
    assert chosen == others + p3;
    OthersHoldRestOfCategory(products, cur, base);
    IdsAppend(others, p3);
    forall p | p in products && p.categoryId == cur.categoryId
      ensures p.id in Ids(chosen)
    {
      if p.id in Ids(others) {
        assert Ids(chosen) == Ids(others) + Ids(p3);
      } else {
        CurrentIsLeftForFiller(products, cur, others, p3, p);
      }
    }
  }

  /** A product the first two passes did not choose is the current product
      (by id), and the third pass answers it: it finds every filler when it
      has room left, and otherwise only fillers with the current id. */
  lemma CurrentIsLeftForFiller(products: seq<Product>, cur: Product, others: seq<Product>, p3: seq<Product>, p: Product)
    requires p3 == Pass3(products, cur, Ids(others), SimilarLimit - |others|)
    requires |others| < SimilarLimit
    requires forall q :: q in products && q.categoryId == cur.categoryId && q.id != cur.id ==> q.id in Ids(others)
    requires p in products && p.categoryId == cur.categoryId && p.id !in Ids(others)
    ensures p.id in Ids(others + p3)
  {
    Pass3Facts(products, cur, Ids(others), SimilarLimit - |others|);
    IdsAppend(others, p3);
    assert p.id == cur.id;
    assert IsFiller(p, cur, Ids(others));
    if |p3| < SimilarLimit - |others| {
      IdOfMember(p3, p);
    } else {
      var y := p3[0];
      assert y in p3;
      assert y in products && IsFiller(y, cur, Ids(others));
      assert y.id == cur.id;
      assert Ids(p3)[0] == p.id;
    }
    assert p.id in Ids(p3);
  }

  /** The current product is answered exactly when the first two passes
      found fewer than four other products. */
  lemma CurrentAnsweredIffShort(products: seq<Product>, cur: Product, base: int)
    requires cur in products
    ensures cur.id in Ids(Chosen(products, cur, base)) <==> |FromOthers(products, cur, base)| < SimilarLimit
  {
    ChosenFromCategory(products, cur, base);
    var others := FromOthers(products, cur, base);
    if |others| < SimilarLimit {
      ShortAnswerHoldsWholeCategory(products, cur, base);
    } else {
      assert Chosen(products, cur, base) == others;
      assert forall j :: 0 <= j < |others| ==> others[j] in others;
    }
  }

  /** Projection keeps each product's id, and so which products were chosen. */
  lemma ProjectedFacts(chosen: seq<Product>, products: seq<Product>, category: int)
    requires forall x :: x in chosen ==> x in products && x.categoryId == category
    ensures forall x :: x in Projected(chosen) ==> exists p :: p in products && p.categoryId == category && x == Project(p)
    ensures UniqueBy(chosen, Id) ==> UniqueBy(Projected(chosen), Id)
  {
    var r := Projected(chosen);
    forall x | x in r
      ensures exists p :: p in products && p.categoryId == category && x == Project(p)
    {
      var j :| 0 <= j < |r| && r[j] == x;
      assert chosen[j] in chosen;
    }
    assert forall j :: 0 <= j < |r| ==> Id(r[j]) == Id(chosen[j]);
  }

  /** The answer for current product `cur`: the three passes, each product
      reduced to its cheapest variant. At most four products, each a product
      of `cur`'s category with its cheapest variant, answered in the order
      the passes chose them; with distinct catalogue ids, none twice. */
  function Similar(products: seq<Product>, cur: Product): (r: seq<Product>)
    requires |cur.variants| > 0
    ensures |r| <= SimilarLimit
    ensures forall x :: x in r ==> exists p :: p in products && p.categoryId == cur.categoryId && x == Project(p)
    ensures Ids(r) == Ids(Chosen(products, cur, BasePrice(cur.variants)))
    ensures UniqueBy(products, Id) ==> UniqueBy(r, Id)
  {
    var base := BasePrice(cur.variants);
    var chosen := Chosen(products, cur, base);
    ChosenAtMostLimit(products, cur, base);
    ChosenFromCategory(products, cur, base);
    IdsOfProjected(chosen);
    ProjectedFacts(chosen, products, cur.categoryId);
    assert UniqueBy(products, Id) ==> UniqueBy(chosen, Id) by {
      if UniqueBy(products, Id) {
        ChosenUnique(products, cur, base);
      }
    }
    Projected(chosen)
  }

  lemma ProjectedPrefix(a: seq<Product>, b: seq<Product>)
    requires a <= b
    ensures Projected(a) <= Projected(b)
  {
    assert b == a + b[|a|..];
    ProjectedAppend(a, b[|a|..]);
  }

  /** The answer starts with what the first pass found. */
  lemma SimilarStartsWithPass1(products: seq<Product>, cur: Product)
    requires |cur.variants| > 0
    ensures Projected(Pass1(products, cur, BasePrice(cur.variants))) <= Similar(products, cur)
  {
    var base := BasePrice(cur.variants);
    var p1 := Pass1(products, cur, base);
    var others := FromOthers(products, cur, base);
    var chosen := Chosen(products, cur, base);
    assert p1 <= others;
    assert others <= chosen;
    ProjectedPrefix(p1, chosen);
    assert Similar(products, cur) == Projected(chosen);
  }

  /** The passes of `GetSimilarProducts`, appending each one's projected
      products to one list; a pass runs only while the list has room, and
      looks only for ids the list does not hold yet. */
  method FillSimilar(products: seq<Product>, cur: Product, base: int) returns (similar: seq<Product>)
    ensures similar == Projected(Chosen(products, cur, base))
  {
    var first := Pass1(products, cur, base);
    similar := Projected(first);
    ghost var chosen := first;
    IdsOfProjected(chosen);
    if |similar| < SimilarLimit {
      var second := Pass2(products, cur, Ids(similar), SimilarLimit - |similar|);
      ProjectedAppend(chosen, second);
      chosen := chosen + second;
      similar := similar + Projected(second);
      assert chosen == FromOthers(products, cur, base);
      IdsOfProjected(chosen);
      if |similar| < SimilarLimit {
        var third := Pass3(products, cur, Ids(similar), SimilarLimit - |similar|);
        ProjectedAppend(chosen, third);
        chosen := chosen + third;
        similar := similar + Projected(third);
      }
    }
  }

  /** `GetSimilarProducts`: 404 for an unknown id and 400 for a product
      without variants; otherwise the passes run one after another, each
      adding to the list what the earlier ones left room for. */
  method GetSimilarProducts(products: seq<Product>, id: int) returns (r: Result<seq<Product>>)
    ensures FirstIndex(products, (p: Product) => p.id == id).None? ==> r == Fail(NotFound(ProductNotFound))
    ensures FirstIndex(products, (p: Product) => p.id == id).Some? ==>
              var cur := products[FirstIndex(products, (p: Product) => p.id == id).value];
              && (|cur.variants| == 0 ==> r == Fail(BadRequest(ProductHasNoVariants)))
              && (|cur.variants| > 0 ==>
                    && r == Ok(Similar(products, cur))
                    && Projected(Pass1(products, cur, BasePrice(cur.variants))) <= r.value)
  {
    var found := FirstIndex(products, (p: Product) => p.id == id);
    if found.None? {
      return Fail(NotFound(ProductNotFound));
    }
    var cur := products[found.value];
    if |cur.variants| == 0 {
      return Fail(BadRequest(ProductHasNoVariants));
    }
    var similar := FillSimilar(products, cur, BasePrice(cur.variants));
    SimilarStartsWithPass1(products, cur);
    r := Ok(similar);
  }

  // ---- Search

  /** Ordinal string order: a proper prefix first, else by the first differing character. */
  predicate LexLe(a: string, b: string) {
    |a| == 0 || (|b| > 0 && (a[0] < b[0] || (a[0] == b[0] && LexLe(a[1..], b[1..]))))
  }

  lemma {:induction false} LexLeTotal(a: string, b: string)
    ensures LexLe(a, b) || LexLe(b, a)
  {
    if |a| > 0 && |b| > 0 && a[0] == b[0] {
      LexLeTotal(a[1..], b[1..]);
    }
  }

  lemma {:induction false} LexLeTransitive(a: string, b: string, c: string)
    requires LexLe(a, b) && LexLe(b, c)
    ensures LexLe(a, c)
  {
    if |a| > 0 && a[0] == b[0] && b[0] == c[0] {
      LexLeTransitive(a[1..], b[1..], c[1..]);
    }
  }

  predicate NameLe(p: Product, q: Product) {
    LexLe(p.name, q.name)
  }

  lemma NameLeIsPreorder()
    ensures TotalPreorder(NameLe)
  {
    forall a: Product, b: Product
      ensures NameLe(a, b) || NameLe(b, a)
    {
      LexLeTotal(a.name, b.name);
    }
    forall a: Product, b: Product, c: Product | NameLe(a, b) && NameLe(b, c)
      ensures NameLe(a, c)
    {
      LexLeTransitive(a.name, b.name, c.name);
    }
  }

  /** `SearchProducts`: at most five products whose name matches the query,
      in name order, the first five of all matches; fewer only when there are
      no more. `matches(name)` stands for the database's case-insensitive
      `ILIKE '%query%'`. */
  function SearchProducts(products: seq<Product>, matches: string -> bool): (r: seq<Product>)
    ensures |r| <= SearchLimit
    ensures SortedBy(r, NameLe)
    ensures forall x :: x in r ==> x in products && matches(x.name)
    ensures |r| < SearchLimit ==> forall p :: p in products && matches(p.name) ==> p in r
    ensures forall x, y :: x in r && y in products && matches(y.name) && y !in r ==> NameLe(x, y)
  {
    NameLeIsPreorder();
    var q := (p: Product) => matches(p.name);
    TopMembers(products, q, NameLe, SearchLimit);
    TopOrder(products, q, NameLe, SearchLimit);
    Top(products, q, NameLe, SearchLimit)
  }
}
