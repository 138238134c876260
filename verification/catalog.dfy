/**
 * The catalog side of the store: looking products up by id, the filters of
 * the product listing and of the search, and the values that adding,
 * editing and deleting a product produce.
 */
module Catalog {
  import opened Wrappers
  import opened Sequences
  import opened Records

  /** Position of the first product with this id, as products.findIndex(p => p.id === id). */
  function ProductIndex(ps: seq<Product>, id: int): (r: Option<nat>)
    ensures r.Some? ==> r.value < |ps| && ps[r.value].id == id
    ensures r.Some? ==> forall i :: 0 <= i < r.value ==> ps[i].id != id
    ensures r.None? <==> forall i :: 0 <= i < |ps| ==> ps[i].id != id
  {
    FindIndex(ps, (p: Product) => p.id == id)
  }

  /** The first product with this id, as products.find(p => p.id === id). */
  function FindProduct(ps: seq<Product>, id: int): (r: Option<Product>)
    ensures r.None? <==> forall i :: 0 <= i < |ps| ==> ps[i].id != id
    ensures r.Some? ==> r.value in ps && r.value.id == id
    ensures r.Some? ==> exists k :: 0 <= k < |ps| && r.value == ps[k] && forall i :: 0 <= i < k ==> ps[i].id != id
  {
    match ProductIndex(ps, id)
    case None => None
    case Some(k) => Some(ps[k])
  }

  /** Only the ids decide where a product is found. */
  lemma SameIdsSameIndex(a: seq<Product>, b: seq<Product>, id: int)
    requires |a| == |b|
    requires forall i :: 0 <= i < |a| ==> a[i].id == b[i].id
    ensures ProductIndex(a, id) == ProductIndex(b, id)
  {
  }

  /**
   * The query of the product listing. An empty string or None means that the
   * parameter was not given; prices are already parsed to integers.
   */
  datatype ProductQuery = ProductQuery(search: string, category: string, minPrice: Option<int>, maxPrice: Option<int>)

  /** The text search: the query occurs in the name or in the description. */
  predicate MentionsText(p: Product, text: string) {
    Contains(p.name, text) || Contains(p.description, text)
  }

  /** p meets every criterion the query supplies. */
  predicate MatchesQuery(p: Product, q: ProductQuery) {
    && (q.search != "" ==> MentionsText(p, q.search))
    && (q.category != "" ==> p.category == q.category)
    && (q.minPrice.Some? ==> p.price >= q.minPrice.value)
    && (q.maxPrice.Some? ==> p.price <= q.maxPrice.value)
  }

  /** The text filter of the listing, applied when a search text is given. */
  function BySearch(ps: seq<Product>, text: string): (r: seq<Product>)
    ensures IsSubseq(r, ps)
    ensures forall x :: x in r <==> x in ps && (text != "" ==> MentionsText(x, text))
    ensures forall x :: multiset(r)[x] == if text != "" ==> MentionsText(x, text) then multiset(ps)[x] else 0
  {
    if text == "" then SubseqReflexive(ps); ps
    else Filter(ps, (p: Product) => MentionsText(p, text))
  }

  /** The category filter, applied when a category is given. */
  function ByCategory(ps: seq<Product>, category: string): (r: seq<Product>)
    ensures IsSubseq(r, ps)
    ensures forall x :: x in r <==> x in ps && (category != "" ==> x.category == category)
    ensures forall x :: multiset(r)[x] == if category != "" ==> x.category == category then multiset(ps)[x] else 0
  {
    if category == "" then SubseqReflexive(ps); ps
    else Filter(ps, (p: Product) => p.category == category)
  }

  /** The lower price bound, applied when one is given. */
  function ByMinPrice(ps: seq<Product>, minPrice: Option<int>): (r: seq<Product>)
    ensures IsSubseq(r, ps)
    ensures forall x :: x in r <==> x in ps && (minPrice.Some? ==> x.price >= minPrice.value)
    ensures forall x :: multiset(r)[x] == if minPrice.Some? ==> x.price >= minPrice.value then multiset(ps)[x] else 0
  {
    if minPrice.None? then SubseqReflexive(ps); ps
    else var lo := minPrice.value; Filter(ps, (p: Product) => p.price >= lo)
  }

  /** The upper price bound, applied when one is given. */
  function ByMaxPrice(ps: seq<Product>, maxPrice: Option<int>): (r: seq<Product>)
    ensures IsSubseq(r, ps)
    ensures forall x :: x in r <==> x in ps && (maxPrice.Some? ==> x.price <= maxPrice.value)
    ensures forall x :: multiset(r)[x] == if maxPrice.Some? ==> x.price <= maxPrice.value then multiset(ps)[x] else 0
  {
    if maxPrice.None? then SubseqReflexive(ps); ps
    else var hi := maxPrice.value; Filter(ps, (p: Product) => p.price <= hi)
  }

  /**
   * The listing applies the four filters one after the other. The result is
   * a subsequence of the catalog, in catalog order, holding every copy of
   * each product that meets every supplied criterion and nothing else.
   */
  function FilterProducts(ps: seq<Product>, q: ProductQuery): (r: seq<Product>)
    ensures IsSubseq(r, ps)
    ensures forall x :: x in r <==> x in ps && MatchesQuery(x, q)
    ensures forall x :: multiset(r)[x] == if MatchesQuery(x, q) then multiset(ps)[x] else 0
  {
    var s1 := BySearch(ps, q.search);
    var s2 := ByCategory(s1, q.category);
    var s3 := ByMinPrice(s2, q.minPrice);
    var s4 := ByMaxPrice(s3, q.maxPrice);
    SubseqTransitive(s2, s1, ps);
    SubseqTransitive(s3, s2, ps);
    SubseqTransitive(s4, s3, ps);
    s4
  }

  /** The search endpoint: a non-empty query, matched against name, description and category. */
  predicate SearchHit(p: Product, q: string) {
    Contains(p.name, q) || Contains(p.description, q) || Contains(p.category, q)
  }

  function Search(ps: seq<Product>, q: string): (r: Result<seq<Product>, Error>)
    ensures r.Err? <==> q == ""
    ensures r.Err? ==> r.error == EmptyQuery
    ensures r.Ok? ==> IsSubseq(r.value, ps)
    ensures r.Ok? ==> forall k :: 0 <= k < |r.value| ==> SearchHit(r.value[k], q)
    ensures r.Ok? ==> forall i :: 0 <= i < |ps| && SearchHit(ps[i], q) ==> ps[i] in r.value
    ensures r.Ok? ==> forall x :: multiset(r.value)[x] == if SearchHit(x, q) then multiset(ps)[x] else 0
  {
    if q == "" then Err(EmptyQuery)
    else Ok(Filter(ps, (p: Product) => SearchHit(p, q)))
  }

  /**
   * The fields of a product sent to the add and edit operations. An empty
   * string stands for a text field that is missing or falsy. For the price,
   * None is a missing price and Some(0) a falsy one. For the stock, None
   * means that no stock was sent at all; a stock of 0 is Some(0), which an
   * edit stores like any other stock.
   */
  datatype ProductFields = ProductFields(
    name: string,
    description: string,
    price: Option<int>,
    emoji: string,
    stock: Option<int>,
    category: string)

  const DefaultEmoji: string := "🛍️"
  const DefaultCategory: string := "عام"

  predicate PriceGiven(price: Option<int>) {
    price.Some? && price.value != 0
  }

  /** The product that adding creates: the next id is the catalog's length plus one. */
  function NewProduct(ps: seq<Product>, f: ProductFields): (r: Result<Product, Error>)
    ensures r.Err? <==> f.name == "" || f.description == "" || !PriceGiven(f.price)
    ensures r.Err? ==> r.error == MissingFields
    ensures r.Ok? ==> r.value.id == |ps| + 1
    ensures r.Ok? ==> r.value.name == f.name && r.value.description == f.description
    ensures r.Ok? ==> r.value.price == f.price.value
    ensures r.Ok? ==> r.value.emoji == (if f.emoji != "" then f.emoji else DefaultEmoji)
    ensures r.Ok? ==> r.value.stock == (if f.stock.Some? then f.stock.value else 0)
    ensures r.Ok? ==> r.value.category == (if f.category != "" then f.category else DefaultCategory)
  {
    if f.name == "" || f.description == "" || !PriceGiven(f.price) then Err(MissingFields)
    else Ok(Product(
      |ps| + 1,
      f.name,
      f.description,
      f.price.value,
      if f.emoji != "" then f.emoji else DefaultEmoji,
      if f.stock.Some? then f.stock.value else 0,
      if f.category != "" then f.category else DefaultCategory))
  }

  /** The edit: each field that is given replaces the stored one; the id is kept. */
  function Merge(p: Product, f: ProductFields): (r: Product)
    ensures r.id == p.id
    ensures r.name == (if f.name != "" then f.name else p.name)
    ensures r.description == (if f.description != "" then f.description else p.description)
    ensures r.price == (if PriceGiven(f.price) then f.price.value else p.price)
    ensures r.emoji == (if f.emoji != "" then f.emoji else p.emoji)
    ensures r.stock == (if f.stock.Some? then f.stock.value else p.stock)
    ensures r.category == (if f.category != "" then f.category else p.category)
  {
    p.(
      name := if f.name != "" then f.name else p.name,
      description := if f.description != "" then f.description else p.description,
      price := if PriceGiven(f.price) then f.price.value else p.price,
      emoji := if f.emoji != "" then f.emoji else p.emoji,
      stock := if f.stock.Some? then f.stock.value else p.stock,
      category := if f.category != "" then f.category else p.category)
  }

  /** Editing twice with the same fields is editing once; editing with nothing changes nothing. */
  lemma MergeIdempotent(p: Product, f: ProductFields)
    ensures Merge(Merge(p, f), f) == Merge(p, f)
    ensures Merge(p, ProductFields("", "", None, "", None, "")) == p
  {
  }

  /** The catalog after splice(k, 1). */
  function RemoveAt(ps: seq<Product>, k: nat): (r: seq<Product>)
    requires k < |ps|
    ensures |r| == |ps| - 1
    ensures forall i :: 0 <= i < k ==> r[i] == ps[i]
    ensures forall i :: k <= i < |r| ==> r[i] == ps[i + 1]
    ensures multiset(r) + multiset{ps[k]} == multiset(ps)
  {
    assert ps == ps[..k] + [ps[k]] + ps[k + 1..];
    ps[..k] + ps[k + 1..]
  }

  /** The ids are 1, 2, ..., n in order, as in the seed catalog. */
  predicate IdsSequential(ps: seq<Product>) {
    forall i :: 0 <= i < |ps| ==> ps[i].id == i + 1
  }

  predicate DistinctIds(ps: seq<Product>) {
    forall i, j :: 0 <= i < j < |ps| ==> ps[i].id != ps[j].id
  }

  /** While nothing has been deleted, adding keeps the ids 1..n and so distinct. */
  lemma AddKeepsIdsSequential(ps: seq<Product>, f: ProductFields)
    requires IdsSequential(ps)
    requires NewProduct(ps, f).Ok?
    ensures IdsSequential(ps + [NewProduct(ps, f).value])
    ensures DistinctIds(ps + [NewProduct(ps, f).value])
  {
  }

  /**
   * After deleting any product but the last from a catalog with ids 1..n,
   * the next product added gets id n, which the last product already has.
   */
  lemma AddAfterDeleteReusesId(ps: seq<Product>, k: nat, f: ProductFields)
    requires IdsSequential(ps)
    requires k < |ps| - 1
    requires NewProduct(RemoveAt(ps, k), f).Ok?
    ensures NewProduct(RemoveAt(ps, k), f).value.id == ps[|ps| - 1].id
    ensures ps[|ps| - 1] in RemoveAt(ps, k)
    ensures !DistinctIds(RemoveAt(ps, k) + [NewProduct(RemoveAt(ps, k), f).value])
  {
    var rest := RemoveAt(ps, k);
    var added := rest + [NewProduct(rest, f).value];
    assert rest[|rest| - 1] == ps[|ps| - 1];
    assert added[|rest| - 1].id == added[|rest|].id;
  }

  /** The seed catalog holds ids 1 to 6, in that order. */
  lemma SeedIds()
    ensures |SeedCatalog()| == 6
    ensures forall i :: 0 <= i < |SeedCatalog()| ==> SeedCatalog()[i].id == i + 1
  {
  }

  /** Looking up an id in the seed catalog: ids 1 to 6 are found at index id - 1, any other id is missing. */
  lemma SeedLookup(id: int)
    ensures 1 <= id <= 6 ==> ProductIndex(SeedCatalog(), id) == Some(id - 1)
    ensures 1 <= id <= 6 ==> FindProduct(SeedCatalog(), id) == Some(SeedCatalog()[id - 1])
    ensures !(1 <= id <= 6) ==> FindProduct(SeedCatalog(), id) == None
  {
    SeedIds();
  }
}
