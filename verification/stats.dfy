/**
 * The store statistics: revenue, the counts of orders per status and of
 * products per category, and the products running low.
 */
module Stats {
  import opened Sequences
  import opened Records

  /** One property of a count object the statistics build: a key and how often it was seen. */
  datatype Tally = Tally(key: string, count: nat)

  /** The keys of a count object, in the order JavaScript enumerates them. */
  function Keys(t: seq<Tally>): (r: seq<string>)
    ensures |r| == |t| && forall i :: 0 <= i < |t| ==> r[i] == t[i].key
  {
    seq(|t|, i requires 0 <= i < |t| => t[i].key)
  }

  /** `counts[key] = (counts[key] || 0) + 1`: an existing key is incremented in place, a new one goes last with 1. */
  function Bump(t: seq<Tally>, key: string): seq<Tally>
    decreases |t|
  {
    if t == [] then [Tally(key, 1)]
    else if t[0].key == key then [t[0].(count := t[0].count + 1)] + t[1..]
    else [t[0]] + Bump(t[1..], key)
  }

  /**
   * The reduce that counts how often each key occurs, keys in order of first
   * occurrence: the counts sum to the number of keys counted, each key's
   * count is its number of occurrences, and each key appears once.
   */
  function CountBy(keys: seq<string>): (r: seq<Tally>)
    ensures CountTotal(r) == |keys|
    ensures forall k :: Lookup(r, k) == Occurrences(keys, k)
    ensures NoDuplicates(Keys(r))
    ensures forall k :: k in Keys(r) <==> k in keys
    decreases |keys|
  {
    if keys == [] then []
    else
      var pre, last := keys[..|keys| - 1], keys[|keys| - 1];
      var t := CountBy(pre);
      BumpTotal(t, last);
      BumpLookup(t, last);
      BumpKeys(t, last);
      assert keys == pre + [last];
      Bump(t, last)
  }

  /** `counts[key] || 0`: the count stored under key, 0 when the key is absent. */
  function Lookup(t: seq<Tally>, key: string): nat
    decreases |t|
  {
    if t == [] then 0 else if t[0].key == key then t[0].count else Lookup(t[1..], key)
  }

  /** The sum of all counts of a count object. */
  function CountTotal(t: seq<Tally>): nat
    decreases |t|
  {
    if t == [] then 0 else t[0].count + CountTotal(t[1..])
  }

  /** How many times key occurs in keys. */
  function Occurrences(keys: seq<string>, key: string): nat
    decreases |keys|
  {
    if keys == [] then 0
    else Occurrences(keys[..|keys| - 1], key) + (if keys[|keys| - 1] == key then 1 else 0)
  }

  predicate NoDuplicates(s: seq<string>) {
    forall i, j :: 0 <= i < j < |s| ==> s[i] != s[j]
  }

  /** One increment adds one to the total. */
  lemma {:induction false} BumpTotal(t: seq<Tally>, key: string)
    ensures CountTotal(Bump(t, key)) == CountTotal(t) + 1
    decreases |t|
  {
    if t != [] && t[0].key != key {
      BumpTotal(t[1..], key);
    }
  }

  /** One increment adds one to the count of its key and to no other count. */
  lemma {:induction false} BumpLookup(t: seq<Tally>, key: string)
    ensures forall k :: Lookup(Bump(t, key), k) == Lookup(t, k) + (if k == key then 1 else 0)
    decreases |t|
  {
    if t != [] && t[0].key != key {
      BumpLookup(t[1..], key);
    }
  }

  /** One increment adds its key at the end when it was not there yet, and otherwise keeps the keys. */
  lemma {:induction false} BumpKeys(t: seq<Tally>, key: string)
    ensures Keys(Bump(t, key)) == if key in Keys(t) then Keys(t) else Keys(t) + [key]
    decreases |t|
  {
    if t != [] && t[0].key != key {
      BumpKeys(t[1..], key);
      assert Keys(t) == [t[0].key] + Keys(t[1..]);
      assert Keys(Bump(t, key)) == [t[0].key] + Keys(Bump(t[1..], key));
    } else if t != [] {
      assert Keys(Bump(t, key)) == Keys(t);
    }
  }

  function Statuses(os: seq<Order>): (r: seq<string>)
    ensures |r| == |os| && forall i :: 0 <= i < |os| ==> r[i] == os[i].status
  {
    seq(|os|, i requires 0 <= i < |os| => os[i].status)
  }

  function Categories(ps: seq<Product>): (r: seq<string>)
    ensures |r| == |ps| && forall i :: 0 <= i < |ps| ==> r[i] == ps[i].category
  {
    seq(|ps|, i requires 0 <= i < |ps| => ps[i].category)
  }

  /**
   * The sum of the orders' total amounts, whatever their status: cancelled
   * orders count too. It is never negative while no order total is.
   */
  function Revenue(os: seq<Order>): (r: int)
    ensures (forall i :: 0 <= i < |os| ==> os[i].totalAmount >= 0) ==> r >= 0
    ensures |os| == 1 ==> r == os[0].totalAmount
    decreases |os|
  {
    if os == [] then 0 else Revenue(os[..|os| - 1]) + os[|os| - 1].totalAmount
  }

  /** Placing an order raises the revenue by exactly its total; a status change leaves it as it was. */
  lemma RevenueAfterChange(os: seq<Order>, o: Order, k: nat, o': Order)
    requires k < |os| && o'.totalAmount == os[k].totalAmount
    ensures Revenue(os + [o]) == Revenue(os) + o.totalAmount
    ensures Revenue(os[k := o']) == Revenue(os)
  {
    assert (os + [o])[..|os|] == os;
    RevenueReplace(os, k, o');
  }

  lemma {:induction false} RevenueReplace(os: seq<Order>, k: nat, o': Order)
    requires k < |os| && o'.totalAmount == os[k].totalAmount
    ensures Revenue(os[k := o']) == Revenue(os)
    decreases |os|
  {
    var n := |os| - 1;
    if k < n {
      assert os[k := o'][..n] == os[..n][k := o'];
      RevenueReplace(os[..n], k, o');
    } else {
      assert os[k := o'][..n] == os[..n];
    }
  }

  /** Products with fewer than this many units in stock are reported as running low. */
  const LowStockLimit: int := 5

  function LowStock(ps: seq<Product>): (r: seq<Product>)
    ensures IsSubseq(r, ps)
    ensures forall x :: x in r <==> x in ps && x.stock < LowStockLimit
    ensures forall x :: multiset(r)[x] == if x.stock < LowStockLimit then multiset(ps)[x] else 0
  {
    Filter(ps, (p: Product) => p.stock < LowStockLimit)
  }

  datatype StoreStats = StoreStats(
    totalProducts: nat,
    totalOrders: nat,
    totalRevenue: int,
    ordersByStatus: seq<Tally>,
    productsByCategory: seq<Tally>,
    lowStockProducts: seq<Product>)

  /** The statistics of a catalog and a ledger. */
  function ComputeStats(ps: seq<Product>, os: seq<Order>): (s: StoreStats)
    ensures s.totalProducts == |ps| && s.totalOrders == |os| && s.totalRevenue == Revenue(os)
    ensures CountTotal(s.ordersByStatus) == |os|
    ensures CountTotal(s.productsByCategory) == |ps|
    ensures forall st :: Lookup(s.ordersByStatus, st) == Occurrences(Statuses(os), st)
    ensures forall c :: Lookup(s.productsByCategory, c) == Occurrences(Categories(ps), c)
    ensures forall p :: p in s.lowStockProducts <==> p in ps && p.stock < LowStockLimit
    ensures forall p :: multiset(s.lowStockProducts)[p] == if p.stock < LowStockLimit then multiset(ps)[p] else 0
  {
    StoreStats(|ps|, |os|, Revenue(os), CountBy(Statuses(os)), CountBy(Categories(ps)), LowStock(ps))
  }
}
