/**
 * Order placement as specification functions: the validation pass over the
 * requested lines (which builds the stored lines and their total) and the
 * stock decrements that follow it, with what they guarantee and where they
 * fall short.
 */
module Placement {
  import opened Wrappers
  import opened Records
  import opened Catalog

  /** The stored line for a request: the product's current name and price, and the line total. */
  function LineFor(p: Product, it: LineRequest): OrderLine {
    OrderLine(p.id, p.name, p.price, it.quantity, p.price * it.quantity)
  }

  /**
   * The checks one requested line goes through: the product must exist, and
   * then its stock must cover the quantity. A line that passes becomes the
   * product's id, name and price with the requested quantity and total
   * price * quantity.
   */
  function CheckLine(ps: seq<Product>, it: LineRequest): (r: Result<OrderLine, Error>)
    ensures r.Ok? <==> LineAvailable(ps, it)
    ensures r.Ok? ==> r.value == LineFor(FindProduct(ps, it.id).value, it)
    ensures FindProduct(ps, it.id).None? ==> r == Err(LineProductNotFound(it.id))
    ensures FindProduct(ps, it.id).Some? && !LineAvailable(ps, it) ==>
      r == Err(InsufficientStock(FindProduct(ps, it.id).value.name, FindProduct(ps, it.id).value.stock))
  {
    match FindProduct(ps, it.id)
    case None => Err(LineProductNotFound(it.id))
    case Some(p) =>
      if p.stock < it.quantity then Err(InsufficientStock(p.name, p.stock))
      else Ok(LineFor(p, it))
  }

  /**
   * The validation pass, line by line in request order, against the catalog
   * as it stands before the order: the stored lines, or the error of the
   * first line that fails.
   */
  function ValidateLines(ps: seq<Product>, items: seq<LineRequest>): (r: Result<seq<OrderLine>, Error>)
    ensures r.Ok? ==> |r.value| == |items|
    ensures r.Err? ==> exists k :: 0 <= k < |items| && CheckLine(ps, items[k]) == Err(r.error)
    decreases |items|
  {
    if items == [] then Ok([])
    else match ValidateLines(ps, items[..|items| - 1])
      case Err(e) =>
        assert forall k :: 0 <= k < |items| - 1 ==> items[..|items| - 1][k] == items[k];
        Err(e)
      case Ok(lines) =>
        match CheckLine(ps, items[|items| - 1])
        case Err(e) => Err(e)
        case Ok(l) => Ok(lines + [l])
  }

  /** The line names a product of the catalog whose stock is at least the quantity. */
  predicate LineAvailable(ps: seq<Product>, it: LineRequest) {
    FindProduct(ps, it.id).Some? && FindProduct(ps, it.id).value.stock >= it.quantity
  }

  /** Is every requested line acceptable on its own against the catalog? */
  predicate AllLinesAvailable(ps: seq<Product>, items: seq<LineRequest>) {
    forall k :: 0 <= k < |items| ==> LineAvailable(ps, items[k])
  }

  /**
   * Validation passes exactly when every line names an existing product with
   * stock at least the quantity.
   */
  lemma {:induction false} ValidateLinesOk(ps: seq<Product>, items: seq<LineRequest>)
    ensures ValidateLines(ps, items).Ok? <==> AllLinesAvailable(ps, items)
    decreases |items|
  {
    if items != [] {
      var pre, it := items[..|items| - 1], items[|items| - 1];
      ValidateLinesOk(ps, pre);
      assert forall k :: 0 <= k < |pre| ==> pre[k] == items[k];
      if ValidateLines(ps, pre).Err? {
        var k :| 0 <= k < |pre| && !LineAvailable(ps, pre[k]);
        assert items[k] == pre[k];
      } else if CheckLine(ps, it).Err? {
        assert !LineAvailable(ps, items[|items| - 1]);
      } else {
        forall k | 0 <= k < |items| ensures LineAvailable(ps, items[k]) {
          if k < |pre| { assert items[k] == pre[k]; }
        }
      }
    }
  }

  /**
   * After a passed validation the k-th stored line copies the id, name and
   * price of the product the k-th request names, keeps the requested
   * quantity and has total price * quantity.
   */
  lemma {:induction false} ValidatedLines(ps: seq<Product>, items: seq<LineRequest>)
    requires ValidateLines(ps, items).Ok?
    ensures AllLinesAvailable(ps, items)
    ensures |ValidateLines(ps, items).value| == |items|
    ensures forall k :: 0 <= k < |items| ==>
      ValidateLines(ps, items).value[k] == LineFor(FindProduct(ps, items[k].id).value, items[k])
    decreases |items|
  {
    if items != [] {
      var pre, it := items[..|items| - 1], items[|items| - 1];
      var lines, l := ValidateLines(ps, pre).value, CheckLine(ps, it).value;
      assert ValidateLines(ps, items).value == lines + [l];
      ValidatedLines(ps, pre);
      forall k | 0 <= k < |items|
        ensures ValidateLines(ps, items).value[k] == LineFor(FindProduct(ps, items[k].id).value, items[k])
      {
        if k < |pre| {
          assert items[k] == pre[k];
          assert (lines + [l])[k] == lines[k];
        } else {
          assert items[k] == it;
        }
      }
    }
    ValidateLinesOk(ps, items);
  }

  /** Every line of a placed order totals its price times its quantity. */
  lemma PlacedLinesPriced(ps: seq<Product>, items: seq<LineRequest>)
    requires ValidateLines(ps, items).Ok?
    ensures forall l :: l in ValidateLines(ps, items).value ==> l.total == l.price * l.quantity
  {
    ValidatedLines(ps, items);
  }

  /** A failed validation reports the error of the first line that fails its checks. */
  lemma {:induction false} ValidateLinesErr(ps: seq<Product>, items: seq<LineRequest>)
    requires ValidateLines(ps, items).Err?
    ensures exists k :: 0 <= k < |items| && CheckLine(ps, items[k]) == Err(ValidateLines(ps, items).error) &&
                        forall j :: 0 <= j < k ==> CheckLine(ps, items[j]).Ok?
    decreases |items|
  {
    var pre := items[..|items| - 1];
    assert forall k :: 0 <= k < |pre| ==> pre[k] == items[k];
    if ValidateLines(ps, pre).Err? {
      ValidateLinesErr(ps, pre);
    } else {
      ValidateLinesOk(ps, pre);
      assert forall j :: 0 <= j < |pre| ==> CheckLine(ps, items[j]).Ok?;
    }
  }

  /** Once a prefix of the request fails, the whole request fails with the same error. */
  lemma {:induction false} ValidatePrefixErr(ps: seq<Product>, items: seq<LineRequest>, i: nat)
    requires i <= |items|
    requires ValidateLines(ps, items[..i]).Err?
    ensures ValidateLines(ps, items) == ValidateLines(ps, items[..i])
    decreases |items|
  {
    if i == |items| {
      assert items[..i] == items;
    } else {
      var pre := items[..|items| - 1];
      assert pre[..i] == items[..i];
      ValidatePrefixErr(ps, pre, i);
    }
  }

  /** The sum of the line totals. */
  function LineSum(lines: seq<OrderLine>): int
    decreases |lines|
  {
    if lines == [] then 0 else LineSum(lines[..|lines| - 1]) + lines[|lines| - 1].total
  }

  /** The sum of the quantities requested for one product id. */
  function QtyFor(items: seq<LineRequest>, id: int): int
    decreases |items|
  {
    if items == [] then 0
    else QtyFor(items[..|items| - 1], id) + (if items[|items| - 1].id == id then items[|items| - 1].quantity else 0)
  }

  /** One step of the decrement pass: the first product with the line's id loses the line's quantity. */
  function Decrement(ps: seq<Product>, it: LineRequest): (r: seq<Product>)
    ensures |r| == |ps|
  {
    match ProductIndex(ps, it.id)
    case None => ps
    case Some(k) => ps[k := ps[k].(stock := ps[k].stock - it.quantity)]
  }

  /** The decrement pass over all lines, in request order. */
  function ApplyDecrements(ps: seq<Product>, items: seq<LineRequest>): (r: seq<Product>)
    ensures |r| == |ps|
    decreases |items|
  {
    if items == [] then ps
    else Decrement(ApplyDecrements(ps, items[..|items| - 1]), items[|items| - 1])
  }

  /** Product j is the first one carrying its id, the one lookups by id find. */
  predicate FirstWithId(ps: seq<Product>, j: nat)
    requires j < |ps|
  {
    ProductIndex(ps, ps[j].id) == Some(j)
  }

  /**
   * The decrement pass lowers the stock of the first product with each id by
   * the sum of the quantities requested for that id, and changes nothing
   * else: not the order of the catalog, not any other field, not any other
   * product.
   */
  lemma {:induction false} DecrementsEffect(ps: seq<Product>, items: seq<LineRequest>)
    ensures forall j :: 0 <= j < |ps| ==>
      ApplyDecrements(ps, items)[j] ==
        if FirstWithId(ps, j) then ps[j].(stock := ps[j].stock - QtyFor(items, ps[j].id)) else ps[j]
    decreases |items|
  {
    if items != [] {
      var pre, it := items[..|items| - 1], items[|items| - 1];
      DecrementsEffect(ps, pre);
      var mid := ApplyDecrements(ps, pre);
      SameIdsSameIndex(mid, ps, it.id);
      forall j | 0 <= j < |ps|
        ensures ApplyDecrements(ps, items)[j] ==
          if FirstWithId(ps, j) then ps[j].(stock := ps[j].stock - QtyFor(items, ps[j].id)) else ps[j]
      {
        if FirstWithId(ps, j) && ps[j].id == it.id {
          assert ProductIndex(mid, it.id) == Some(j);
        }
      }
    }
  }

  /** The decrement pass over one more line is one more decrement step. */
  lemma DecrementsStep(ps: seq<Product>, items: seq<LineRequest>, i: nat)
    requires i < |items|
    ensures ApplyDecrements(ps, items[..i + 1]) == Decrement(ApplyDecrements(ps, items[..i]), items[i])
  {
    assert items[..i + 1][..i] == items[..i];
  }

  /**
   * After validation every line still finds its product when its turn in the
   * decrement pass comes: decrements change stock only, never ids.
   */
  lemma DecrementFindsProduct(ps: seq<Product>, items: seq<LineRequest>, i: nat)
    requires AllLinesAvailable(ps, items)
    requires i < |items|
    ensures ProductIndex(ApplyDecrements(ps, items[..i]), items[i].id).Some?
  {
    DecrementsEffect(ps, items[..i]);
    SameIdsSameIndex(ApplyDecrements(ps, items[..i]), ps, items[i].id);
    assert LineAvailable(ps, items[i]);
  }

  /** With pairwise distinct ids, the quantity requested for an id is that of its one line. */
  lemma {:induction false} QtyForDistinct(items: seq<LineRequest>, id: int)
    requires forall i, j :: 0 <= i < j < |items| ==> items[i].id != items[j].id
    ensures (forall k :: 0 <= k < |items| ==> items[k].id != id) ==> QtyFor(items, id) == 0
    ensures forall k :: 0 <= k < |items| && items[k].id == id ==> QtyFor(items, id) == items[k].quantity
    decreases |items|
  {
    if items != [] {
      var pre := items[..|items| - 1];
      assert forall k :: 0 <= k < |pre| ==> pre[k] == items[k];
      QtyForDistinct(pre, id);
    }
  }

  /**
   * Stock cannot go negative through an order whose lines name pairwise
   * distinct products: each product then loses at most what validation saw
   * available.
   */
  lemma NoOversellWithDistinctIds(ps: seq<Product>, items: seq<LineRequest>)
    requires ValidateLines(ps, items).Ok?
    requires forall i, j :: 0 <= i < j < |items| ==> items[i].id != items[j].id
    requires forall j :: 0 <= j < |ps| ==> ps[j].stock >= 0
    ensures forall j :: 0 <= j < |ApplyDecrements(ps, items)| ==> ApplyDecrements(ps, items)[j].stock >= 0
  {
    ValidateLinesOk(ps, items);
    ValidatedLines(ps, items);
    DecrementsEffect(ps, items);
    forall j | 0 <= j < |ps| && FirstWithId(ps, j)
      ensures ps[j].stock - QtyFor(items, ps[j].id) >= 0
    {
      QtyForDistinct(items, ps[j].id);
      if k :| 0 <= k < |items| && items[k].id == ps[j].id {
        assert FindProduct(ps, items[k].id) == Some(ps[j]);
      }
    }
  }

  /** A request of one line passes or fails as that line's checks do and decrements once. */
  lemma SingleLine(ps: seq<Product>, it: LineRequest)
    ensures CheckLine(ps, it).Ok? ==> ValidateLines(ps, [it]) == Ok([CheckLine(ps, it).value])
    ensures CheckLine(ps, it).Err? ==> ValidateLines(ps, [it]) == Err(CheckLine(ps, it).error)
    ensures ApplyDecrements(ps, [it]) == Decrement(ps, it)
  {
    assert [it][..0] == [];
    assert ValidateLines(ps, []) == Ok([]);
    if CheckLine(ps, it).Ok? {
      assert [] + [CheckLine(ps, it).value] == [CheckLine(ps, it).value];
    }
  }

  /**
   * Two copies of an available line are both checked against the untouched
   * stock: both pass, and the product loses twice the quantity.
   */
  lemma RepeatedLine(ps: seq<Product>, it: LineRequest)
    requires LineAvailable(ps, it)
    ensures ValidateLines(ps, [it, it]) == Ok([CheckLine(ps, it).value, CheckLine(ps, it).value])
    ensures ProductIndex(ps, it.id).Some?
    ensures ApplyDecrements(ps, [it, it])[ProductIndex(ps, it.id).value].stock ==
            ps[ProductIndex(ps, it.id).value].stock - 2 * it.quantity
  {
    SingleLine(ps, it);
    var l := CheckLine(ps, it).value;
    assert [it, it][..1] == [it] && [l] + [l] == [l, l];
    var k := ProductIndex(ps, it.id).value;
    var mid := Decrement(ps, it);
    assert ApplyDecrements(ps, [it, it]) == Decrement(mid, it);
    SameIdsSameIndex(mid, ps, it.id);
  }

  /**
   * Two lines for the same product are each checked against the untouched
   * stock, so together they can take more than there is: 30 and 30 of the
   * 50 headphones in the seed catalog pass validation and leave stock -10.
   */
  lemma OversellWithRepeatedId()
    ensures ValidateLines(SeedCatalog(), [LineRequest(3, 30), LineRequest(3, 30)]).Ok?
    ensures ApplyDecrements(SeedCatalog(), [LineRequest(3, 30), LineRequest(3, 30)])[2].stock == -10
  {
    SeedLookup(3);
    RepeatedLine(SeedCatalog(), LineRequest(3, 30));
  }

  /**
   * The quantity's sign is never checked: a line of -5 televisions passes
   * validation (stock 5 is not below -5), is stored with a negative total and
   * raises the stock to 10.
   */
  lemma NegativeQuantityAccepted()
    ensures ValidateLines(SeedCatalog(), [LineRequest(6, -5)]).Ok?
    ensures LineSum(ValidateLines(SeedCatalog(), [LineRequest(6, -5)]).value) == -14000
    ensures ApplyDecrements(SeedCatalog(), [LineRequest(6, -5)])[5].stock == 10
  {
    var ps, it := SeedCatalog(), LineRequest(6, -5);
    SeedLookup(6);
    SingleLine(ps, it);
    assert CheckLine(ps, it) == Ok(OrderLine(6, "تلفزيون ذكي", 2800, -5, -14000));
  }

  /** Two headphones from the seed catalog: one line of 500, a total of 500, and 48 left in stock. */
  lemma TwoHeadphonesScenario()
    ensures ValidateLines(SeedCatalog(), [LineRequest(3, 2)]) == Ok([OrderLine(3, "سماعات لاسلكية", 250, 2, 500)])
    ensures LineSum([OrderLine(3, "سماعات لاسلكية", 250, 2, 500)]) == 500
    ensures ApplyDecrements(SeedCatalog(), [LineRequest(3, 2)])[2].stock == 48
  {
    var ps, it := SeedCatalog(), LineRequest(3, 2);
    SeedLookup(3);
    SingleLine(ps, it);
    assert CheckLine(ps, it) == Ok(OrderLine(3, "سماعات لاسلكية", 250, 2, 500));
  }

  /** 51 headphones when 50 are in stock, or an unknown product: validation fails with that line's error. */
  lemma FailingScenarios()
    ensures ValidateLines(SeedCatalog(), [LineRequest(3, 51)]) == Err(InsufficientStock("سماعات لاسلكية", 50))
    ensures ValidateLines(SeedCatalog(), [LineRequest(999, 1)]) == Err(LineProductNotFound(999))
  {
    var ps := SeedCatalog();
    SeedLookup(3);
    SeedLookup(999);
    SingleLine(ps, LineRequest(3, 51));
    SingleLine(ps, LineRequest(999, 1));
  }
}
