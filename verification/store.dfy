/**
 * The server's in-memory state and the handlers that change it, without the
 * HTTP layer: each handler is a method that returns a Result in place of a
 * status code and a JSON envelope.
 */
module StoreState {
  import opened Wrappers
  import opened Records
  import opened Catalog
  import opened Placement
  import opened Ledger
  import opened Stats

  /** The catalog, the order ledger and the next order id. */
  class Store {
    var products: seq<Product>
    var orders: seq<Order>
    var orderIdCounter: int

    /**
     * Order ids strictly increase along the ledger and all lie below the
     * counter, so the counter never hands out an id in use; every stored order
     * is well formed.
     */
    ghost predicate Valid()
      reads this
    {
      LedgerValid(orders, orderIdCounter)
    }

    /** The state at start-up: the seed catalog, no orders, next order id 1. */
    constructor ()
      ensures Valid()
      ensures products == SeedCatalog() && orders == [] && orderIdCounter == 1
    {
      products := SeedCatalog();
      orders := [];
      orderIdCounter := 1;
    }

    /**
     * Placing an order. Every line is validated before any stock changes, so
     * a refused order leaves the whole state as it was. An accepted one
     * lowers stock as ApplyDecrements says, takes the counter's id, and is
     * appended to the ledger as a pending order.
     */
    method PlaceOrder(items: seq<LineRequest>, customerInfo: Option<CustomerInfo>, now: Timestamp)
      returns (r: Result<Order, Error>)
      requires Valid()
      modifies this
      ensures Valid()
      ensures r.Err? ==> unchanged(this)
      ensures items == [] ==> r == Err(EmptyOrder)
      ensures items != [] && ValidateLines(old(products), items).Err? ==>
        r == Err(ValidateLines(old(products), items).error)
      ensures items != [] && ValidateLines(old(products), items).Ok? ==>
        var lines := ValidateLines(old(products), items).value;
        && r == Ok(Order(old(orderIdCounter), lines, LineSum(lines),
                         if customerInfo.Some? then customerInfo.value else map[], Pending, now, now))
        && products == ApplyDecrements(old(products), items)
        && orders == old(orders) + [r.value]
        && orderIdCounter == old(orderIdCounter) + 1
    {
      if |items| == 0 {
        return Err(EmptyOrder);
      }
      var checked, totalAmount := CheckItems(items);
      if checked.Err? {
        return Err(checked.error);
      }
      ValidateLinesOk(products, items);
      PlacedLinesPriced(products, items);
      DecrementStock(items);
      var order := RecordOrder(checked.value, totalAmount,
                               if customerInfo.Some? then customerInfo.value else map[], now);
      r := Ok(order);
    }

    /**
     * The second half of a placement: the order takes the counter's id and
     * is appended to the ledger as pending, created and updated at now.
     */
    method RecordOrder(lines: seq<OrderLine>, totalAmount: int, customerInfo: CustomerInfo, now: Timestamp)
      returns (order: Order)
      requires Valid()
      requires totalAmount == LineSum(lines)
      requires forall l :: l in lines ==> l.total == l.price * l.quantity
      modifies this`orders, this`orderIdCounter
      ensures Valid()
      ensures order == Order(old(orderIdCounter), lines, totalAmount, customerInfo, Pending, now, now)
      ensures orders == old(orders) + [order]
      ensures orderIdCounter == old(orderIdCounter) + 1
    {
      order := Order(orderIdCounter, lines, totalAmount, customerInfo, Pending, now, now);
      AppendKeepsLedgerValid(orders, orderIdCounter, order);
      orderIdCounter := orderIdCounter + 1;
      orders := orders + [order];
    }

    /**
     * The validation pass of placing an order: each line in turn must name a
     * product whose stock covers the quantity; it builds the stored lines and
     * their total, and changes nothing.
     */
    method CheckItems(items: seq<LineRequest>) returns (r: Result<seq<OrderLine>, Error>, totalAmount: int)
      ensures r == ValidateLines(products, items)
      ensures r.Ok? ==> totalAmount == LineSum(r.value)
    {
      totalAmount := 0;
      var lines: seq<OrderLine> := [];
      var i := 0;
      while i < |items|
        invariant 0 <= i <= |items|
        invariant ValidateLines(products, items[..i]) == Ok(lines)
        invariant totalAmount == LineSum(lines)
      {
        var it := items[i];
        assert items[..i + 1][..i] == items[..i];
        var found := FindProduct(products, it.id);
        if found.None? {
          ValidatePrefixErr(products, items, i + 1);
          return Err(LineProductNotFound(it.id)), totalAmount;
        }
        var p := found.value;
        if p.stock < it.quantity {
          ValidatePrefixErr(products, items, i + 1);
          return Err(InsufficientStock(p.name, p.stock)), totalAmount;
        }
        var itemTotal := p.price * it.quantity;
        totalAmount := totalAmount + itemTotal;
        assert (lines + [OrderLine(p.id, p.name, p.price, it.quantity, itemTotal)])[..|lines|] == lines;
        lines := lines + [OrderLine(p.id, p.name, p.price, it.quantity, itemTotal)];
        i := i + 1;
      }
      assert items[..i] == items;
      r := Ok(lines);
    }

    /**
     * The decrement pass of placing an order, run only once every line has
     * passed: each line lowers the stock of the first product with its id.
     */
    method DecrementStock(items: seq<LineRequest>)
      requires AllLinesAvailable(products, items)
      modifies this`products
      ensures products == ApplyDecrements(old(products), items)
    {
      var i := 0;
      while i < |items|
        invariant 0 <= i <= |items|
        invariant products == ApplyDecrements(old(products), items[..i])
      {
        var it := items[i];
        DecrementsStep(old(products), items, i);
        DecrementFindsProduct(old(products), items, i);
        var k := ProductIndex(products, it.id);
        products := products[k.value := products[k.value].(stock := products[k.value].stock - it.quantity)];
        i := i + 1;
      }
      assert items[..i] == items;
    }

    /**
     * Changing an order's status: an unknown order id, then a status outside
     * the five valid ones, refuse the change and leave the state as it was;
     * otherwise only that order's status and update time change.
     */
    method UpdateOrderStatus(orderId: int, status: string, now: Timestamp) returns (r: Result<Order, Error>)
      requires Valid()
      modifies this`orders
      ensures Valid()
      ensures r.Err? ==> orders == old(orders)
      ensures OrderIndex(old(orders), orderId).None? ==> r == Err(OrderNotFound)
      ensures OrderIndex(old(orders), orderId).Some? && status !in ValidStatuses ==> r == Err(InvalidStatus)
      ensures OrderIndex(old(orders), orderId).Some? && status in ValidStatuses ==>
        var k := OrderIndex(old(orders), orderId).value;
        && r == Ok(WithStatus(old(orders)[k], status, now))
        && orders == old(orders)[k := r.value]
    {
      var k := OrderIndex(orders, orderId);
      if k.None? {
        return Err(OrderNotFound);
      }
      if status !in ValidStatuses {
        return Err(InvalidStatus);
      }
      var updated := WithStatus(orders[k.value], status, now);
      StatusChangeKeepsLedgerValid(orders, orderIdCounter, k.value, status, now);
      orders := orders[k.value := updated];
      r := Ok(updated);
    }

    /** Adding a product: refused without name, description or price, otherwise appended with the next id. */
    method AddProduct(f: ProductFields) returns (r: Result<Product, Error>)
      requires Valid()
      modifies this`products
      ensures Valid()
      ensures r == NewProduct(old(products), f)
      ensures products == if r.Ok? then old(products) + [r.value] else old(products)
    {
      r := NewProduct(products, f);
      if r.Ok? {
        products := products + [r.value];
      }
    }

    /** Editing a product: the first product with the id takes the given fields; an unknown id changes nothing. */
    method UpdateProduct(id: int, f: ProductFields) returns (r: Result<Product, Error>)
      requires Valid()
      modifies this`products
      ensures Valid()
      ensures ProductIndex(old(products), id).None? ==> r == Err(ProductNotFound) && products == old(products)
      ensures ProductIndex(old(products), id).Some? ==>
        var k := ProductIndex(old(products), id).value;
        && r == Ok(Merge(old(products)[k], f))
        && products == old(products)[k := r.value]
    {
      var k := ProductIndex(products, id);
      if k.None? {
        return Err(ProductNotFound);
      }
      var merged := Merge(products[k.value], f);
      products := products[k.value := merged];
      r := Ok(merged);
    }

    /**
     * Deleting a product: the first product with the id is spliced out; an
     * unknown id changes nothing. The server's success response carries no
     * product; the removed product is returned for the caller's convenience.
     */
    method DeleteProduct(id: int) returns (r: Result<Product, Error>)
      requires Valid()
      modifies this`products
      ensures Valid()
      ensures ProductIndex(old(products), id).None? ==> r == Err(ProductNotFound) && products == old(products)
      ensures ProductIndex(old(products), id).Some? ==>
        var k := ProductIndex(old(products), id).value;
        && r == Ok(old(products)[k])
        && products == RemoveAt(old(products), k)
    {
      var k := ProductIndex(products, id);
      if k.None? {
        return Err(ProductNotFound);
      }
      r := Ok(products[k.value]);
      products := RemoveAt(products, k.value);
    }

    /** The statistics of the current state. */
    function Statistics(): (s: StoreStats)
      reads this
      ensures CountTotal(s.ordersByStatus) == |orders| && CountTotal(s.productsByCategory) == |products|
      ensures s.totalRevenue == Revenue(orders)
    {
      ComputeStats(products, orders)
    }
  }

  /**
   * A client of a freshly started store: 51 headphones, with 50 in stock,
   * are refused as insufficient stock, and then an order for product 999 is
   * refused as not found; neither changes the catalog or the ledger.
   */
  method RefusedPlacements(now: Timestamp) {
    var store := new Store();
    FailingScenarios();

    var tooMany := store.PlaceOrder([LineRequest(3, 51)], None, now);
    assert tooMany == Err(InsufficientStock("سماعات لاسلكية", 50));
    assert store.products == SeedCatalog() && store.orders == [];

    var unknown := store.PlaceOrder([LineRequest(999, 1)], None, now);
    assert unknown == Err(LineProductNotFound(999));
    assert store.products == SeedCatalog() && store.orders == [];
  }

  /**
   * A client of a freshly started store: 2 headphones become order 1,
   * pending, with total 500, leave 48 headphones in stock and move the
   * counter to 2.
   */
  method AcceptedPlacement(now: Timestamp) {
    var store := new Store();
    TwoHeadphonesScenario();

    var placed := store.PlaceOrder([LineRequest(3, 2)], None, now);
    assert placed.Ok? && placed.value.id == 1 && placed.value.totalAmount == 500 && placed.value.status == Pending;
    assert store.products[2].stock == 48 && |store.orders| == 1 && store.orderIdCounter == 2;
  }
}
