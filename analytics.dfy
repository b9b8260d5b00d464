/** The analytics endpoints: read-only views and revenue sums over the dataset.
    They are functions of the dataset (or, for the one endpoint that builds its
    answer with a loop, a method that changes nothing), so none of them can
    modify the products or orders or persist anything. */
module Analytics {
  import opened Domain
  import opened Seqs
  import Catalog
  import Orders

  datatype ProductRevenue = ProductRevenue(productId: int, productName: string, totalRevenue: int, orderCount: nat)

  datatype OverallRevenue = OverallRevenue(totalRevenue: int, orderCount: nat)

  /** GET /analytics/allorders: copies the orders one by one into a fresh list. */
  method AllOrders(orders: seq<Order>) returns (r: OrderList)
    ensures r.orders == orders && r.count == |orders|
  {
    var all: seq<Order> := [];
    var i := 0;
    while i < |orders|
      invariant 0 <= i <= |orders|
      invariant all == orders[..i]
    {
      all := all + [orders[i]];
      i := i + 1;
    }
    r := OrderList(|all|, all);
  }

  /** GET /analytics/cancelled-orders: exactly the cancelled orders, in stored order. */
  function CancelledOrders(orders: seq<Order>): (r: OrderList)
    ensures r.count == |r.orders|
    ensures forall i :: 0 <= i < |r.orders| ==> r.orders[i] in orders && r.orders[i].status == Cancelled
    ensures forall i :: 0 <= i < |orders| && orders[i].status == Cancelled ==>
      multiset(r.orders)[orders[i]] == multiset(orders)[orders[i]]
    ensures IsSubsequence(r.orders, orders)
  {
    FilterMultiset(orders, IsCancelled);
    FilterIsSubsequence(orders, IsCancelled);
    var cancelled := Filter(orders, IsCancelled);
    OrderList(|cancelled|, cancelled)
  }

  /** GET /analytics/shipped: exactly the shipped orders, in stored order. */
  function ShippedOrders(orders: seq<Order>): (r: OrderList)
    ensures r.count == |r.orders|
    ensures forall i :: 0 <= i < |r.orders| ==> r.orders[i] in orders && r.orders[i].status == Shipped
    ensures forall i :: 0 <= i < |orders| && orders[i].status == Shipped ==>
      multiset(r.orders)[orders[i]] == multiset(orders)[orders[i]]
    ensures IsSubsequence(r.orders, orders)
  {
    FilterMultiset(orders, IsShipped);
    FilterIsSubsequence(orders, IsShipped);
    var shipped := Filter(orders, IsShipped);
    OrderList(|shipped|, shipped)
  }

  /** The `reduce` of the per-product report: quantity times the product's current price, summed. */
  function RevenueSum(selected: seq<Order>, price: int): int {
    if selected == [] then 0 else selected[0].quantity * price + RevenueSum(selected[1..], price)
  }

  /** The revenue of the live orders of a product is its price times the units they
      hold, the quantity the order lifecycle keeps out of stock. */
  lemma {:induction false} RevenueIsPriceTimesCommitted(orders: seq<Order>, pid: int, price: int)
    ensures RevenueSum(Filter(orders, ActiveFor(pid)), price) == price * Orders.Committed(orders, pid)
  {
    if orders != [] {
      var o := orders[0];
      var rest := Filter(orders[1..], ActiveFor(pid));
      var c := Orders.Committed(orders[1..], pid);
      RevenueIsPriceTimesCommitted(orders[1..], pid, price);
      assert RevenueSum(rest, price) == price * c;
      if ActiveFor(pid)(o) {
        assert Filter(orders, ActiveFor(pid)) == [o] + rest;
        assert ([o] + rest)[1..] == rest;
        assert RevenueSum([o] + rest, price) == o.quantity * price + RevenueSum(rest, price);
        assert Orders.Committed(orders, pid) == o.quantity + c;
        Distribute(price, o.quantity, c);
      } else {
        assert Filter(orders, ActiveFor(pid)) == rest;
        assert Orders.Committed(orders, pid) == c;
      }
    }
  }

  /** The distributive step of the induction above, kept apart so that the nonlinear
      arithmetic is proved without the sequence facts in scope. */
  lemma Distribute(a: int, b: int, c: int)
    ensures a * (b + c) == b * a + a * c
  {
  }

  /** The number of orders of product `pid` that are not cancelled. */
  function LiveCount(orders: seq<Order>, pid: int): (r: nat)
    ensures r <= |orders|
    ensures r == 0 <==> forall k :: 0 <= k < |orders| ==> !ActiveFor(pid)(orders[k])
  {
    if orders == [] then 0
    else (if ActiveFor(pid)(orders[0]) then 1 else 0) + LiveCount(orders[1..], pid)
  }

  /** Selecting a product's live orders keeps exactly LiveCount of them. */
  lemma {:induction false} LiveOrdersAreLiveCount(orders: seq<Order>, pid: int)
    ensures |Filter(orders, ActiveFor(pid))| == LiveCount(orders, pid)
  {
    if orders != [] {
      LiveOrdersAreLiveCount(orders[1..], pid);
    }
  }

  /** GET /analytics/total-revenue/:productId. */
  function ProductTotalRevenue(db: Dataset, productId: int): (r: Result<ProductRevenue>)
    ensures r.Err? <==> forall j :: 0 <= j < |db.products| ==> db.products[j].id != productId
    ensures r.Err? ==> r.error == ProductNotFound
    ensures r.Ok? ==>
      var p := db.products[Catalog.FindProduct(db.products, productId).value];
      && r.value.productId == productId
      && r.value.productName == p.name
      && r.value.totalRevenue == p.price * Orders.Committed(db.orders, productId)
      && r.value.orderCount == LiveCount(db.orders, productId)
      && r.value.orderCount <= |db.orders|
      && (r.value.orderCount == 0 <==>
            forall k :: 0 <= k < |db.orders| ==> !ActiveFor(productId)(db.orders[k]))
      && (r.value.orderCount == 0 ==> r.value.totalRevenue == 0)
  {
    match Catalog.FindProduct(db.products, productId)
    case None => Err(ProductNotFound)
    case Some(i) =>
      var product := db.products[i];
      var productOrders := Filter(db.orders, ActiveFor(productId));
      RevenueIsPriceTimesCommitted(db.orders, productId, product.price);
      LiveOrdersAreLiveCount(db.orders, productId);
      assert productOrders == [] ==> RevenueSum(productOrders, product.price) == 0;
      assert productOrders != [] ==> ActiveFor(productId)(productOrders[0]);
      Ok(ProductRevenue(productId, product.name, RevenueSum(productOrders, product.price), |productOrders|))
  }

  /** The `reduce` of the overall report: each order adds quantity times the price of
      the product its id resolves to, or nothing when the id resolves to no product. */
  function ResolvedRevenue(products: seq<Product>, selected: seq<Order>): (r: int)
    ensures (forall i :: 0 <= i < |selected| ==> Catalog.FindProduct(products, selected[i].productId).None?) ==> r == 0
  {
    if selected == [] then 0
    else
      var contribution :=
        match Catalog.FindProduct(products, selected[0].productId)
        case Some(i) => selected[0].quantity * products[i].price
        case None => 0;
      contribution + ResolvedRevenue(products, selected[1..])
  }

  /** GET /analytics/alltotalrevenue. */
  function OverallRevenueReport(db: Dataset): (r: OverallRevenue)
    ensures r.orderCount + CancelledOrders(db.orders).count == |db.orders|
    ensures r.orderCount <= |db.orders|
  {
    var activeOrders := Filter(db.orders, IsActive);
    FilterSplit(db.orders, IsActive, IsCancelled);
    OverallRevenue(ResolvedRevenue(db.products, activeOrders), |activeOrders|)
  }

  lemma {:induction false} ResolvedRevenueAppend(products: seq<Product>, selected: seq<Order>, o: Order)
    ensures ResolvedRevenue(products, selected + [o]) ==
      ResolvedRevenue(products, selected) + ResolvedRevenue(products, [o])
  {
    if selected == [] {
      assert selected + [o] == [o];
    } else {
      assert (selected + [o])[1..] == selected[1..] + [o];
      ResolvedRevenueAppend(products, selected[1..], o);
    }
  }

  /** An order whose product id resolves to no product adds nothing to the overall
      revenue, yet it is counted when it is not cancelled. */
  lemma OverallRevenueSkipsUnresolved(db: Dataset, o: Order)
    requires Catalog.FindProduct(db.products, o.productId).None?
    ensures var after := OverallRevenueReport(Dataset(db.products, db.orders + [o]));
      && after.totalRevenue == OverallRevenueReport(db).totalRevenue
      && after.orderCount == OverallRevenueReport(db).orderCount + (if IsActive(o) then 1 else 0)
  {
    var active := Filter(db.orders, IsActive);
    FilterAppend(db.orders, o, IsActive);
    assert Filter(db.orders + [o], IsActive) == active + (if IsActive(o) then [o] else []);
    assert ResolvedRevenue(db.products, [o]) == 0 by {
      assert [o][1..] == [];
    }
    if IsActive(o) {
      ResolvedRevenueAppend(db.products, active, o);
    } else {
      assert active + [] == active;
    }
  }

  /** A live order whose product id resolves adds its quantity times the price of the
      first product with that id, and one to the count, whether or not ids are distinct. */
  lemma OverallRevenueAddsResolved(db: Dataset, o: Order, i: nat)
    requires Catalog.FindProduct(db.products, o.productId) == Some(i)
    requires IsActive(o)
    ensures var after := OverallRevenueReport(Dataset(db.products, db.orders + [o]));
      && after.totalRevenue == OverallRevenueReport(db).totalRevenue + o.quantity * db.products[i].price
      && after.orderCount == OverallRevenueReport(db).orderCount + 1
  {
    var active := Filter(db.orders, IsActive);
    FilterAppend(db.orders, o, IsActive);
    assert Filter(db.orders + [o], IsActive) == active + [o];
    assert ResolvedRevenue(db.products, [o]) == o.quantity * db.products[i].price by {
      assert [o][1..] == [];
    }
    ResolvedRevenueAppend(db.products, active, o);
  }

  /** A cancelled order changes neither the overall revenue nor the count. */
  lemma OverallRevenueIgnoresCancelled(db: Dataset, o: Order)
    requires o.status == Cancelled
    ensures OverallRevenueReport(Dataset(db.products, db.orders + [o])) == OverallRevenueReport(db)
  {
    FilterAppend(db.orders, o, IsActive);
    assert Filter(db.orders, IsActive) + [] == Filter(db.orders, IsActive);
  }

  // ---------------------------------------------------------------------------
  // Revenue additivity

  /** The per-product reports' totalRevenue, summed over `ps` (a product whose report
      fails contributes nothing). */
  function SumOfProductRevenues(db: Dataset, ps: seq<Product>): int {
    if ps == [] then 0
    else
      var own := match ProductTotalRevenue(db, ps[0].id)
        case Ok(report) => report.totalRevenue
        case Err(_) => 0;
      own + SumOfProductRevenues(db, ps[1..])
  }

  /** Each product's price times the units held by live orders for its id. */
  ghost function PricedCommitments(ps: seq<Product>, orders: seq<Order>): int {
    if ps == [] then 0
    else ps[0].price * Orders.Committed(orders, ps[0].id) + PricedCommitments(ps[1..], orders)
  }

  /** What one order adds to PricedCommitments(ps, ·). */
  ghost function PricedShare(ps: seq<Product>, o: Order): int {
    if ps == [] then 0 else ps[0].price * Orders.Share(o, ps[0].id) + PricedShare(ps[1..], o)
  }

  lemma {:induction false} ReportsArePricedCommitments(db: Dataset, ps: seq<Product>)
    requires UniqueIds(db.products)
    requires forall p :: p in ps ==> p in db.products
    ensures SumOfProductRevenues(db, ps) == PricedCommitments(ps, db.orders)
  {
    if ps != [] {
      assert ps[0] in db.products;
      var k :| 0 <= k < |db.products| && db.products[k] == ps[0];
      Catalog.FindProductOfMember(db.products, k);
      ReportsArePricedCommitments(db, ps[1..]);
    }
  }

  lemma {:induction false} PricedCommitmentsOfNone(ps: seq<Product>)
    ensures PricedCommitments(ps, []) == 0
  {
    if ps != [] {
      PricedCommitmentsOfNone(ps[1..]);
    }
  }

  lemma {:induction false} PricedCommitmentsSplit(ps: seq<Product>, orders: seq<Order>)
    requires orders != []
    ensures PricedCommitments(ps, orders) == PricedShare(ps, orders[0]) + PricedCommitments(ps, orders[1..])
  {
    if ps != [] {
      PricedCommitmentsSplit(ps[1..], orders);
      var p := ps[0];
      assert Orders.Committed(orders, p.id) == Orders.Share(orders[0], p.id) + Orders.Committed(orders[1..], p.id);
      assert p.price * Orders.Committed(orders, p.id) ==
        p.price * Orders.Share(orders[0], p.id) + p.price * Orders.Committed(orders[1..], p.id);
    }
  }

  lemma {:induction false} PricedShareOfAbsent(ps: seq<Product>, o: Order)
    requires forall j :: 0 <= j < |ps| ==> ps[j].id != o.productId
    ensures PricedShare(ps, o) == 0
  {
    if ps != [] {
      assert Orders.Share(o, ps[0].id) == 0;
      PricedShareOfAbsent(ps[1..], o);
    }
  }

  /** With distinct ids, exactly the product the order's id resolves to gets its share. */
  lemma {:induction false} PricedShareIsResolved(ps: seq<Product>, o: Order)
    requires UniqueIds(ps)
    ensures PricedShare(ps, o) ==
      if IsActive(o) then ResolvedRevenue(ps, [o]) else 0
  {
    assert [o][1..] == [];
    if ps != [] {
      if ps[0].id == o.productId {
        PricedShareOfAbsent(ps[1..], o);
        assert Catalog.FindProduct(ps, o.productId) == Some(0);
      } else {
        assert Orders.Share(o, ps[0].id) == 0;
        PricedShareIsResolved(ps[1..], o);
        match Catalog.FindProduct(ps[1..], o.productId)
        case None =>
        case Some(i) =>
          assert Catalog.FindProduct(ps, o.productId) == Some(i + 1);
      }
    }
  }

  lemma {:induction false} OverallIsPricedCommitments(products: seq<Product>, orders: seq<Order>)
    requires UniqueIds(products)
    ensures ResolvedRevenue(products, Filter(orders, IsActive)) == PricedCommitments(products, orders)
  {
    if orders == [] {
      PricedCommitmentsOfNone(products);
    } else {
      var o := orders[0];
      var rest := Filter(orders[1..], IsActive);
      OverallIsPricedCommitments(products, orders[1..]);
      PricedCommitmentsSplit(products, orders);
      PricedShareIsResolved(products, o);
      if IsActive(o) {
        assert Filter(orders, IsActive) == [o] + rest;
        assert ([o] + rest)[1..] == rest;
        assert [o][1..] == [];
      }
    }
  }

  /** With distinct product ids, the overall revenue is the sum of the per-product
      revenues over the catalog; orders whose product no longer resolves are in neither. */
  lemma RevenueAdditivity(db: Dataset)
    requires UniqueIds(db.products)
    ensures OverallRevenueReport(db).totalRevenue == SumOfProductRevenues(db, db.products)
  {
    OverallIsPricedCommitments(db.products, db.orders);
    ReportsArePricedCommitments(db, db.products);
  }
}
