/** The order lifecycle: creating an order against stock, cancelling it on the
    day it was placed, and advancing its status along placed, shipped, delivered.

    Each handler is specified by a function from the dataset before the request to
    the answer and the dataset after it (CreateOrder, CancelOrder, ChangeStatus); the
    class Store holds the shared dataset and its methods update it in place, proved
    equal to those functions. The lemmas at the end follow the dataset across any
    sequence of requests. */
module Orders {
  import opened Domain
  import Seqs
  import Catalog

  /** A handler's answer together with the dataset it leaves behind. */
  datatype Outcome = Outcome(result: Result<Order>, db: Dataset)

  // ---------------------------------------------------------------------------
  // The status workflow

  /** Position in the workflow; cancellation ranks last because nothing follows it. */
  function Rank(s: Status): nat {
    match s
    case Placed => 0
    case Shipped => 1
    case Delivered => 2
    case Cancelled => 3
  }

  /** The `validTransitions` table: the one status a status may advance to. */
  function NextStatus(s: Status): (r: Option<Status>)
    ensures r.None? <==> s == Delivered || s == Cancelled
    ensures r.Some? ==> Rank(r.value) == Rank(s) + 1 && r.value != Cancelled
  {
    match s
    case Placed => Some(Shipped)
    case Shipped => Some(Delivered)
    case _ => None
  }

  /** The status as it is spelled in requests and in the stored data. */
  function StatusName(s: Status): string {
    match s
    case Placed => "placed"
    case Shipped => "shipped"
    case Delivered => "delivered"
    case Cancelled => "cancelled"
  }

  /** Distinct statuses have distinct names, so comparing a requested string with
      the name of the next status accepts that one status and no other. */
  lemma StatusNamesDistinct(a: Status, b: Status)
    ensures StatusName(a) == StatusName(b) ==> a == b
  {
  }

  /** Every change an operation may make to the status of an existing order:
      none, the one next status, or cancellation of an order not yet cancelled. */
  predicate StatusStep(before: Status, after: Status) {
    after == before || NextStatus(before) == Some(after) || (before != Cancelled && after == Cancelled)
  }

  /** A history of one order's status in which every change is a StatusStep. */
  ghost predicate Stepwise(trace: seq<Status>) {
    forall i :: 0 < i < |trace| ==> StatusStep(trace[i - 1], trace[i])
  }

  /** Along a stepwise history the status never moves back: an order that has left
      `placed` never returns to it, and a cancelled order stays cancelled. */
  lemma {:induction false} StepwiseNeverMovesBack(trace: seq<Status>, i: nat, j: nat)
    requires Stepwise(trace)
    requires i <= j < |trace|
    ensures Rank(trace[i]) <= Rank(trace[j])
    ensures trace[j] == Placed ==> trace[i] == Placed
    ensures trace[i] == Cancelled ==> trace[j] == Cancelled
  {
    if i < j {
      StepwiseNeverMovesBack(trace, i, j - 1);
      assert StatusStep(trace[j - 1], trace[j]);
    }
  }

  /** No status is skipped: an order placed and later delivered was shipped in between. */
  lemma {:induction false} DeliveredOnlyAfterShipped(trace: seq<Status>, j: nat)
    requires Stepwise(trace)
    requires j < |trace| && trace[0] == Placed && trace[j] == Delivered
    ensures exists i :: 0 < i < j && trace[i] == Shipped
  {
    assert StatusStep(trace[j - 1], trace[j]);
    if trace[j - 1] != Shipped {
      assert trace[j - 1] == Delivered;
      DeliveredOnlyAfterShipped(trace, j - 1);
    }
  }

  // ---------------------------------------------------------------------------
  // Request fields and lookups

  /** JavaScript's `!v` for a numeric body field: absent, null or zero. */
  predicate Missing(v: Option<int>) {
    v.None? || v.value == 0
  }

  /** A string body field that is present and not empty (truthy). */
  predicate Given(v: Option<string>) {
    v.Some? && v.value != ""
  }

  /** `orders.find(o => o.id === id)`: the position of the first order with that id. */
  function FindOrder(orders: seq<Order>, id: int): (r: Option<nat>)
    ensures r.Some? ==> r.value < |orders| && orders[r.value].id == id
    ensures r.Some? ==> forall j :: 0 <= j < r.value ==> orders[j].id != id
    ensures r.None? <==> forall j :: 0 <= j < |orders| ==> orders[j].id != id
  {
    Seqs.Find(orders, (o: Order) => o.id == id)
  }

  /** Order lookup reads nothing but the ids. */
  lemma FindOrderReadsOnlyIds(a: seq<Order>, b: seq<Order>, id: int)
    requires |a| == |b|
    requires forall j :: 0 <= j < |a| ==> a[j].id == b[j].id
    ensures FindOrder(a, id) == FindOrder(b, id)
  {
  }

  /** The catalog after an operation: the same products in the same places, with at
      most their stock changed. */
  ghost predicate SameCatalog(before: seq<Product>, after: seq<Product>) {
    |after| == |before| &&
    forall j :: 0 <= j < |before| ==> after[j] == before[j].(stock := after[j].stock)
  }

  /** The orders after an operation: every existing order keeps its place and every
      field but its status, which changes by a StatusStep; new orders only follow them. */
  ghost predicate Evolves(before: seq<Order>, after: seq<Order>) {
    |before| <= |after| &&
    forall k :: 0 <= k < |before| ==>
      after[k] == before[k].(status := after[k].status) &&
      StatusStep(before[k].status, after[k].status)
  }

  // ---------------------------------------------------------------------------
  // The handlers, as functions of the dataset

  /** The product can cover `quantity` units from its stock. */
  predicate InStock(products: seq<Product>, productId: int, quantity: int) {
    match Catalog.FindProduct(products, productId)
    case None => false
    case Some(i) => quantity <= products[i].stock
  }

  /** POST /orders. */
  function CreateOrder(db: Dataset, productId: Option<int>, quantity: Option<int>, today: Date): (out: Outcome)
    ensures out.result.Err? ==> out.db == db
    ensures Missing(productId) || Missing(quantity) ==> out.result == Err(MissingOrderFields)
    ensures !Missing(productId) && !Missing(quantity) && quantity.value < 0 ==>
      out.result == Err(NonPositiveQuantity)
    ensures (!Missing(productId) && quantity.Some? && quantity.value > 0 &&
             Catalog.FindProduct(db.products, productId.value).None?) ==>
      out.result == Err(ProductNotFound)
    ensures out.result == Err(InsufficientStock) <==>
      !Missing(productId) && quantity.Some? && quantity.value > 0 &&
      Catalog.FindProduct(db.products, productId.value).Some? &&
      !InStock(db.products, productId.value, quantity.value)
    ensures out.result.Ok? <==>
      !Missing(productId) && quantity.Some? && quantity.value > 0 &&
      InStock(db.products, productId.value, quantity.value)
    ensures out.result.Ok? ==>
      var i := Catalog.FindProduct(db.products, productId.value).value;
      var q := quantity.value;
      && out.result.value == Order(|db.orders| + 1, productId.value, q, db.products[i].price * q, Placed, today)
      && out.db.orders == db.orders + [out.result.value]
      && |out.db.products| == |db.products|
      && (forall j :: 0 <= j < |db.products| ==>
            out.db.products[j] == db.products[j].(stock := db.products[j].stock - if j == i then q else 0))
      && out.db.products[i].stock >= 0
    ensures SameCatalog(db.products, out.db.products)
    ensures Evolves(db.orders, out.db.orders)
  {
    if Missing(productId) || Missing(quantity) then Outcome(Err(MissingOrderFields), db)
    else if quantity.value <= 0 then Outcome(Err(NonPositiveQuantity), db)
    else match Catalog.FindProduct(db.products, productId.value)
      case None => Outcome(Err(ProductNotFound), db)
      case Some(i) =>
        var product := db.products[i];
        if product.stock == 0 then Outcome(Err(InsufficientStock), db)
        else if quantity.value > product.stock then Outcome(Err(InsufficientStock), db)
        else
          var order := Order(|db.orders| + 1, productId.value, quantity.value,
                             product.price * quantity.value, Placed, today);
          var products := db.products[i := product.(stock := product.stock - quantity.value)];
          Outcome(Ok(order), Dataset(products, db.orders + [order]))
  }

  /** The catalog with `quantity` units put back on the first product with id `pid`,
      if there is one. */
  function Restocked(products: seq<Product>, pid: int, quantity: int): (r: seq<Product>)
    ensures |r| == |products|
    ensures forall j :: 0 <= j < |products| ==>
      r[j] == products[j].(stock := products[j].stock + if Catalog.FindProduct(products, pid) == Some(j) then quantity else 0)
  {
    match Catalog.FindProduct(products, pid)
    case None => products
    case Some(i) => products[i := products[i].(stock := products[i].stock + quantity)]
  }

  /** DELETE /orders/:orderId, a soft delete allowed only on the day the order was created. */
  function CancelOrder(db: Dataset, orderId: int, today: Date): (out: Outcome)
    ensures out.result.Err? ==> out.db == db
    ensures FindOrder(db.orders, orderId).None? ==> out.result == Err(OrderNotFound)
    ensures FindOrder(db.orders, orderId).Some? ==>
      var o := db.orders[FindOrder(db.orders, orderId).value];
      && (o.status == Cancelled ==> out.result == Err(AlreadyCancelled))
      && (o.status != Cancelled && o.createdAt != today ==> out.result == Err(CancellationWindowClosed))
    ensures out.result.Ok? <==>
      FindOrder(db.orders, orderId).Some? &&
      IsActive(db.orders[FindOrder(db.orders, orderId).value]) &&
      db.orders[FindOrder(db.orders, orderId).value].createdAt == today
    ensures out.result.Ok? ==>
      var k := FindOrder(db.orders, orderId).value;
      var o := db.orders[k];
      var found := Catalog.FindProduct(db.products, o.productId);
      && out.result.value == o.(status := Cancelled)
      && out.db.orders == db.orders[k := out.result.value]
      && |out.db.products| == |db.products|
      && (forall j :: 0 <= j < |db.products| ==>
            out.db.products[j] == db.products[j].(stock := db.products[j].stock + if found == Some(j) then o.quantity else 0))
    ensures SameCatalog(db.products, out.db.products)
    ensures Evolves(db.orders, out.db.orders)
  {
    match FindOrder(db.orders, orderId)
    case None => Outcome(Err(OrderNotFound), db)
    case Some(k) =>
      var order := db.orders[k];
      if order.status == Cancelled then Outcome(Err(AlreadyCancelled), db)
      else if order.createdAt != today then Outcome(Err(CancellationWindowClosed), db)
      else
        var products := Restocked(db.products, order.productId, order.quantity);
        var cancelled := order.(status := Cancelled);
        Outcome(Ok(cancelled), Dataset(products, db.orders[k := cancelled]))
  }

  /** PATCH /orders/change-status/:orderId. */
  function ChangeStatus(db: Dataset, orderId: int, requested: Option<string>): (out: Outcome)
    ensures out.result.Err? ==> out.db == db
    ensures !Given(requested) ==> out.result == Err(StatusRequired)
    ensures Given(requested) && FindOrder(db.orders, orderId).None? ==> out.result == Err(OrderNotFound)
    ensures Given(requested) && FindOrder(db.orders, orderId).Some? ==>
      var o := db.orders[FindOrder(db.orders, orderId).value];
      (o.status == Cancelled || o.status == Delivered) ==> out.result == Err(TerminalStatus)
    ensures Given(requested) && FindOrder(db.orders, orderId).Some? ==>
      var o := db.orders[FindOrder(db.orders, orderId).value];
      NextStatus(o.status).Some? && requested.value != StatusName(NextStatus(o.status).value) ==>
        out.result == Err(SkippedStatus(o.status, NextStatus(o.status).value))
    ensures out.result.Ok? <==>
      Given(requested) && FindOrder(db.orders, orderId).Some? &&
      var o := db.orders[FindOrder(db.orders, orderId).value];
      NextStatus(o.status).Some? && requested.value == StatusName(NextStatus(o.status).value)
    ensures out.result.Ok? ==>
      var k := FindOrder(db.orders, orderId).value;
      var o := db.orders[k];
      && ((o.status == Placed && out.result.value.status == Shipped) ||
          (o.status == Shipped && out.result.value.status == Delivered))
      && out.result.value == o.(status := out.result.value.status)
      && out.db == Dataset(db.products, db.orders[k := out.result.value])
    ensures SameCatalog(db.products, out.db.products)
    ensures Evolves(db.orders, out.db.orders)
  {
    if !Given(requested) then Outcome(Err(StatusRequired), db)
    else match FindOrder(db.orders, orderId)
      case None => Outcome(Err(OrderNotFound), db)
      case Some(k) =>
        var order := db.orders[k];
        if order.status == Cancelled || order.status == Delivered then Outcome(Err(TerminalStatus), db)
        else
          var expected := NextStatus(order.status).value;
          if requested.value != StatusName(expected) then
            Outcome(Err(SkippedStatus(order.status, expected)), db)
          else
            var updated := order.(status := expected);
            Outcome(Ok(updated), Dataset(db.products, db.orders[k := updated]))
  }

  // ---------------------------------------------------------------------------
  // The shared dataset, updated in place

  /** Stock never negative, and every order holds a positive quantity. */
  ghost predicate Consistent(db: Dataset) {
    && (forall j :: 0 <= j < |db.products| ==> db.products[j].stock >= 0)
    && (forall k :: 0 <= k < |db.orders| ==> db.orders[k].quantity > 0)
  }

  /** The dataset the routes share: loaded once, then changed in place by the order
      handlers. Persisting it after each change is not modelled. */
  class Store {
    var products: seq<Product>
    var orders: seq<Order>

    function Snapshot(): Dataset
      reads this
    {
      Dataset(products, orders)
    }

    ghost predicate Valid()
      reads this
    {
      Consistent(Snapshot())
    }

    constructor (db: Dataset)
      ensures Snapshot() == db
      ensures Valid() <==> Consistent(db)
    {
      products := db.products;
      orders := db.orders;
    }

    method Create(productId: Option<int>, quantity: Option<int>, today: Date) returns (r: Result<Order>)
      modifies this
      ensures Outcome(r, Snapshot()) == CreateOrder(old(Snapshot()), productId, quantity, today)
      ensures old(Valid()) ==> Valid()
    {
      ghost var before := Snapshot();
      ApplyKeepsConsistent(before, CreateRequest(productId, quantity, today));
      if Missing(productId) || Missing(quantity) {
        return Err(MissingOrderFields);
      }
      var q := quantity.value;
      if q <= 0 {
        return Err(NonPositiveQuantity);
      }
      var found := Catalog.FindProduct(products, productId.value);
      if found.None? {
        return Err(ProductNotFound);
      }
      var i := found.value;
      var product := products[i];
      if product.stock == 0 {
        return Err(InsufficientStock);
      }
      if q > product.stock {
        return Err(InsufficientStock);
      }
      var order := Order(|orders| + 1, productId.value, q, product.price * q, Placed, today);
      products := products[i := product.(stock := product.stock - q)];
      orders := orders + [order];
      r := Ok(order);
    }

    /** GET /orders: every order, whatever its status, with the count. */
    method List() returns (r: OrderList)
      ensures r.orders == orders && r.count == |orders|
    {
      r := OrderList(|orders|, orders);
    }

    method Cancel(orderId: int, today: Date) returns (r: Result<Order>)
      modifies this
      ensures Outcome(r, Snapshot()) == CancelOrder(old(Snapshot()), orderId, today)
      ensures old(Valid()) ==> Valid()
    {
      ghost var before := Snapshot();
      ApplyKeepsConsistent(before, CancelRequest(orderId, today));
      var located := FindOrder(orders, orderId);
      if located.None? {
        return Err(OrderNotFound);
      }
      var k := located.value;
      var order := orders[k];
      if order.status == Cancelled {
        return Err(AlreadyCancelled);
      }
      if order.createdAt != today {
        return Err(CancellationWindowClosed);
      }
      var found := Catalog.FindProduct(products, order.productId);
      if found.Some? {
        var i := found.value;
        products := products[i := products[i].(stock := products[i].stock + order.quantity)];
      }
      assert products == Restocked(before.products, order.productId, order.quantity);
      order := order.(status := Cancelled);
      orders := orders[k := order];
      r := Ok(order);
    }

    method AdvanceStatus(orderId: int, requested: Option<string>) returns (r: Result<Order>)
      modifies this
      ensures Outcome(r, Snapshot()) == ChangeStatus(old(Snapshot()), orderId, requested)
      ensures old(Valid()) ==> Valid()
    {
      ghost var before := Snapshot();
      ApplyKeepsConsistent(before, ChangeStatusRequest(orderId, requested));
      if !Given(requested) {
        return Err(StatusRequired);
      }
      var located := FindOrder(orders, orderId);
      if located.None? {
        return Err(OrderNotFound);
      }
      var k := located.value;
      var order := orders[k];
      if order.status == Cancelled || order.status == Delivered {
        return Err(TerminalStatus);
      }
      var expected := NextStatus(order.status).value;
      if requested.value != StatusName(expected) {
        return Err(SkippedStatus(order.status, expected));
      }
      order := order.(status := expected);
      orders := orders[k := order];
      r := Ok(order);
    }
  }

  // ---------------------------------------------------------------------------
  // Sequences of requests

  datatype Request =
    | CreateRequest(productId: Option<int>, quantity: Option<int>, today: Date)
    | CancelRequest(orderId: int, today: Date)
    | ChangeStatusRequest(orderId: int, status: Option<string>)

  /** One mutating request, served to completion before the next one. */
  function Apply(db: Dataset, req: Request): Outcome {
    match req
    case CreateRequest(productId, quantity, today) => CreateOrder(db, productId, quantity, today)
    case CancelRequest(orderId, today) => CancelOrder(db, orderId, today)
    case ChangeStatusRequest(orderId, status) => ChangeStatus(db, orderId, status)
  }

  /** The dataset after serving `reqs` in order. */
  function Run(db: Dataset, reqs: seq<Request>): Dataset
    decreases |reqs|
  {
    if reqs == [] then db else Run(Apply(db, reqs[0]).db, reqs[1..])
  }

  /** Stock never goes negative and stored quantities stay positive, whatever the request. */
  lemma ApplyKeepsConsistent(db: Dataset, req: Request)
    ensures Consistent(db) ==> Consistent(Apply(db, req).db)
  {
  }

  lemma {:induction false} RunKeepsConsistent(db: Dataset, reqs: seq<Request>)
    requires Consistent(db)
    ensures Consistent(Run(db, reqs))
    decreases |reqs|
  {
    if reqs != [] {
      ApplyKeepsConsistent(db, reqs[0]);
      RunKeepsConsistent(Apply(db, reqs[0]).db, reqs[1..]);
    }
  }

  // ---------------------------------------------------------------------------
  // Stock conservation

  /** What order `o` holds of product `pid`'s stock: its quantity while it is not cancelled. */
  function Share(o: Order, pid: int): int {
    if ActiveFor(pid)(o) then o.quantity else 0
  }

  /** Units of product `pid` held by the orders that are not cancelled. */
  function Committed(orders: seq<Order>, pid: int): int {
    if orders == [] then 0 else Share(orders[0], pid) + Committed(orders[1..], pid)
  }

  /** The stock of the product the handlers resolve for `pid` (0 when none does). */
  function StockOf(products: seq<Product>, pid: int): int {
    match Catalog.FindProduct(products, pid)
    case None => 0
    case Some(i) => products[i].stock
  }

  /** Units of product `pid` that are on the shelf or held by a live order. */
  function Holdings(db: Dataset, pid: int): int {
    StockOf(db.products, pid) + Committed(db.orders, pid)
  }

  lemma {:induction false} CommittedAppend(orders: seq<Order>, o: Order, pid: int)
    ensures Committed(orders + [o], pid) == Committed(orders, pid) + Share(o, pid)
  {
    if orders == [] {
      assert orders + [o] == [o];
    } else {
      assert (orders + [o])[1..] == orders[1..] + [o];
      CommittedAppend(orders[1..], o, pid);
    }
  }

  lemma {:induction false} CommittedUpdate(orders: seq<Order>, k: nat, o: Order, pid: int)
    requires k < |orders|
    ensures Committed(orders[k := o], pid) + Share(orders[k], pid) == Committed(orders, pid) + Share(o, pid)
  {
    if k > 0 {
      assert orders[k := o][1..] == orders[1..][k - 1 := o];
      CommittedUpdate(orders[1..], k - 1, o, pid);
    } else {
      assert orders[k := o][1..] == orders[1..];
    }
  }

  /** Creating an order moves its units from the shelf to the new order. */
  lemma CreateConservesStock(db: Dataset, productId: Option<int>, quantity: Option<int>, today: Date, pid: int)
    requires Catalog.FindProduct(db.products, pid).Some?
    ensures Holdings(CreateOrder(db, productId, quantity, today).db, pid) == Holdings(db, pid)
  {
    var out := CreateOrder(db, productId, quantity, today);
    if out.result.Ok? {
      Catalog.FindProductReadsOnlyIds(db.products, out.db.products, pid);
      CommittedAppend(db.orders, out.result.value, pid);
      var i := Catalog.FindProduct(db.products, pid).value;
      var j := Catalog.FindProduct(db.products, productId.value).value;
      if j != i {
        assert db.products[j].id != pid;
      }
    }
  }

  /** Cancelling moves the order's units back to the shelf, when its product resolves. */
  lemma CancelConservesStock(db: Dataset, orderId: int, today: Date, pid: int)
    requires Catalog.FindProduct(db.products, pid).Some?
    ensures Holdings(CancelOrder(db, orderId, today).db, pid) == Holdings(db, pid)
  {
    var out := CancelOrder(db, orderId, today);
    if out.result.Ok? {
      Catalog.FindProductReadsOnlyIds(db.products, out.db.products, pid);
      var k := FindOrder(db.orders, orderId).value;
      CommittedUpdate(db.orders, k, out.db.orders[k], pid);
    }
  }

  /** Advancing a status keeps the order live, so it holds the same units. */
  lemma ChangeStatusConservesStock(db: Dataset, orderId: int, requested: Option<string>, pid: int)
    ensures Holdings(ChangeStatus(db, orderId, requested).db, pid) == Holdings(db, pid)
  {
    var out := ChangeStatus(db, orderId, requested);
    if out.result.Ok? {
      var k := FindOrder(db.orders, orderId).value;
      CommittedUpdate(db.orders, k, out.db.orders[k], pid);
    }
  }

  /** Each request keeps, for every product the catalog resolves, the units on the
      shelf plus the units held by live orders: creating moves units from the shelf
      to the new order, cancelling moves them back once, and advancing moves none. */
  lemma ApplyConservesStock(db: Dataset, req: Request, pid: int)
    requires Catalog.FindProduct(db.products, pid).Some?
    ensures Holdings(Apply(db, req).db, pid) == Holdings(db, pid)
  {
    match req
    case CreateRequest(productId, quantity, today) => CreateConservesStock(db, productId, quantity, today, pid);
    case CancelRequest(orderId, today) => CancelConservesStock(db, orderId, today, pid);
    case ChangeStatusRequest(orderId, status) => ChangeStatusConservesStock(db, orderId, status, pid);
  }

  lemma {:induction false} RunConservesStock(db: Dataset, reqs: seq<Request>, pid: int)
    requires Catalog.FindProduct(db.products, pid).Some?
    ensures Holdings(Run(db, reqs), pid) == Holdings(db, pid)
    decreases |reqs|
  {
    if reqs != [] {
      var next := Apply(db, reqs[0]).db;
      ApplyConservesStock(db, reqs[0], pid);
      Catalog.FindProductReadsOnlyIds(db.products, next.products, pid);
      RunConservesStock(next, reqs[1..], pid);
    }
  }

  // ---------------------------------------------------------------------------
  // Cancellation happens once

  /** A successful cancel cannot be repeated, on any day: the second attempt fails
      with AlreadyCancelled and changes nothing, so stock is restored only once. */
  lemma CancelNotRepeatable(db: Dataset, orderId: int, today: Date, later: Date)
    requires CancelOrder(db, orderId, today).result.Ok?
    ensures var once := CancelOrder(db, orderId, today).db;
      CancelOrder(once, orderId, later) == Outcome(Err(AlreadyCancelled), once)
  {
    var once := CancelOrder(db, orderId, today).db;
    FindOrderReadsOnlyIds(db.orders, once.orders, orderId);
  }

  // ---------------------------------------------------------------------------
  // Order identifiers

  /** The stored orders carry the ids 1, 2, ..., n in order. */
  ghost predicate SequentialIds(orders: seq<Order>) {
    forall k :: 0 <= k < |orders| ==> orders[k].id == k + 1
  }

  /** Ids are assigned as `orders.length + 1` and orders are never removed, so ids
      that start out as 1..n stay 1..n; the service does not check the starting state. */
  lemma {:induction false} RunKeepsSequentialIds(db: Dataset, reqs: seq<Request>)
    requires SequentialIds(db.orders)
    ensures SequentialIds(Run(db, reqs).orders)
    decreases |reqs|
  {
    if reqs != [] {
      var next := Apply(db, reqs[0]).db;
      assert SequentialIds(next.orders) by {
        if |next.orders| > |db.orders| {
          assert next.orders[|db.orders|].id == |db.orders| + 1;
        }
      }
      RunKeepsSequentialIds(next, reqs[1..]);
    }
  }

  /** With sequential ids, lookup by id is direct. */
  lemma SequentialIdsLookup(orders: seq<Order>, id: int)
    requires SequentialIds(orders)
    ensures FindOrder(orders, id) == if 1 <= id <= |orders| then Some(id - 1) else None
  {
    if 1 <= id <= |orders| {
      assert orders[id - 1].id == id;
    }
  }

  // ---------------------------------------------------------------------------
  // The status history of one order

  /** The status of the order at position `k` before each request of `reqs` and after the last. */
  function StatusHistory(db: Dataset, reqs: seq<Request>, k: nat): (h: seq<Status>)
    requires k < |db.orders|
    ensures |h| == |reqs| + 1 && h[0] == db.orders[k].status
    decreases |reqs|
  {
    if reqs == [] then [db.orders[k].status]
    else [db.orders[k].status] + StatusHistory(Apply(db, reqs[0]).db, reqs[1..], k)
  }

  /** Whatever requests arrive, every order's status history is stepwise; with
      StepwiseNeverMovesBack and DeliveredOnlyAfterShipped this means no order
      returns to `placed`, skips `shipped`, or leaves `cancelled`. */
  lemma {:induction false} HistoryIsStepwise(db: Dataset, reqs: seq<Request>, k: nat)
    requires k < |db.orders|
    ensures Stepwise(StatusHistory(db, reqs, k))
    decreases |reqs|
  {
    if reqs != [] {
      var next := Apply(db, reqs[0]).db;
      HistoryIsStepwise(next, reqs[1..], k);
      var h := StatusHistory(db, reqs, k);
      var rest := StatusHistory(next, reqs[1..], k);
      assert h == [db.orders[k].status] + rest;
      forall i | 0 < i < |h|
        ensures StatusStep(h[i - 1], h[i])
      {
        if i > 1 {
          assert h[i - 1] == rest[i - 2] && h[i] == rest[i - 1];
        }
      }
    }
  }

  /** Entry `i` of the history is the order's status in the dataset left by the
      first `i` requests; the order is still there, since orders are never removed. */
  lemma {:induction false} StatusHistoryFollowsRun(db: Dataset, reqs: seq<Request>, k: nat)
    requires k < |db.orders|
    ensures forall i :: 0 <= i <= |reqs| ==>
      k < |Run(db, reqs[..i]).orders| &&
      StatusHistory(db, reqs, k)[i] == Run(db, reqs[..i]).orders[k].status
    decreases |reqs|
  {
    assert reqs[..0] == [];
    if reqs != [] {
      var next := Apply(db, reqs[0]).db;
      assert Evolves(db.orders, next.orders);
      StatusHistoryFollowsRun(next, reqs[1..], k);
      forall i | 0 < i <= |reqs|
        ensures k < |Run(db, reqs[..i]).orders| &&
          StatusHistory(db, reqs, k)[i] == Run(db, reqs[..i]).orders[k].status
      {
        assert reqs[..i][0] == reqs[0] && reqs[..i][1..] == reqs[1..][..i - 1];
        assert Run(db, reqs[..i]) == Run(next, reqs[1..][..i - 1]);
      }
    }
  }
}
