/** The values the order service stores and exchanges: products, orders,
    the in-memory dataset that holds both, and the errors its handlers answer with. */
module Domain {

  datatype Option<T> = None | Some(value: T)

  /** What a handler answers: a value, or one of the service's error responses. */
  datatype Result<T> = Ok(value: T) | Err(error: Error)

  /** A calendar date in YYYY-MM-DD form; the model only compares dates for equality. */
  type Date = string

  datatype Status = Placed | Shipped | Delivered | Cancelled

  /** A catalog entry. `price` is in integer cents, so revenue sums are exact. */
  datatype Product = Product(id: int, name: string, price: int, stock: int)

  datatype Order = Order(
    id: int,
    productId: int,
    quantity: int,
    totalAmount: int,
    status: Status,
    createdAt: Date)

  /** The whole persisted state: the product and order collections, in stored order. */
  datatype Dataset = Dataset(products: seq<Product>, orders: seq<Order>)

  /** A `count` together with the listed orders, as the list endpoints answer. */
  datatype OrderList = OrderList(count: nat, orders: seq<Order>)

  /** One constructor per distinct error response of the handlers. */
  datatype Error =
    | MissingOrderFields        // 400: productId or quantity missing or zero
    | NonPositiveQuantity       // 400: quantity below zero
    | ProductNotFound           // 404
    | InsufficientStock         // 400
    | OrderNotFound             // 404
    | AlreadyCancelled          // 400
    | CancellationWindowClosed  // 400: the order was not created today
    | StatusRequired            // 400: no status in the request body
    | TerminalStatus            // 400: the order is cancelled or delivered
    | SkippedStatus(current: Status, expected: Status)  // 400: not the one next status

  /** An order that still counts for revenue and holds stock. */
  predicate IsActive(o: Order) {
    o.status != Cancelled
  }

  predicate IsCancelled(o: Order) {
    o.status == Cancelled
  }

  predicate IsShipped(o: Order) {
    o.status == Shipped
  }

  /** The orders that the per-product revenue report selects for product `pid`. */
  function ActiveFor(pid: int): Order -> bool {
    (o: Order) => o.productId == pid && o.status != Cancelled
  }

  /** Product ids are pairwise distinct. The service never checks this. */
  ghost predicate UniqueIds(products: seq<Product>) {
    forall i, j :: 0 <= i < j < |products| ==> products[i].id != products[j].id
  }
}
