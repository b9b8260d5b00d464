/** Worked examples of the order lifecycle and the revenue report on small datasets. */
module Scenarios {
  import opened Domain
  import opened Orders
  import Analytics

  /** Ordering 3 of a product priced 10 with 5 in stock costs 30 and leaves 2. */
  lemma OrderReducesStock(today: Date)
    ensures var out := CreateOrder(Dataset([Product(1, "mug", 10, 5)], []), Some(1), Some(3), today);
      && out.result == Ok(Order(1, 1, 3, 30, Placed, today))
      && out.db.products == [Product(1, "mug", 10, 2)]
  {
  }

  /** Ordering 5 when only 2 are left fails and the stock stays at 2. */
  lemma OrderBeyondStockFails(today: Date, orders: seq<Order>)
    ensures var db := Dataset([Product(1, "mug", 10, 2)], orders);
      CreateOrder(db, Some(1), Some(5), today) == Outcome(Err(InsufficientStock), db)
  {
  }

  /** Cancelling on the day of creation cancels the order and puts its 2 units back. */
  lemma SameDayCancelRestoresStock(today: Date)
    ensures var db := Dataset([Product(1, "mug", 10, 3)], [Order(1, 1, 2, 20, Placed, today)]);
      var out := CancelOrder(db, 1, today);
      && out.result == Ok(Order(1, 1, 2, 20, Cancelled, today))
      && out.db.products == [Product(1, "mug", 10, 5)]
  {
  }

  /** Asking for `delivered` while the order is `placed` is refused and changes nothing. */
  lemma SkippingShippedFails(today: Date)
    ensures var db := Dataset([], [Order(1, 1, 2, 20, Placed, today)]);
      ChangeStatus(db, 1, Some("delivered")) == Outcome(Err(SkippedStatus(Placed, Shipped)), db)
  {
  }

  /** A product whose only order is cancelled has revenue 0 from 0 orders. */
  lemma NoLiveOrdersNoRevenue(today: Date)
    ensures var db := Dataset([Product(1, "mug", 10, 5)], [Order(1, 1, 2, 20, Cancelled, today)]);
      Analytics.ProductTotalRevenue(db, 1) == Ok(Analytics.ProductRevenue(1, "mug", 0, 0))
  {
  }
}
