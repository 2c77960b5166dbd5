/** Orders and stock together: confirmation asks the warehouse, and the confirmed order's lines are reserved there. */
module Fulfilment {
  import opened Common
  import Orders
  import Stock
  import Reservations

  type Id = nat

  /** The order's lines as the event handlers see them. */
  function EventLines(items: seq<Orders.OrderItem>): seq<Reservations.Line> {
    seq(|items|, i requires 0 <= i < |items| => Reservations.Line(items[i].product, items[i].quantity))
  }

  /** The availability check's answer for an order, which is not asked without a warehouse. */
  ghost predicate StockOk(t: Orders.Tables, stock: Stock.Tables, order: Id) {
    order in t.orders && t.orders[order].warehouse.Some? ==>
      Stock.EachAvailable(stock, Reservations.Checks(t.orders[order].warehouse.value,
                                                     EventLines(Orders.ItemsOfOrder(t, order))))
  }

  method ConfirmWithStock(orders: Orders.OrderService, stock: Stock.Warehouse, order: Id)
    returns (err: Option<ErrorCode>)
    modifies orders
    ensures var op := Orders.Confirm(order, StockOk(old(orders.View()), stock.View(), order));
            err == Orders.Refusal(old(orders.View()), op) && orders.View() == Orders.After(old(orders.View()), op)
  {
    if order !in orders.orders {
      return Some(NotFound);
    }
    var o := orders.orders[order];
    if o.status != Orders.New {
      return Some(Conflict);
    }
    var items := if order in orders.items then orders.items[order] else [];
    var shortage := None;
    if o.warehouse.Some? {
      var checkItems: seq<Stock.CheckLine> := [];
      for i := 0 to |items|
        invariant checkItems == Reservations.Checks(o.warehouse.value, EventLines(items))[..i]
      {
        checkItems := checkItems
                      + [Stock.CheckLine(Stock.Slot(items[i].product, o.warehouse.value), items[i].quantity)];
      }
      assert checkItems == Reservations.Checks(o.warehouse.value, EventLines(items));
      shortage := stock.CheckAvailability(checkItems);
    }
    err := orders.ConfirmOrder(order, shortage.None?);
  }

  /** An order with distinct products and positive quantities that is confirmed against the stock as it is gets every
      line reserved, and cancelling it then gives the stock back as it was, whatever the order of its lines. */
  lemma ConfirmedOrderIsReserved(t: Orders.Tables, stock: Stock.Tables, order: Id, released: seq<Reservations.Line>)
    requires Orders.Refusal(t, Orders.Confirm(order, StockOk(t, stock, order))).None?
    requires t.orders[order].warehouse.Some?
    requires var lines := EventLines(Orders.ItemsOfOrder(t, order));
             && Reservations.DistinctProducts(lines) && Reservations.Positive(lines)
             && multiset(released) == multiset(lines)
    requires Reservations.NonnegativeReservations(stock)
    ensures var lines, warehouse := EventLines(Orders.ItemsOfOrder(t, order)), t.orders[order].warehouse.value;
            && Reservations.AllReserved(stock, warehouse, lines)
            && Reservations.UnreserveLines(Reservations.ReserveLines(stock, warehouse, lines), warehouse, released)
               == stock
  {
    var lines, warehouse := EventLines(Orders.ItemsOfOrder(t, order)), t.orders[order].warehouse.value;
    Reservations.CheckedOrderIsReserved(stock, warehouse, lines);
    Reservations.ReservedOrderIsRestored(stock, warehouse, lines, released);
  }
}
