/** The order service: totals, status transitions and refunds. Quantities are exact reals, money whole kopecks. */
module Orders {
  import opened Common

  type Id = nat

  datatype OrderStatus = Draft | New | Confirmed | Paid | Assembling | Shipped | Delivered | Cancelled

  datatype LineInput = LineInput(product: Id, quantity: real, unitPrice: int, discount: int, tax: int)

  datatype OrderItem = OrderItem(id: Id, product: Id, quantity: real, unitPrice: int, discount: int, tax: int,
                                 total: int)

  datatype Order = Order(status: OrderStatus, subtotal: int, discount: int, tax: int, total: int,
                         warehouse: Option<Id>, notes: string)

  datatype RefundLine = RefundLine(item: Id, quantity: int)

  datatype RefundItem = RefundItem(item: Id, quantity: int, unitPrice: int, total: int)

  datatype RefundRecord = RefundRecord(order: Id, total: int, items: seq<RefundItem>)

  datatype Tables = Tables(orders: map<Id, Order>, items: map<Id, seq<OrderItem>>, refunds: seq<RefundRecord>,
                           nextId: Id)

  const EMPTY_TABLES := Tables(map[], map[], [], 0)

  /** `customerOk` and `stockOk` are the answers of the customer lookup and of the availability check. */
  datatype Op =
    | Create(customerOk: bool, warehouse: Option<Id>, lines: seq<LineInput>, notes: string)
    | Update(order: Id, lines: seq<LineInput>, newNotes: Option<string>)
    | Submit(order: Id)
    | Confirm(order: Id, stockOk: bool)
    | Pay(order: Id)
    | Ship(order: Id)
    | Deliver(order: Id)
    | Cancel(order: Id)
    | Refund(order: Id, refundLines: seq<RefundLine>)

  // ---------- Amounts ----------

  function Amount(unitPrice: int, quantity: real): int { Round(unitPrice as real * quantity) }

  /** A line's amount is its exact price to the nearest kopeck, halves away from zero. */
  lemma AmountIsNearest(unitPrice: int, quantity: real)
    ensures unitPrice as real * quantity >= 0.0 ==>
              -0.5 < Amount(unitPrice, quantity) as real - unitPrice as real * quantity <= 0.5
    ensures Amount(-unitPrice, quantity) == -Amount(unitPrice, quantity)
  {
    RoundHalves(unitPrice as real * quantity);
    assert (-unitPrice) as real * quantity == -(unitPrice as real * quantity);
  }

  function ItemOf(id: Id, l: LineInput): OrderItem {
    OrderItem(id, l.product, l.quantity, l.unitPrice, l.discount, l.tax,
              Amount(l.unitPrice, l.quantity) - l.discount + l.tax)
  }

  function ItemsOf(lines: seq<LineInput>, firstId: Id): seq<OrderItem> {
    seq(|lines|, i requires 0 <= i < |lines| => ItemOf(firstId + i, lines[i]))
  }

  function Subtotal(items: seq<OrderItem>): int {
    if items == [] then 0
    else Subtotal(items[..|items| - 1]) + Amount(items[|items| - 1].unitPrice, items[|items| - 1].quantity)
  }

  function Discounts(items: seq<OrderItem>): int {
    if items == [] then 0 else Discounts(items[..|items| - 1]) + items[|items| - 1].discount
  }

  function Taxes(items: seq<OrderItem>): int {
    if items == [] then 0 else Taxes(items[..|items| - 1]) + items[|items| - 1].tax
  }

  function ItemTotals(items: seq<OrderItem>): int {
    if items == [] then 0 else ItemTotals(items[..|items| - 1]) + items[|items| - 1].total
  }

  function Priced(o: Order, items: seq<OrderItem>): Order {
    o.(subtotal := Subtotal(items), discount := Discounts(items), tax := Taxes(items),
       total := Subtotal(items) - Discounts(items) + Taxes(items))
  }

  // ---------- What each call does to the tables ----------

  function Requires(t: Tables, order: Id, allowed: set<OrderStatus>): Option<ErrorCode> {
    if order !in t.orders then Some(NotFound)
    else if t.orders[order].status !in allowed then Some(Conflict)
    else None
  }

  function ItemsOfOrder(t: Tables, order: Id): seq<OrderItem> {
    if order in t.items then t.items[order] else []
  }

  /** The position of the item with this id, or the number of items. */
  function FindItem(items: seq<OrderItem>, id: Id): (k: nat)
    ensures k <= |items| && (k < |items| ==> items[k].id == id)
    ensures forall j :: 0 <= j < k ==> items[j].id != id
  {
    if items == [] || items[0].id == id then 0 else 1 + FindItem(items[1..], id)
  }

  predicate Refundable(items: seq<OrderItem>, line: RefundLine) {
    var k := FindItem(items, line.item);
    k < |items| && line.quantity > 0 && line.quantity as real <= items[k].quantity
  }

  predicate AllRefundable(items: seq<OrderItem>, lines: seq<RefundLine>) {
    forall i :: 0 <= i < |lines| ==> Refundable(items, lines[i])
  }

  function UnitPriceOf(items: seq<OrderItem>, id: Id): int {
    var k := FindItem(items, id);
    if k < |items| then items[k].unitPrice else 0
  }

  function RefundItemOf(items: seq<OrderItem>, line: RefundLine): RefundItem {
    RefundItem(line.item, line.quantity, UnitPriceOf(items, line.item), UnitPriceOf(items, line.item) * line.quantity)
  }

  function RefundItemsOf(items: seq<OrderItem>, lines: seq<RefundLine>): seq<RefundItem> {
    seq(|lines|, i requires 0 <= i < |lines| => RefundItemOf(items, lines[i]))
  }

  function RefundTotal(ris: seq<RefundItem>): int {
    if ris == [] then 0 else RefundTotal(ris[..|ris| - 1]) + ris[|ris| - 1].total
  }

  function Refusal(t: Tables, op: Op): Option<ErrorCode> {
    match op
    case Create(customerOk, _, lines, _) => if lines == [] || !customerOk then Some(BadRequest) else None
    case Update(order, _, _) => Requires(t, order, {Draft, New})
    case Submit(order) => Requires(t, order, {Draft})
    case Confirm(order, stockOk) =>
      var refusal := Requires(t, order, {New});
      if refusal.Some? then refusal
      else if t.orders[order].warehouse.Some? && !stockOk then Some(Conflict) else None
    case Pay(order) => Requires(t, order, {Confirmed})
    case Ship(order) => Requires(t, order, {Paid, Assembling})
    case Deliver(order) => Requires(t, order, {Shipped})
    case Cancel(order) => Requires(t, order, {Draft, New, Confirmed, Paid})
    case Refund(order, lines) =>
      var refusal := Requires(t, order, {Paid, Shipped, Delivered});
      if refusal.Some? then refusal
      else if lines == [] || !AllRefundable(ItemsOfOrder(t, order), lines) then Some(BadRequest) else None
  }

  function WithStatus(t: Tables, order: Id, status: OrderStatus): Tables
    requires order in t.orders
  {
    t.(orders := t.orders[order := t.orders[order].(status := status)])
  }

  function After(t: Tables, op: Op): Tables {
    if Refusal(t, op).Some? then t
    else
      match op
      case Create(_, warehouse, lines, notes) =>
        var items := ItemsOf(lines, t.nextId + 1);
        t.(orders := t.orders[t.nextId := Priced(Order(Draft, 0, 0, 0, 0, warehouse, notes), items)],
           items := t.items[t.nextId := items], nextId := t.nextId + 1 + |lines|)
      case Update(order, lines, newNotes) =>
        var o := if newNotes.Some? then t.orders[order].(notes := newNotes.value) else t.orders[order];
        if lines == [] then t.(orders := t.orders[order := o])
        else
          var items := ItemsOf(lines, t.nextId);
          t.(orders := t.orders[order := Priced(o, items)], items := t.items[order := items],
             nextId := t.nextId + |lines|)
      case Submit(order) => WithStatus(t, order, New)
      case Confirm(order, _) => WithStatus(t, order, Confirmed)
      case Pay(order) => WithStatus(t, order, Paid)
      case Ship(order) => WithStatus(t, order, Shipped)
      case Deliver(order) => WithStatus(t, order, Delivered)
      case Cancel(order) => WithStatus(t, order, Cancelled)
      case Refund(order, lines) =>
        var ris := RefundItemsOf(ItemsOfOrder(t, order), lines);
        t.(refunds := t.refunds + [RefundRecord(order, RefundTotal(ris), ris)])
  }

  function Run(t: Tables, ops: seq<Op>): Tables {
    if ops == [] then t else After(Run(t, ops[..|ops| - 1]), ops[|ops| - 1])
  }

  // ---------- The service ----------

  class OrderService {
    var orders: map<Id, Order>
    var items: map<Id, seq<OrderItem>>
    var refunds: seq<RefundRecord>
    var nextId: Id

    function View(): Tables
      reads this
    {
      Tables(orders, items, refunds, nextId)
    }

    constructor ()
      ensures View() == EMPTY_TABLES
    {
      orders, items, refunds, nextId := map[], map[], [], 0;
    }

    /** The loop that prices the lines. */
    method BuildItems(lines: seq<LineInput>, firstId: Id)
      returns (built: seq<OrderItem>, subtotal: int, discount: int, tax: int)
      ensures built == ItemsOf(lines, firstId)
      ensures subtotal == Subtotal(built) && discount == Discounts(built) && tax == Taxes(built)
    {
      built, subtotal, discount, tax := [], 0, 0, 0;
      for i := 0 to |lines|
        invariant built == ItemsOf(lines, firstId)[..i]
        invariant subtotal == Subtotal(built) && discount == Discounts(built) && tax == Taxes(built)
      {
        var l := lines[i];
        var itemTotal := Amount(l.unitPrice, l.quantity) - l.discount + l.tax;
        var item := OrderItem(firstId + i, l.product, l.quantity, l.unitPrice, l.discount, l.tax, itemTotal);
        assert (built + [item])[..i] == built;
        built := built + [item];
        subtotal := subtotal + Amount(l.unitPrice, l.quantity);
        discount := discount + l.discount;
        tax := tax + l.tax;
      }
      assert ItemsOf(lines, firstId)[..|lines|] == ItemsOf(lines, firstId);
    }

    method CreateOrder(customerOk: bool, warehouse: Option<Id>, lines: seq<LineInput>, notes: string)
      returns (err: Option<ErrorCode>)
      modifies this
      ensures err == Refusal(old(View()), Create(customerOk, warehouse, lines, notes))
      ensures View() == After(old(View()), Create(customerOk, warehouse, lines, notes))
    {
      if |lines| == 0 {
        return Some(BadRequest);
      }
      if !customerOk {
        return Some(BadRequest);
      }
      var built, subtotal, totalDiscount, totalTax := BuildItems(lines, nextId + 1);
      var order := Order(Draft, subtotal, totalDiscount, totalTax, subtotal - totalDiscount + totalTax,
                         warehouse, notes);
      orders := orders[nextId := order];
      items := items[nextId := built];
      nextId := nextId + 1 + |lines|;
      return None;
    }

    method UpdateOrder(order: Id, lines: seq<LineInput>, newNotes: Option<string>) returns (err: Option<ErrorCode>)
      modifies this
      ensures err == Refusal(old(View()), Update(order, lines, newNotes))
      ensures View() == After(old(View()), Update(order, lines, newNotes))
    {
      if order !in orders {
        return Some(NotFound);
      }
      var o := orders[order];
      if o.status != Draft && o.status != New {
        return Some(Conflict);
      }
      if newNotes.Some? {
        o := o.(notes := newNotes.value);
      }
      if |lines| > 0 {
        var built, subtotal, totalDiscount, totalTax := BuildItems(lines, nextId);
        o := o.(subtotal := subtotal, discount := totalDiscount, tax := totalTax,
                total := subtotal - totalDiscount + totalTax);
        items := items[order := built];
        nextId := nextId + |lines|;
      }
      orders := orders[order := o];
      return None;
    }

    method SubmitOrder(order: Id) returns (err: Option<ErrorCode>)
      modifies this
      ensures err == Refusal(old(View()), Submit(order)) && View() == After(old(View()), Submit(order))
    {
      if order !in orders {
        return Some(NotFound);
      }
      if orders[order].status != Draft {
        return Some(Conflict);
      }
      orders := orders[order := orders[order].(status := New)];
      return None;
    }

    method ConfirmOrder(order: Id, stockOk: bool) returns (err: Option<ErrorCode>)
      modifies this
      ensures err == Refusal(old(View()), Confirm(order, stockOk))
              && View() == After(old(View()), Confirm(order, stockOk))
    {
      if order !in orders {
        return Some(NotFound);
      }
      var o := orders[order];
      if o.status != New {
        return Some(Conflict);
      }
      if o.warehouse.Some? {
        if !stockOk {
          return Some(Conflict);
        }
      }
      orders := orders[order := o.(status := Confirmed)];
      return None;
    }

    method PayOrder(order: Id) returns (err: Option<ErrorCode>)
      modifies this
      ensures err == Refusal(old(View()), Pay(order)) && View() == After(old(View()), Pay(order))
    {
      if order !in orders {
        return Some(NotFound);
      }
      if orders[order].status != Confirmed {
        return Some(Conflict);
      }
      orders := orders[order := orders[order].(status := Paid)];
      return None;
    }

    method ShipOrder(order: Id) returns (err: Option<ErrorCode>)
      modifies this
      ensures err == Refusal(old(View()), Ship(order)) && View() == After(old(View()), Ship(order))
    {
      if order !in orders {
        return Some(NotFound);
      }
      if orders[order].status != Paid && orders[order].status != Assembling {
        return Some(Conflict);
      }
      orders := orders[order := orders[order].(status := Shipped)];
      return None;
    }

    method DeliverOrder(order: Id) returns (err: Option<ErrorCode>)
      modifies this
      ensures err == Refusal(old(View()), Deliver(order)) && View() == After(old(View()), Deliver(order))
    {
      if order !in orders {
        return Some(NotFound);
      }
      if orders[order].status != Shipped {
        return Some(Conflict);
      }
      orders := orders[order := orders[order].(status := Delivered)];
      return None;
    }

    method CancelOrder(order: Id) returns (err: Option<ErrorCode>)
      modifies this
      ensures err == Refusal(old(View()), Cancel(order)) && View() == After(old(View()), Cancel(order))
    {
      if order !in orders {
        return Some(NotFound);
      }
      var allowed := {Draft, New, Confirmed, Paid};
      if orders[order].status !in allowed {
        return Some(Conflict);
      }
      orders := orders[order := orders[order].(status := Cancelled)];
      return None;
    }

    method RefundOrder(order: Id, lines: seq<RefundLine>) returns (err: Option<ErrorCode>)
      modifies this
      ensures err == Refusal(old(View()), Refund(order, lines)) && View() == After(old(View()), Refund(order, lines))
    {
      if order !in orders {
        return Some(NotFound);
      }
      var allowed := {Paid, Shipped, Delivered};
      if orders[order].status !in allowed {
        return Some(Conflict);
      }
      if |lines| == 0 {
        return Some(BadRequest);
      }
      var orderItems := if order in items then items[order] else [];
      var built := BuildRefund(orderItems, lines);
      if built.None? {
        return Some(BadRequest);
      }
      refunds := refunds + [RefundRecord(order, built.value.0, built.value.1)];
      return None;
    }

    /** The loop over the refund lines: prices every line, or gives up at the first bad one. */
    method BuildRefund(orderItems: seq<OrderItem>, lines: seq<RefundLine>)
      returns (built: Option<(int, seq<RefundItem>)>)
      ensures built.Some? <==> AllRefundable(orderItems, lines)
      ensures built.Some? ==>
                built.value == (RefundTotal(RefundItemsOf(orderItems, lines)), RefundItemsOf(orderItems, lines))
    {
      var refundItems: seq<RefundItem> := [];
      var total := 0;
      for i := 0 to |lines|
        invariant forall j :: 0 <= j < i ==> Refundable(orderItems, lines[j])
        invariant refundItems == RefundItemsOf(orderItems, lines)[..i]
        invariant total == RefundTotal(refundItems)
      {
        var ri := lines[i];
        var k := FindItem(orderItems, ri.item);
        if k == |orderItems| {
          assert !Refundable(orderItems, lines[i]);
          return None;
        }
        var oi := orderItems[k];
        if ri.quantity <= 0 || ri.quantity as real > oi.quantity {
          assert !Refundable(orderItems, lines[i]);
          return None;
        }
        var itemTotal := oi.unitPrice * ri.quantity;
        total := total + itemTotal;
        var item := RefundItem(ri.item, ri.quantity, oi.unitPrice, itemTotal);
        assert (refundItems + [item])[..i] == refundItems;
        refundItems := refundItems + [item];
      }
      assert refundItems == RefundItemsOf(orderItems, lines);
      return Some((total, refundItems));
    }
  }

  // ---------- Totals agree in every run ----------

  ghost predicate FromLines(items: seq<OrderItem>) {
    && (forall i :: 0 <= i < |items| ==>
          items[i].total == Amount(items[i].unitPrice, items[i].quantity) - items[i].discount + items[i].tax)
    && (forall i, j :: 0 <= i < j < |items| ==> items[i].id != items[j].id)
  }

  /** The stored amounts of an order are those of its items. */
  ghost predicate Agrees(o: Order, items: seq<OrderItem>) {
    && FromLines(items)
    && o.subtotal == Subtotal(items) && o.discount == Discounts(items) && o.tax == Taxes(items)
    && o.total == o.subtotal - o.discount + o.tax
  }

  ghost predicate Consistent(t: Tables) {
    && OrdersAgree(t)
    && (forall k :: 0 <= k < |t.refunds| ==> Backed(t, t.refunds[k]))
  }

  /** A refund belongs to an order that has left draft, its lines name that order's items at their price. */
  ghost predicate Backed(t: Tables, r: RefundRecord) {
    && r.order in t.orders && t.orders[r.order].status !in {Draft, New}
    && r.order in t.items
    && r.total == RefundTotal(r.items)
    && (forall i :: 0 <= i < |r.items| ==> Matches(t.items[r.order], r.items[i]))
  }

  ghost predicate Matches(items: seq<OrderItem>, ri: RefundItem) {
    && FindItem(items, ri.item) < |items|
    && ri.quantity > 0
    && ri.total == UnitPriceOf(items, ri.item) * ri.quantity
  }

  ghost predicate OrdersAgree(t: Tables) {
    && t.orders.Keys == t.items.Keys
    && (forall id :: id in t.orders ==> id < t.nextId && t.orders[id].status != Assembling)
    && (forall id :: id in t.orders ==> Agrees(t.orders[id], t.items[id]))
  }

  lemma PricingAgrees(o: Order, lines: seq<LineInput>, firstId: Id)
    ensures Agrees(Priced(o, ItemsOf(lines, firstId)), ItemsOf(lines, firstId))
  {
  }

  lemma RowKeepsOrders(t: Tables, id: Id, o: Order, items: seq<OrderItem>, nextId: Id)
    requires OrdersAgree(t) && Agrees(o, items) && o.status != Assembling
    requires id < nextId && t.nextId <= nextId
    ensures OrdersAgree(t.(orders := t.orders[id := o], items := t.items[id := items], nextId := nextId))
  {
  }

  lemma CreateKeepsOrders(t: Tables, op: Op)
    requires OrdersAgree(t) && op.Create? && Refusal(t, op).None?
    ensures OrdersAgree(After(t, op))
  {
    var o := Order(Draft, 0, 0, 0, 0, op.warehouse, op.notes);
    PricingAgrees(o, op.lines, t.nextId + 1);
    RowKeepsOrders(t, t.nextId, Priced(o, ItemsOf(op.lines, t.nextId + 1)), ItemsOf(op.lines, t.nextId + 1),
                   t.nextId + 1 + |op.lines|);
  }

  lemma UpdateKeepsOrders(t: Tables, op: Op)
    requires OrdersAgree(t) && op.Update? && Refusal(t, op).None?
    ensures OrdersAgree(After(t, op))
  {
    var o := if op.newNotes.Some? then t.orders[op.order].(notes := op.newNotes.value) else t.orders[op.order];
    assert Agrees(t.orders[op.order], t.items[op.order]);
    if op.lines == [] {
      assert t.items[op.order := t.items[op.order]] == t.items;
      RowKeepsOrders(t, op.order, o, t.items[op.order], t.nextId);
    } else {
      PricingAgrees(o, op.lines, t.nextId);
      RowKeepsOrders(t, op.order, Priced(o, ItemsOf(op.lines, t.nextId)), ItemsOf(op.lines, t.nextId),
                     t.nextId + |op.lines|);
    }
  }

  lemma CallKeepsOrders(t: Tables, op: Op)
    requires OrdersAgree(t)
    ensures OrdersAgree(After(t, op))
  {
    if Refusal(t, op).None? {
      match op {
        case Create(_, _, _, _) => CreateKeepsOrders(t, op);
        case Update(_, _, _) => UpdateKeepsOrders(t, op);
        case Refund(_, _) =>
        case _ =>
          StatusCallSets(t, op);
          StatusKeepsOrders(t, op.order, StatusSetBy(op));
      }
    }
  }

  predicate SetsStatus(op: Op) { !op.Create? && !op.Update? && !op.Refund? }

  /** The status an accepted transition call leads to. */
  function StatusSetBy(op: Op): OrderStatus
    requires SetsStatus(op)
  {
    match op
    case Submit(_) => New
    case Confirm(_, _) => Confirmed
    case Pay(_) => Paid
    case Ship(_) => Shipped
    case Deliver(_) => Delivered
    case Cancel(_) => Cancelled
  }

  lemma StatusCallSets(t: Tables, op: Op)
    requires SetsStatus(op) && Refusal(t, op).None?
    ensures op.order in t.orders && After(t, op) == WithStatus(t, op.order, StatusSetBy(op))
  {
  }

  lemma StatusKeepsOrders(t: Tables, order: Id, status: OrderStatus)
    requires OrdersAgree(t) && order in t.orders && status != Assembling
    ensures OrdersAgree(WithStatus(t, order, status))
  {
    var t' := WithStatus(t, order, status);
    forall id | id in t'.orders ensures Agrees(t'.orders[id], t'.items[id]) {
      assert Agrees(t.orders[id], t.items[id]);
    }
  }

  lemma CallKeepsBacking(t: Tables, op: Op, r: RefundRecord)
    requires OrdersAgree(t) && Backed(t, r)
    ensures Backed(After(t, op), r)
  {
    CallMovesForward(t, op, r.order);
  }

  lemma CallStaysConsistent(t: Tables, op: Op)
    requires Consistent(t)
    ensures Consistent(After(t, op))
  {
    var t' := After(t, op);
    CallKeepsOrders(t, op);
    forall k | 0 <= k < |t'.refunds| ensures Backed(t', t'.refunds[k]) {
      if k < |t.refunds| {
        CallKeepsBacking(t, op, t.refunds[k]);
      } else {
        NewRefundBacked(t, op.order, op.refundLines);
      }
    }
  }

  lemma NewRefundBacked(t: Tables, order: Id, lines: seq<RefundLine>)
    requires OrdersAgree(t) && Refusal(t, Refund(order, lines)).None?
    ensures var ris := RefundItemsOf(ItemsOfOrder(t, order), lines);
            Backed(After(t, Refund(order, lines)), RefundRecord(order, RefundTotal(ris), ris))
  {
    var items := ItemsOfOrder(t, order);
    forall i | 0 <= i < |lines| ensures Matches(items, RefundItemsOf(items, lines)[i]) {
      assert Refundable(items, lines[i]);
    }
  }

  lemma {:induction false} RunStaysConsistent(t: Tables, ops: seq<Op>)
    requires Consistent(t)
    ensures Consistent(Run(t, ops))
  {
    if ops != [] {
      RunStaysConsistent(t, ops[..|ops| - 1]);
      CallStaysConsistent(Run(t, ops[..|ops| - 1]), ops[|ops| - 1]);
    }
  }

  lemma {:induction false} TotalsAddUp(items: seq<OrderItem>)
    requires FromLines(items)
    ensures ItemTotals(items) == Subtotal(items) - Discounts(items) + Taxes(items)
  {
    if items != [] {
      TotalsAddUp(items[..|items| - 1]);
    }
  }

  /** After any calls every order's total is the sum of its item totals and subtotal - discount + tax. */
  lemma OrderTotalsAgree(ops: seq<Op>, id: Id)
    requires id in Run(EMPTY_TABLES, ops).orders
    ensures var t := Run(EMPTY_TABLES, ops);
            && id in t.items
            && t.orders[id].total == ItemTotals(t.items[id])
            && t.orders[id].total == t.orders[id].subtotal - t.orders[id].discount + t.orders[id].tax
            && t.orders[id].subtotal == Subtotal(t.items[id])
  {
    RunStaysConsistent(EMPTY_TABLES, ops);
    TotalsAddUp(Run(EMPTY_TABLES, ops).items[id]);
  }

  // ---------- Status transitions ----------

  predicate CanMove(a: OrderStatus, b: OrderStatus) {
    match a
    case Draft => b in {New, Cancelled}
    case New => b in {Confirmed, Cancelled}
    case Confirmed => b in {Paid, Cancelled}
    case Paid => b in {Shipped, Cancelled}
    case Shipped => b == Delivered
    case _ => false
  }

  /** How far along an order is; every move goes up. */
  function Stage(s: OrderStatus): nat {
    match s
    case Draft => 0 case New => 1 case Confirmed => 2 case Paid => 3
    case Assembling => 3 case Shipped => 4 case Delivered => 5 case Cancelled => 5
  }

  /** The order is still there; its stage did not fall and rose if the status changed; once past draft and new, only
      the status can have changed. */
  ghost predicate Forward(t: Tables, t': Tables, id: Id) {
    && id in t.orders && id in t.items && id in t'.orders && id in t'.items
    && var a, b := t.orders[id], t'.orders[id];
       && (a.status == b.status || Stage(a.status) < Stage(b.status))
       && (a.status !in {Draft, New} ==> t'.items[id] == t.items[id] && b == a.(status := b.status))
  }

  lemma CallMovesForward(t: Tables, op: Op, id: Id)
    requires OrdersAgree(t) && id in t.orders
    ensures Forward(t, After(t, op), id)
    ensures var a, b := t.orders[id].status, After(t, op).orders[id].status; a == b || CanMove(a, b)
  {
    if Refusal(t, op).None? && SetsStatus(op) {
      StatusCallSets(t, op);
      StatusMovesForward(t, op.order, StatusSetBy(op), id);
    }
  }

  /** A status can change by some single call exactly along the allowed moves. */
  lemma MovesExactly(t: Tables, id: Id, to: OrderStatus)
    requires OrdersAgree(t) && id in t.orders && t.orders[id].status != to
    ensures (exists op :: id in After(t, op).orders && After(t, op).orders[id].status == to)
       <==> CanMove(t.orders[id].status, to)
  {
    forall op | id in After(t, op).orders && After(t, op).orders[id].status == to
      ensures CanMove(t.orders[id].status, to)
    {
      CallMovesForward(t, op, id);
    }
    if CanMove(t.orders[id].status, to) {
      var op := match to
                case New => Submit(id)
                case Confirmed => Confirm(id, true)
                case Paid => Pay(id)
                case Shipped => Ship(id)
                case Delivered => Deliver(id)
                case _ => Cancel(id);
      StatusCallSets(t, op);
      assert After(t, op).orders[id].status == to;
    }
  }

  lemma StatusMovesForward(t: Tables, order: Id, status: OrderStatus, id: Id)
    requires OrdersAgree(t) && id in t.orders && order in t.orders && CanMove(t.orders[order].status, status)
    ensures Forward(t, WithStatus(t, order, status), id)
    ensures WithStatus(t, order, status).orders[id].status in {t.orders[id].status, status}
    ensures WithStatus(t, order, status).orders[id].status != t.orders[id].status ==> id == order
  {
  }

  /** Along any run an order's stage never falls and rises whenever its status changes; from confirmation on its items
      and amounts are fixed; delivered and cancelled orders never change again. */
  lemma {:induction false} OrdersMoveForward(t: Tables, ops: seq<Op>, id: Id)
    requires Consistent(t) && id in t.orders
    ensures Forward(t, Run(t, ops), id)
    ensures t.orders[id].status in {Delivered, Cancelled} ==> Run(t, ops).orders[id] == t.orders[id]
  {
    if ops != [] {
      var before := Run(t, ops[..|ops| - 1]);
      OrdersMoveForward(t, ops[..|ops| - 1], id);
      RunStaysConsistent(t, ops[..|ops| - 1]);
      CallMovesForward(before, ops[|ops| - 1], id);
    }
  }

  // ---------- Refunds ----------

  /** All that the refund lines take back of one item. */
  function Refunded(ris: seq<RefundItem>, id: Id): int {
    if ris == [] then 0
    else Refunded(ris[..|ris| - 1], id) + (if ris[|ris| - 1].item == id then ris[|ris| - 1].quantity else 0)
  }

  /** The refunded quantities priced item by item. */
  function PricedRefund(items: seq<OrderItem>, ris: seq<RefundItem>): int {
    if items == [] then 0
    else
      PricedRefund(items[..|items| - 1], ris)
      + items[|items| - 1].unitPrice * Refunded(ris, items[|items| - 1].id)
  }

  ghost predicate DistinctIds(items: seq<OrderItem>) {
    forall i, j :: 0 <= i < j < |items| ==> items[i].id != items[j].id
  }

  lemma PriceOfPosition(items: seq<OrderItem>, k: nat)
    requires DistinctIds(items) && k < |items|
    ensures FindItem(items, items[k].id) == k
  {
  }

  /** One more refund line adds its price to the item it names. */
  lemma {:induction false} PricedRefundAdds(items: seq<OrderItem>, ris: seq<RefundItem>, ri: RefundItem)
    requires DistinctIds(items)
    ensures PricedRefund(items, ris + [ri]) == PricedRefund(items, ris)
              + (if FindItem(items, ri.item) < |items| then UnitPriceOf(items, ri.item) * ri.quantity else 0)
  {
    assert (ris + [ri])[..|ris|] == ris;
    if items != [] {
      var n := |items| - 1;
      var before, last := items[..n], items[n];
      PricedRefundAdds(before, ris, ri);
      var more := if last.id == ri.item then ri.quantity else 0;
      assert Refunded(ris + [ri], last.id) == Refunded(ris, last.id) + more;
      assert last.unitPrice * (Refunded(ris, last.id) + more)
          == last.unitPrice * Refunded(ris, last.id) + last.unitPrice * more;
      if last.id == ri.item {
        PriceOfPosition(items, n);
      } else if FindItem(before, ri.item) < n {
        PriceOfPosition(items, FindItem(before, ri.item));
      }
    }
  }

  lemma {:induction false} RefundRegroups(items: seq<OrderItem>, ris: seq<RefundItem>)
    requires DistinctIds(items)
    requires forall i :: 0 <= i < |ris| ==> Matches(items, ris[i])
    ensures RefundTotal(ris) == PricedRefund(items, ris)
  {
    if ris == [] {
      NothingRefunded(items);
    } else {
      var before := ris[..|ris| - 1];
      RefundRegroups(items, before);
      PricedRefundAdds(items, before, ris[|ris| - 1]);
      assert before + [ris[|ris| - 1]] == ris;
    }
  }

  lemma {:induction false} NothingRefunded(items: seq<OrderItem>)
    ensures PricedRefund(items, []) == 0
  {
    if items != [] {
      NothingRefunded(items[..|items| - 1]);
    }
  }

  ghost predicate NonnegativeItems(items: seq<OrderItem>) {
    forall i :: 0 <= i < |items| ==> items[i].unitPrice >= 0 && items[i].quantity >= 0.0
  }

  ghost predicate WithinQuantities(items: seq<OrderItem>, ris: seq<RefundItem>) {
    forall i :: 0 <= i < |items| ==> Refunded(ris, items[i].id) as real <= items[i].quantity
  }

  lemma PartOfAmount(unitPrice: int, n: int, quantity: real)
    requires unitPrice >= 0 && n as real <= quantity
    ensures unitPrice * n <= Amount(unitPrice, quantity)
  {
    assert (unitPrice * n) as real == unitPrice as real * n as real;
    assert unitPrice as real * (quantity - n as real) >= 0.0;
    RoundBetween(unitPrice * n, unitPrice as real * quantity, 0);
  }

  lemma {:induction false} PricedRefundBound(items: seq<OrderItem>, ris: seq<RefundItem>)
    requires NonnegativeItems(items) && WithinQuantities(items, ris)
    ensures PricedRefund(items, ris) <= Subtotal(items)
  {
    if items != [] {
      var last := items[|items| - 1];
      PricedRefundBound(items[..|items| - 1], ris);
      PartOfAmount(last.unitPrice, Refunded(ris, last.id), last.quantity);
    }
  }

  /** All refund lines of an order, over any number of refunds. */
  function LinesFor(refunds: seq<RefundRecord>, order: Id): seq<RefundItem> {
    if refunds == [] then []
    else
      LinesFor(refunds[..|refunds| - 1], order)
      + (if refunds[|refunds| - 1].order == order then refunds[|refunds| - 1].items else [])
  }

  function RefundedFor(refunds: seq<RefundRecord>, order: Id): int {
    if refunds == [] then 0
    else
      RefundedFor(refunds[..|refunds| - 1], order)
      + (if refunds[|refunds| - 1].order == order then refunds[|refunds| - 1].total else 0)
  }

  lemma {:induction false} RefundTotalAppends(a: seq<RefundItem>, b: seq<RefundItem>)
    ensures RefundTotal(a + b) == RefundTotal(a) + RefundTotal(b)
  {
    if b == [] {
      assert a + b == a;
    } else {
      RefundTotalAppends(a, b[..|b| - 1]);
      assert (a + b)[..|a + b| - 1] == a + b[..|b| - 1];
    }
  }

  lemma {:induction false} RefundsCollect(t: Tables, refunds: seq<RefundRecord>, order: Id)
    requires order in t.items && forall k :: 0 <= k < |refunds| ==> Backed(t, refunds[k])
    ensures RefundedFor(refunds, order) == RefundTotal(LinesFor(refunds, order))
    ensures forall i :: 0 <= i < |LinesFor(refunds, order)| ==> Matches(t.items[order], LinesFor(refunds, order)[i])
  {
    if refunds != [] {
      var before, last := refunds[..|refunds| - 1], refunds[|refunds| - 1];
      RefundsCollect(t, before, order);
      assert Backed(t, last);
      RefundTotalAppends(LinesFor(before, order), if last.order == order then last.items else []);
    }
  }

  /** In every run: if prices and quantities are nonnegative and all refunds together stay, item by item, within the
      ordered quantity, then everything ever refunded on an order is at most its subtotal, roundings included. */
  lemma RefundsWithinSubtotal(ops: seq<Op>, order: Id)
    requires var t := Run(EMPTY_TABLES, ops);
             && order in t.orders && order in t.items
             && NonnegativeItems(t.items[order])
             && WithinQuantities(t.items[order], LinesFor(t.refunds, order))
    ensures var t := Run(EMPTY_TABLES, ops);
            RefundedFor(t.refunds, order) <= t.orders[order].subtotal
  {
    var t := Run(EMPTY_TABLES, ops);
    RunStaysConsistent(EMPTY_TABLES, ops);
    RefundsCollect(t, t.refunds, order);
    RefundRegroups(t.items[order], LinesFor(t.refunds, order));
    PricedRefundBound(t.items[order], LinesFor(t.refunds, order));
  }

  ghost predicate EachItemOnce(lines: seq<RefundLine>) {
    forall i, j :: 0 <= i < j < |lines| ==> lines[i].item != lines[j].item
  }

  lemma {:induction false} RefundedOnce(items: seq<OrderItem>, lines: seq<RefundLine>, id: Id)
    requires EachItemOnce(lines)
    ensures forall k :: 0 <= k < |lines| && lines[k].item == id ==>
              Refunded(RefundItemsOf(items, lines), id) == lines[k].quantity
    ensures (forall k :: 0 <= k < |lines| ==> lines[k].item != id) ==> Refunded(RefundItemsOf(items, lines), id) == 0
  {
    if lines != [] {
      var n := |lines| - 1;
      RefundedOnce(items, lines[..n], id);
      assert RefundItemsOf(items, lines)[..n] == RefundItemsOf(items, lines[..n]);
      assert forall k :: 0 <= k < n ==> lines[..n][k].item != lines[n].item;
    }
  }

  /** One accepted refund that names each item at most once is worth at most the order's subtotal. */
  lemma OneRefundWithinSubtotal(ops: seq<Op>, order: Id, lines: seq<RefundLine>)
    requires Refusal(Run(EMPTY_TABLES, ops), Refund(order, lines)).None? && EachItemOnce(lines)
    requires NonnegativeItems(ItemsOfOrder(Run(EMPTY_TABLES, ops), order))
    ensures var t := Run(EMPTY_TABLES, ops);
            var after := After(t, Refund(order, lines));
            && |after.refunds| == |t.refunds| + 1
            && after.refunds[|t.refunds|].total <= t.orders[order].subtotal
  {
    var t := Run(EMPTY_TABLES, ops);
    RunStaysConsistent(EMPTY_TABLES, ops);
    var items := t.items[order];
    var ris := RefundItemsOf(items, lines);
    forall i | 0 <= i < |items| ensures Refunded(ris, items[i].id) as real <= items[i].quantity {
      RefundedOnce(items, lines, items[i].id);
      if k :| 0 <= k < |lines| && lines[k].item == items[i].id {
        assert Refundable(items, lines[k]);
        PriceOfPosition(items, i);
      }
    }
    RefundRegroups(items, ris);
    PricedRefundBound(items, ris);
  }

  // ---------- The same refund again and again ----------

  function Times(op: Op, n: nat): seq<Op> { seq(n, i requires 0 <= i < n => op) }

  /** `t'` is `t` with `more` refunded on the order; the refund lines would still be accepted. */
  ghost predicate RefundedMore(t: Tables, t': Tables, order: Id, lines: seq<RefundLine>, more: int) {
    && Refusal(t', Refund(order, lines)).None?
    && t'.orders == t.orders && t'.items == t.items
    && RefundedFor(t'.refunds, order) == RefundedFor(t.refunds, order) + more
  }

  lemma {:induction false} RefundRepeats(t: Tables, order: Id, lines: seq<RefundLine>, n: nat)
    requires Refusal(t, Refund(order, lines)).None?
    ensures var total := RefundTotal(RefundItemsOf(ItemsOfOrder(t, order), lines));
            RefundedMore(t, Run(t, Times(Refund(order, lines), n)), order, lines, n * total)
  {
    var op, total := Refund(order, lines), RefundTotal(RefundItemsOf(ItemsOfOrder(t, order), lines));
    if n > 0 {
      RefundRepeats(t, order, lines, n - 1);
      assert Times(op, n)[..n - 1] == Times(op, n - 1);
      var before := Run(t, Times(op, n - 1));
      RefundPasses(before, order, lines);
      MoreChains(t, before, After(before, op), order, lines, (n - 1) * total, total);
      OneTimeMore(n, total);
    }
  }

  lemma OneTimeMore(n: int, total: int)
    ensures (n - 1) * total + total == n * total
  {
  }

  lemma MoreChains(t: Tables, t': Tables, t'': Tables, order: Id, lines: seq<RefundLine>, a: int, b: int)
    requires RefundedMore(t, t', order, lines, a) && RefundedMore(t', t'', order, lines, b)
    ensures RefundedMore(t, t'', order, lines, a + b)
  {
  }

  /** Earlier refunds are not taken into account: an accepted refund is accepted any number of times, counts every time,
      and stays within the subtotal if and only if that sum does. */
  lemma SameRefundPassesAgain(t: Tables, order: Id, lines: seq<RefundLine>, n: nat)
    requires Refusal(t, Refund(order, lines)).None?
    ensures var t' := Run(t, Times(Refund(order, lines), n));
            var total := RefundTotal(RefundItemsOf(ItemsOfOrder(t, order), lines));
            && RefundedMore(t, t', order, lines, n * total)
            && (RefundedFor(t'.refunds, order) <= t'.orders[order].subtotal <==>
                  RefundedFor(t.refunds, order) + n * total <= t.orders[order].subtotal)
  {
    RefundRepeats(t, order, lines, n);
  }

  lemma RefundPasses(t: Tables, order: Id, lines: seq<RefundLine>)
    requires Refusal(t, Refund(order, lines)).None?
    ensures RefundedMore(t, After(t, Refund(order, lines)), order, lines,
                         RefundTotal(RefundItemsOf(ItemsOfOrder(t, order), lines)))
  {
    assert After(t, Refund(order, lines)).refunds[..|t.refunds|] == t.refunds;
  }

  lemma {:induction false} RunChains(t: Tables, a: seq<Op>, b: seq<Op>)
    ensures Run(t, a + b) == Run(Run(t, a), b)
  {
    if b == [] {
      assert a + b == a;
    } else {
      RunChains(t, a, b[..|b| - 1]);
      assert (a + b)[..|a + b| - 1] == a + b[..|b| - 1];
    }
  }

  /** One unit at 10, ordered and paid. */
  const PAID_ORDER := [Create(true, None, [LineInput(0, 1.0, 10, 0, 0)], ""), Submit(0), Confirm(0, true), Pay(0)]

  function PricedOrder(status: OrderStatus): Tables {
    Tables(map[0 := Order(status, 10, 0, 0, 10, None, "")], map[0 := [OrderItem(1, 0, 1.0, 10, 0, 0, 10)]], [], 2)
  }

  lemma OrderCreated()
    ensures After(EMPTY_TABLES, PAID_ORDER[0]) == PricedOrder(Draft)
  {
    var items := ItemsOf([LineInput(0, 1.0, 10, 0, 0)], 1);
    assert items == [OrderItem(1, 0, 1.0, 10, 0, 0, 10)] && items[..0] == [];
    assert Subtotal(items) == 10 && Discounts(items) == 0 && Taxes(items) == 0;
  }

  lemma StatusSet(a: OrderStatus, b: OrderStatus)
    ensures WithStatus(PricedOrder(a), 0, b) == PricedOrder(b)
  {
    assert WithStatus(PricedOrder(a), 0, b).orders == PricedOrder(b).orders;
  }

  lemma {:induction false} RunLast(t: Tables, before: seq<Op>, op: Op, ops: seq<Op>)
    requires ops == before + [op]
    ensures Run(t, ops) == After(Run(t, before), op)
  {
    assert ops[..|ops| - 1] == before;
  }

  lemma OrderPaid()
    ensures Run(EMPTY_TABLES, PAID_ORDER) == PricedOrder(Paid)
  {
    OrderCreated();
    StatusSet(Draft, New);
    StatusSet(New, Confirmed);
    StatusSet(Confirmed, Paid);
    var ops := PAID_ORDER;
    RunLast(EMPTY_TABLES, [], ops[0], ops[..1]);
    RunLast(EMPTY_TABLES, ops[..1], ops[1], ops[..2]);
    RunLast(EMPTY_TABLES, ops[..2], ops[2], ops[..3]);
    RunLast(EMPTY_TABLES, ops[..3], ops[3], ops);
  }

  /** A reachable order of 10 on which 10 * n is refunded, for any n. */
  lemma RefundsExceedSubtotal(n: nat)
    ensures var t := Run(EMPTY_TABLES, PAID_ORDER + Times(Refund(0, [RefundLine(1, 1)]), n));
            0 in t.orders && t.orders[0].subtotal == 10 && RefundedFor(t.refunds, 0) == 10 * n
  {
    var t, lines := Run(EMPTY_TABLES, PAID_ORDER), [RefundLine(1, 1)];
    OrderPaid();
    var items := ItemsOfOrder(t, 0);
    assert Refundable(items, lines[0]);
    var ris := RefundItemsOf(items, lines);
    assert ris == [RefundItem(1, 1, 10, 10)] && ris[..0] == [];
    assert RefundTotal(ris) == 10;
    SameRefundPassesAgain(t, 0, lines, n);
    RunChains(EMPTY_TABLES, PAID_ORDER, Times(Refund(0, lines), n));
  }

  // ---------- What orders and refunds are made of ----------

  /** The order's value without any rounding. */
  function ExactSubtotal(items: seq<OrderItem>): real {
    if items == [] then 0.0
    else
      var last := items[|items| - 1];
      ExactSubtotal(items[..|items| - 1]) + last.unitPrice as real * last.quantity
  }

  /** The subtotal is off by at most half a kopeck per item. */
  lemma {:induction false} SubtotalNearExact(items: seq<OrderItem>)
    ensures -(|items| as real) / 2.0 <= Subtotal(items) as real - ExactSubtotal(items) <= |items| as real / 2.0
  {
    if items != [] {
      var last := items[|items| - 1];
      SubtotalNearExact(items[..|items| - 1]);
      RoundNear(last.unitPrice as real * last.quantity);
    }
  }

  /** The stored items are those asked for, in their order. */
  ghost predicate ItemsMirror(items: seq<OrderItem>, lines: seq<LineInput>) {
    |items| == |lines|
    && forall i :: 0 <= i < |lines| ==>
         && items[i].product == lines[i].product && items[i].quantity == lines[i].quantity
         && items[i].unitPrice == lines[i].unitPrice
         && items[i].discount == lines[i].discount && items[i].tax == lines[i].tax
  }

  /** An accepted creation stores a draft with the lines asked for; an accepted update with lines replaces them; without
      lines it keeps items and amounts. */
  lemma PricedCallsMirror(t: Tables, op: Op)
    ensures op.Create? && Refusal(t, op).None? ==>
              && t.nextId in After(t, op).orders && After(t, op).orders[t.nextId].status == Draft
              && After(t, op).orders[t.nextId].warehouse == op.warehouse
              && After(t, op).orders[t.nextId].notes == op.notes
              && t.nextId in After(t, op).items && ItemsMirror(After(t, op).items[t.nextId], op.lines)
    ensures op.Update? && Refusal(t, op).None? && op.lines != [] ==>
              op.order in After(t, op).items && ItemsMirror(After(t, op).items[op.order], op.lines)
    ensures op.Update? && Refusal(t, op).None? && op.lines == [] ==>
              After(t, op).items == t.items && op.order in After(t, op).orders
              && After(t, op).orders[op.order].subtotal == t.orders[op.order].subtotal
              && After(t, op).orders[op.order].total == t.orders[op.order].total
  {
  }

  /** No call moves an order to another warehouse, and only an update with notes changes its notes, to these. */
  lemma DetailsStay(t: Tables, op: Op, id: Id)
    ensures id in t.orders && (op.Create? ==> id != t.nextId) ==>
              && id in After(t, op).orders && After(t, op).orders[id].warehouse == t.orders[id].warehouse
              && After(t, op).orders[id].notes
                 == (if op.Update? && op.order == id && op.newNotes.Some? && t.orders[id].status in {Draft, New}
                     then op.newNotes.value else t.orders[id].notes)
  {
  }

  /** When drafts can be created, orders updated and refunds accepted, in terms of the order alone. A refusal says that
      the arguments are bad, that the order is missing, or that its status or the stock forbids the call. */
  lemma AcceptedExactly(t: Tables, op: Op)
    ensures op.Create? ==> (Refusal(t, op).None? <==> op.lines != [] && op.customerOk)
    ensures op.Update? ==> (Refusal(t, op).None? <==> op.order in t.orders && t.orders[op.order].status in {Draft, New})
    ensures op.Refund? ==>
              (Refusal(t, op).None? <==>
                 && op.order in t.orders && t.orders[op.order].status in {Paid, Shipped, Delivered}
                 && op.refundLines != []
                 && forall i :: 0 <= i < |op.refundLines| ==> NamesItem(ItemsOfOrder(t, op.order), op.refundLines[i]))
    ensures Refusal(t, op) == Some(NotFound) <==> !op.Create? && op.order !in t.orders
    ensures Refusal(t, op) == Some(BadRequest) ==> op.Create? || op.Refund?
    ensures Refusal(t, op) == Some(Conflict) && op.Refund? ==>
              t.orders[op.order].status !in {Paid, Shipped, Delivered}
    ensures Refusal(t, op) == Some(Conflict) ==> !op.Create? && op.order in t.orders
    ensures Refusal(t, op) != Some(StorageError)
  {
    if op.Refund? {
      forall i | 0 <= i < |op.refundLines|
        ensures Refundable(ItemsOfOrder(t, op.order), op.refundLines[i])
           <==> NamesItem(ItemsOfOrder(t, op.order), op.refundLines[i])
      {
        FirstIsNamed(ItemsOfOrder(t, op.order), op.refundLines[i]);
      }
    }
  }

  /** The line names an item of the order, the first with that id, and takes back from one unit to all of it. */
  predicate NamesItem(items: seq<OrderItem>, line: RefundLine) {
    exists k :: 0 <= k < |items| && items[k].id == line.item && (forall j :: 0 <= j < k ==> items[j].id != line.item)
                && 1 <= line.quantity && line.quantity as real <= items[k].quantity
  }

  lemma FirstIsNamed(items: seq<OrderItem>, line: RefundLine)
    ensures Refundable(items, line) <==> NamesItem(items, line)
  {
    var k := FindItem(items, line.item);
    if NamesItem(items, line) {
      var j :| 0 <= j < |items| && items[j].id == line.item && (forall i :: 0 <= i < j ==> items[i].id != line.item)
               && 1 <= line.quantity && line.quantity as real <= items[j].quantity;
      assert k == j;
    }
  }
}
