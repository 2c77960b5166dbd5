/** The order event handlers that reserve and release stock line by line. */
module Reservations {
  import opened Common
  import opened Stock
  import StockRuns

  datatype Line = Line(product: Id, quantity: real)

  // ---------- The handlers ----------

  function ReserveLines(t: Tables, warehouse: Id, lines: seq<Line>): Tables {
    if lines == [] then t
    else
      var line := lines[|lines| - 1];
      After(ReserveLines(t, warehouse, lines[..|lines| - 1]), Reserve(Slot(line.product, warehouse), line.quantity))
  }

  function UnreserveLines(t: Tables, warehouse: Id, lines: seq<Line>): Tables {
    if lines == [] then t
    else
      var line := lines[|lines| - 1];
      After(UnreserveLines(t, warehouse, lines[..|lines| - 1]), Unreserve(Slot(line.product, warehouse), line.quantity))
  }

  /** order.confirmed: a line that cannot be reserved is logged and skipped. */
  method OnOrderConfirmed(stock: Warehouse, warehouse: Option<Id>, lines: seq<Line>)
    modifies stock
    ensures warehouse.None? ==> stock.View() == old(stock.View())
    ensures warehouse.Some? ==> stock.View() == ReserveLines(old(stock.View()), warehouse.value, lines)
  {
    if warehouse.None? {
      return;
    }
    for i := 0 to |lines|
      invariant stock.View() == ReserveLines(old(stock.View()), warehouse.value, lines[..i])
    {
      assert lines[..i + 1][..i] == lines[..i];
      var _ := stock.ReserveStock(Slot(lines[i].product, warehouse.value), lines[i].quantity);
    }
    assert lines[..|lines|] == lines;
  }

  /** order.cancelled */
  method OnOrderCancelled(stock: Warehouse, warehouse: Option<Id>, lines: seq<Line>)
    modifies stock
    ensures warehouse.None? ==> stock.View() == old(stock.View())
    ensures warehouse.Some? ==> stock.View() == UnreserveLines(old(stock.View()), warehouse.value, lines)
  {
    if warehouse.None? {
      return;
    }
    for i := 0 to |lines|
      invariant stock.View() == UnreserveLines(old(stock.View()), warehouse.value, lines[..i])
    {
      assert lines[..i + 1][..i] == lines[..i];
      var _ := stock.UnreserveStock(Slot(lines[i].product, warehouse.value), lines[i].quantity);
    }
    assert lines[..|lines|] == lines;
  }

  // ---------- When every line gets its reservation ----------

  /** What a line asks of a product; a line without a positive quantity is always refused. */
  function Asks(line: Line, product: Id): real {
    if line.product == product && line.quantity > 0.0 then line.quantity else 0.0
  }

  /** All that the lines ask of one product. */
  function Demand(lines: seq<Line>, product: Id): real {
    if lines == [] then 0.0 else Demand(lines[..|lines| - 1], product) + Asks(lines[|lines| - 1], product)
  }

  ghost predicate Positive(lines: seq<Line>) { forall k :: 0 <= k < |lines| ==> lines[k].quantity > 0.0 }

  /** No call of the loop is refused. */
  ghost predicate AllReserved(t: Tables, warehouse: Id, lines: seq<Line>) {
    lines == []
    || (AllReserved(t, warehouse, lines[..|lines| - 1])
        && Refusal(ReserveLines(t, warehouse, lines[..|lines| - 1]),
                   Reserve(Slot(lines[|lines| - 1].product, warehouse), lines[|lines| - 1].quantity)).None?)
  }

  /** The whole demand for the product is available. */
  predicate Fits(t: Tables, warehouse: Id, lines: seq<Line>, product: Id) {
    var slot := Slot(product, warehouse);
    slot in t.levels && Demand(lines, product) <= t.levels[slot].Available()
  }

  ghost predicate DemandFits(t: Tables, warehouse: Id, lines: seq<Line>) {
    forall k :: 0 <= k < |lines| ==> Fits(t, warehouse, lines, lines[k].product)
  }

  /** Only reserved amounts of the warehouse may differ. */
  ghost predicate OnlyReserved(t: Tables, t': Tables, warehouse: Id) {
    && t'.levels.Keys == t.levels.Keys
    && t'.(levels := map[]) == t.(levels := map[])
    && forall slot :: slot in t.levels ==>
         && t'.levels[slot] == t.levels[slot].(reserved := t'.levels[slot].reserved)
         && (slot.warehouse != warehouse ==> t'.levels[slot] == t.levels[slot])
  }

  /** `t'` is `t` with the demand for each product reserved in addition. */
  ghost predicate ReservedMore(t: Tables, t': Tables, warehouse: Id, lines: seq<Line>) {
    && OnlyReserved(t, t', warehouse)
    && forall slot :: slot in t.levels && slot.warehouse == warehouse ==>
         t'.levels[slot].reserved == t.levels[slot].reserved + Demand(lines, slot.product)
  }

  lemma {:induction false} ReserveEffect(t: Tables, warehouse: Id, lines: seq<Line>)
    requires AllReserved(t, warehouse, lines)
    ensures ReservedMore(t, ReserveLines(t, warehouse, lines), warehouse, lines)
  {
    if lines != [] {
      ReserveEffect(t, warehouse, lines[..|lines| - 1]);
    }
  }

  lemma {:induction false} DemandNonnegative(lines: seq<Line>, product: Id)
    ensures Demand(lines, product) >= 0.0
  {
    if lines != [] {
      DemandNonnegative(lines[..|lines| - 1], product);
    }
  }

  /** The confirmed-order loop reserves every line if and only if all quantities are positive and, product by
      product, everything the order asks for is available. */
  lemma {:induction false} LoopReservesEveryLine(t: Tables, warehouse: Id, lines: seq<Line>)
    ensures AllReserved(t, warehouse, lines) <==> Positive(lines) && DemandFits(t, warehouse, lines)
  {
    if lines != [] {
      var before, line := lines[..|lines| - 1], lines[|lines| - 1];
      LoopReservesEveryLine(t, warehouse, before);
      if AllReserved(t, warehouse, before) {
        ReserveEffect(t, warehouse, before);
        LastLineFits(t, warehouse, lines);
        if AllReserved(t, warehouse, lines) {
          DemandStillFits(t, warehouse, lines);
        }
      }
      if Positive(lines) && DemandFits(t, warehouse, lines) {
        forall k | 0 <= k < |before| ensures Fits(t, warehouse, before, before[k].product) {
          assert Fits(t, warehouse, lines, lines[k].product);
        }
        assert Fits(t, warehouse, lines, line.product);
      }
    }
  }

  lemma LastLineFits(t: Tables, warehouse: Id, lines: seq<Line>)
    requires lines != [] && AllReserved(t, warehouse, lines[..|lines| - 1])
    requires ReservedMore(t, ReserveLines(t, warehouse, lines[..|lines| - 1]), warehouse, lines[..|lines| - 1])
    ensures AllReserved(t, warehouse, lines)
       <==> lines[|lines| - 1].quantity > 0.0 && Fits(t, warehouse, lines, lines[|lines| - 1].product)
  {
  }

  lemma DemandStillFits(t: Tables, warehouse: Id, lines: seq<Line>)
    requires lines != [] && DemandFits(t, warehouse, lines[..|lines| - 1])
    requires Fits(t, warehouse, lines, lines[|lines| - 1].product)
    ensures DemandFits(t, warehouse, lines)
  {
    var before, line := lines[..|lines| - 1], lines[|lines| - 1];
    forall k | 0 <= k < |lines| ensures Fits(t, warehouse, lines, lines[k].product) {
      if lines[k].product != line.product {
        assert before[k] == lines[k];
        assert Fits(t, warehouse, before, before[k].product);
      }
    }
  }

  function Checks(warehouse: Id, lines: seq<Line>): seq<CheckLine> {
    seq(|lines|, k requires 0 <= k < |lines| => CheckLine(Slot(lines[k].product, warehouse), lines[k].quantity))
  }

  ghost predicate DistinctProducts(lines: seq<Line>) {
    forall i, j :: 0 <= i < j < |lines| ==> lines[i].product != lines[j].product
  }

  lemma {:induction false} DemandOfOneLine(lines: seq<Line>, k: nat)
    requires DistinctProducts(lines) && k < |lines| && lines[k].quantity > 0.0
    ensures Demand(lines, lines[k].product) == lines[k].quantity
  {
    var n := |lines| - 1;
    if k == n {
      NoDemand(lines[..n], lines[n].product);
    } else {
      DemandOfOneLine(lines[..n], k);
    }
  }

  lemma {:induction false} NoDemand(lines: seq<Line>, product: Id)
    requires forall k :: 0 <= k < |lines| ==> lines[k].product != product
    ensures Demand(lines, product) == 0.0
  {
    if lines != [] {
      NoDemand(lines[..|lines| - 1], product);
    }
  }

  /** An order with distinct products and positive quantities that passes the availability check gets every line. */
  lemma CheckedOrderIsReserved(t: Tables, warehouse: Id, lines: seq<Line>)
    requires DistinctProducts(lines) && Positive(lines)
    requires EachAvailable(t, Checks(warehouse, lines))
    ensures AllReserved(t, warehouse, lines)
  {
    forall k | 0 <= k < |lines| ensures Fits(t, warehouse, lines, lines[k].product) {
      DemandOfOneLine(lines, k);
      assert NeedsAvailable(t, Checks(warehouse, lines)[k].slot, Checks(warehouse, lines)[k].quantity).None?;
    }
    LoopReservesEveryLine(t, warehouse, lines);
  }

  /** The check takes lines one at a time, so with ten units received an order that repeats a product can pass it and
      lose a line. */
  lemma RepeatedProductSlipsThrough()
    ensures exists ops: seq<Op> :: PassesAndLosesLine(Run(EMPTY_TABLES, ops))
  {
    StockRuns.TenReceived();
    SixTwiceOfTen(Run(EMPTY_TABLES, StockRuns.TEN_RECEIVED));
  }

  const SIX_TWICE := [Line(0, 6.0), Line(0, 6.0)]

  /** Six units ordered twice pass the check and one of the lines is refused. */
  ghost predicate PassesAndLosesLine(t: Tables) {
    Positive(SIX_TWICE) && EachAvailable(t, Checks(0, SIX_TWICE)) && !AllReserved(t, 0, SIX_TWICE)
  }

  lemma SixTwice()
    ensures SIX_TWICE[..1] == [Line(0, 6.0)] && Demand([Line(0, 6.0)], 0) == 6.0 && Demand(SIX_TWICE, 0) == 12.0
  {
    assert SIX_TWICE[..1] == [Line(0, 6.0)] && [Line(0, 6.0)][..0] == [];
  }

  lemma SixTwiceOfTen(t: Tables)
    requires Slot(0, 0) in t.levels && t.levels[Slot(0, 0)].Available() == 10.0
    ensures PassesAndLosesLine(t)
  {
    SixTwice();
    LoopReservesEveryLine(t, 0, SIX_TWICE);
    assert !Fits(t, 0, SIX_TWICE, SIX_TWICE[0].product);
  }

  // ---------- Confirming and cancelling ----------

  function AddDemand(product: Id): (real, Line) -> real { (x: real, l: Line) => x + Asks(l, product) }

  lemma {:induction false} DemandIsFold(lines: seq<Line>, product: Id)
    ensures Demand(lines, product) == Fold(AddDemand(product), 0.0, lines)
  {
    if lines != [] {
      DemandIsFold(lines[..|lines| - 1], product);
    }
  }

  lemma DemandIgnoresOrder(a: seq<Line>, b: seq<Line>, product: Id)
    requires multiset(a) == multiset(b)
    ensures |a| == |b| && Demand(a, product) == Demand(b, product)
  {
    FoldIgnoresOrder(AddDemand(product), 0.0, a, b);
    DemandIsFold(a, product);
    DemandIsFold(b, product);
  }

  lemma {:induction false} DemandOfLine(lines: seq<Line>, k: nat)
    requires k < |lines|
    ensures lines[k].quantity > 0.0 ==> Demand(lines, lines[k].product) > 0.0
  {
    DemandNonnegative(lines[..|lines| - 1], lines[k].product);
    if k < |lines| - 1 {
      DemandOfLine(lines[..|lines| - 1], k);
    }
  }

  lemma {:induction false} SomeLineAsks(lines: seq<Line>, product: Id)
    ensures Demand(lines, product) != 0.0 ==>
              exists k :: 0 <= k < |lines| && lines[k].product == product && lines[k].quantity > 0.0
  {
    if lines != [] {
      SomeLineAsks(lines[..|lines| - 1], product);
    }
  }

  /** What the confirmed-order loop manages to reserve of one product: the lines that fit beside those before. */
  function Taken(t: Tables, warehouse: Id, lines: seq<Line>, product: Id): real {
    if lines == [] then 0.0
    else
      var before, asks := Taken(t, warehouse, lines[..|lines| - 1], product), Asks(lines[|lines| - 1], product);
      var slot := Slot(product, warehouse);
      if slot in t.levels && before + asks <= t.levels[slot].Available() then before + asks else before
  }

  lemma {:induction false} ReserveTakes(t: Tables, warehouse: Id, lines: seq<Line>)
    ensures var t' := ReserveLines(t, warehouse, lines);
            && OnlyReserved(t, t', warehouse)
            && forall slot :: slot in t.levels && slot.warehouse == warehouse ==>
                 t'.levels[slot].reserved == t.levels[slot].reserved + Taken(t, warehouse, lines, slot.product)
  {
    if lines != [] {
      ReserveTakes(t, warehouse, lines[..|lines| - 1]);
    }
  }

  /** No more than the demand is taken, and all of it exactly when it fits. */
  lemma {:induction false} TakenIsDemand(t: Tables, warehouse: Id, lines: seq<Line>, product: Id)
    requires Slot(product, warehouse) in t.levels
    ensures Taken(t, warehouse, lines, product) <= Demand(lines, product)
    ensures Taken(t, warehouse, lines, product) == Demand(lines, product) <==>
              Demand(lines, product) == 0.0 || Fits(t, warehouse, lines, product)
  {
    if lines != [] {
      TakenIsDemand(t, warehouse, lines[..|lines| - 1], product);
      DemandNonnegative(lines[..|lines| - 1], product);
    }
  }

  ghost predicate NonnegativeReservations(t: Tables) {
    forall slot :: slot in t.levels ==> t.levels[slot].reserved >= 0.0
  }

  function Lowered(amount: real, demand: real): real { if amount <= demand then 0.0 else amount - demand }

  /** The cancelled-order loop takes the demand off every reserved amount, down to zero at most. */
  lemma {:induction false} UnreserveEffect(t: Tables, warehouse: Id, lines: seq<Line>)
    requires NonnegativeReservations(t)
    ensures var t' := UnreserveLines(t, warehouse, lines);
            && OnlyReserved(t, t', warehouse)
            && forall slot :: slot in t.levels && slot.warehouse == warehouse ==>
                 t'.levels[slot].reserved == Lowered(t.levels[slot].reserved, Demand(lines, slot.product))
  {
    if lines != [] {
      var before, line := lines[..|lines| - 1], lines[|lines| - 1];
      UnreserveEffect(t, warehouse, before);
      DemandNonnegative(before, line.product);
    }
  }

  lemma RestoredBySlot(t: Tables, t': Tables, warehouse: Id)
    requires OnlyReserved(t, t', warehouse)
    ensures t' == t <==> forall slot :: slot in t.levels && slot.warehouse == warehouse ==>
                           t'.levels[slot].reserved == t.levels[slot].reserved
  {
    if forall slot :: slot in t.levels && slot.warehouse == warehouse ==>
         t'.levels[slot].reserved == t.levels[slot].reserved {
      assert t'.levels == t.levels;
    }
  }

  /** A product whose reservations the round trip leaves alone: its whole demand fits, or nothing was reserved. */
  predicate Unharmed(t: Tables, warehouse: Id, lines: seq<Line>, product: Id) {
    Fits(t, warehouse, lines, product) || Reserved(t, Slot(product, warehouse)) == 0.0
  }

  ghost predicate AllUnharmed(t: Tables, warehouse: Id, lines: seq<Line>) {
    forall k :: 0 <= k < |lines| && lines[k].quantity > 0.0 ==> Unharmed(t, warehouse, lines, lines[k].product)
  }

  lemma SlotRestored(t: Tables, warehouse: Id, lines: seq<Line>, released: seq<Line>, slot: Slot)
    requires NonnegativeReservations(t) && multiset(released) == multiset(lines)
    requires slot in t.levels && slot.warehouse == warehouse
    ensures var u := UnreserveLines(ReserveLines(t, warehouse, lines), warehouse, released);
            slot in u.levels
            && (u.levels[slot].reserved == t.levels[slot].reserved <==>
                  Demand(lines, slot.product) == 0.0 || Unharmed(t, warehouse, lines, slot.product))
  {
    ReservationsStayNonnegative(t, warehouse, lines);
    ReserveTakes(t, warehouse, lines);
    UnreserveEffect(ReserveLines(t, warehouse, lines), warehouse, released);
    TakenIsDemand(t, warehouse, lines, slot.product);
    DemandIgnoresOrder(released, lines, slot.product);
    DemandNonnegative(lines, slot.product);
  }

  lemma {:induction false} TakenNonnegative(t: Tables, warehouse: Id, lines: seq<Line>, product: Id)
    ensures Taken(t, warehouse, lines, product) >= 0.0
  {
    if lines != [] {
      TakenNonnegative(t, warehouse, lines[..|lines| - 1], product);
    }
  }

  lemma ReservationsStayNonnegative(t: Tables, warehouse: Id, lines: seq<Line>)
    requires NonnegativeReservations(t)
    ensures NonnegativeReservations(ReserveLines(t, warehouse, lines))
  {
    ReserveTakes(t, warehouse, lines);
    forall slot | slot in t.levels ensures Taken(t, warehouse, lines, slot.product) >= 0.0 {
      TakenNonnegative(t, warehouse, lines, slot.product);
    }
  }

  /** Confirming an order and cancelling it, whatever the loops refuse and in whatever order the lines are released,
      restores the tables exactly if and only if each product it asks for either fits in full or had nothing reserved.
      Otherwise the skipped lines eat reservations of other orders. */
  lemma CancelRestores(t: Tables, warehouse: Id, lines: seq<Line>, released: seq<Line>)
    requires NonnegativeReservations(t) && multiset(released) == multiset(lines)
    ensures UnreserveLines(ReserveLines(t, warehouse, lines), warehouse, released) == t
       <==> AllUnharmed(t, warehouse, lines)
  {
    var reserved := ReserveLines(t, warehouse, lines);
    var u := UnreserveLines(reserved, warehouse, released);
    ReserveTakes(t, warehouse, lines);
    ReservationsStayNonnegative(t, warehouse, lines);
    UnreserveEffect(reserved, warehouse, released);
    RestoredBySlot(t, u, warehouse);
    forall slot | slot in t.levels && slot.warehouse == warehouse
      ensures u.levels[slot].reserved == t.levels[slot].reserved <==>
                Demand(lines, slot.product) == 0.0 || Unharmed(t, warehouse, lines, slot.product)
    {
      SlotRestored(t, warehouse, lines, released, slot);
    }
    UnharmedBySlot(t, warehouse, lines);
  }

  lemma UnharmedBySlot(t: Tables, warehouse: Id, lines: seq<Line>)
    ensures AllUnharmed(t, warehouse, lines) <==>
              forall slot :: slot in t.levels && slot.warehouse == warehouse ==>
                Demand(lines, slot.product) == 0.0 || Unharmed(t, warehouse, lines, slot.product)
  {
    forall slot | slot in t.levels && slot.warehouse == warehouse && Demand(lines, slot.product) != 0.0
      ensures AllUnharmed(t, warehouse, lines) ==> Unharmed(t, warehouse, lines, slot.product)
    {
      SomeLineAsks(lines, slot.product);
    }
    forall k | 0 <= k < |lines| && lines[k].quantity > 0.0
      ensures Slot(lines[k].product, warehouse) !in t.levels ==> Unharmed(t, warehouse, lines, lines[k].product)
      ensures Demand(lines, lines[k].product) != 0.0
    {
      DemandOfLine(lines, k);
    }
  }

  /** In particular an order whose lines were all reserved gives everything back. */
  lemma ReservedOrderIsRestored(t: Tables, warehouse: Id, lines: seq<Line>, released: seq<Line>)
    requires NonnegativeReservations(t) && multiset(released) == multiset(lines)
    requires AllReserved(t, warehouse, lines)
    ensures UnreserveLines(ReserveLines(t, warehouse, lines), warehouse, released) == t
  {
    LoopReservesEveryLine(t, warehouse, lines);
    CancelRestores(t, warehouse, lines, released);
  }

  /** With ten units received and three reserved, an order passes the check, loses a line, and takes the three units of
      other orders with it when cancelled. */
  lemma SkippedLineEatsReservations()
    ensures exists ops: seq<Op> :: PassesAndEatsThree(Run(EMPTY_TABLES, ops))
  {
    StockRuns.SomeReserved(3.0);
    SixTwiceOfSeven(Run(EMPTY_TABLES, StockRuns.TEN_RECEIVED + [Reserve(Slot(0, 0), 3.0)]));
  }

  /** Three units are reserved by others; six units ordered twice pass the check; confirmed and cancelled, they leave
      nothing reserved. */
  ghost predicate PassesAndEatsThree(t: Tables) {
    && Reserved(t, Slot(0, 0)) == 3.0
    && EachAvailable(t, Checks(0, SIX_TWICE))
    && Reserved(UnreserveLines(ReserveLines(t, 0, SIX_TWICE), 0, SIX_TWICE), Slot(0, 0)) == 0.0
  }

  lemma SixTwiceOfSeven(t: Tables)
    requires NonnegativeReservations(t) && Slot(0, 0) in t.levels
    requires t.levels[Slot(0, 0)].Available() == 7.0 && t.levels[Slot(0, 0)].reserved == 3.0
    ensures PassesAndEatsThree(t)
  {
    SixTwice();
    ReserveTakes(t, 0, SIX_TWICE);
    ReservationsStayNonnegative(t, 0, SIX_TWICE);
    UnreserveEffect(ReserveLines(t, 0, SIX_TWICE), 0, SIX_TWICE);
    OneSixTaken(t);
  }

  lemma OneSixTaken(t: Tables)
    requires Slot(0, 0) in t.levels && t.levels[Slot(0, 0)].Available() == 7.0
    ensures Taken(t, 0, SIX_TWICE, 0) == 6.0
  {
    var first := [Line(0, 6.0)];
    assert SIX_TWICE[..1] == first && first[..0] == [];
    assert Taken(t, 0, [], 0) == 0.0 && Taken(t, 0, first, 0) == 6.0;
  }

  /** Cancelling an order that never reserved anything (a draft or new one) leaves the tables alone exactly when nothing
      at all is reserved for the products it asks for; otherwise it eats reservations of other orders. */
  lemma CancelWithoutReservation(t: Tables, warehouse: Id, lines: seq<Line>)
    requires NonnegativeReservations(t)
    ensures UnreserveLines(t, warehouse, lines) == t <==>
              forall k :: 0 <= k < |lines| && lines[k].quantity > 0.0 ==>
                Reserved(t, Slot(lines[k].product, warehouse)) == 0.0
  {
    var u := UnreserveLines(t, warehouse, lines);
    UnreserveEffect(t, warehouse, lines);
    RestoredBySlot(t, u, warehouse);
    forall k | 0 <= k < |lines| && lines[k].quantity > 0.0 && u == t
      ensures Reserved(t, Slot(lines[k].product, warehouse)) == 0.0
    {
      DemandOfLine(lines, k);
    }
    forall slot | slot in t.levels && slot.warehouse == warehouse
      ensures (forall k :: 0 <= k < |lines| && lines[k].quantity > 0.0 ==>
                 Reserved(t, Slot(lines[k].product, warehouse)) == 0.0) ==>
              u.levels[slot].reserved == t.levels[slot].reserved
    {
      if Demand(lines, slot.product) != 0.0 {
        SomeLineAsks(lines, slot.product);
        var k :| 0 <= k < |lines| && lines[k].product == slot.product && lines[k].quantity > 0.0;
        assert Slot(lines[k].product, warehouse) == slot;
      }
    }
  }
}
