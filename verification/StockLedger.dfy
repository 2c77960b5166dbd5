/** What every run of warehouse calls keeps: the journal explains the levels, transfers conserve stock,
    stocktaking is exact when nothing moved, and nothing goes negative. */
module StockLedger {
  import opened Common
  import opened Stock

  // ---------- The journal explains every level ----------

  /** What a movement adds to a slot. */
  function Effect(m: Movement, slot: Slot): real {
    match m.kind
    case Shipped => if slot == m.slot then -m.quantity else 0.0
    case Transferred =>
      (if slot == m.slot then -m.quantity else 0.0)
      + (if m.dest.Some? && slot == Slot(m.slot.product, m.dest.value) then m.quantity else 0.0)
    case _ => if slot == m.slot then m.quantity else 0.0
  }

  function JournalSum(movements: seq<Movement>, slot: Slot): real {
    if movements == [] then 0.0
    else JournalSum(movements[..|movements| - 1], slot) + Effect(movements[|movements| - 1], slot)
  }

  ghost predicate Explained(t: Tables) {
    forall slot: Slot :: Quantity(t, slot) == JournalSum(t.movements, slot)
  }

  lemma JournalAppend(movements: seq<Movement>, m: Movement)
    ensures forall slot: Slot :: JournalSum(movements + [m], slot) == JournalSum(movements, slot) + Effect(m, slot)
  {
    assert (movements + [m])[..|movements|] == movements;
  }

  /** Different products, and a discrepancy is always count minus snapshot. */
  ghost predicate SheetOk(items: seq<Item>) {
    && (forall i, j :: 0 <= i < j < |items| ==> items[i].product != items[j].product)
    && (forall i :: 0 <= i < |items| && items[i].actual.Some? ==>
          items[i].discrepancy == items[i].actual.value - items[i].expected)
  }

  ghost predicate SheetsOk(t: Tables) {
    forall id :: id in t.inventories ==> id < t.nextInventory && SheetOk(t.inventories[id].items)
  }

  /** Every listed product is still at its snapshot quantity. */
  ghost predicate Unmoved(t: Tables, inventory: Id)
    requires inventory in t.inventories
  {
    var inv := t.inventories[inventory];
    forall i :: 0 <= i < |inv.items| ==> Quantity(t, Slot(inv.items[i].product, inv.warehouse)) == inv.items[i].expected
  }

  /** Every product on the sheet stands at its count. */
  ghost predicate AtCount(t: Tables, warehouse: Id, items: seq<Item>)
    requires AllCounted(items)
  {
    forall i :: 0 <= i < |items| ==> Quantity(t, Slot(items[i].product, warehouse)) == items[i].actual.value
  }

  predicate Applies(t: Tables, op: Op) { op.ApplyInventory? && Refusal(t, op).None? }

  lemma OtherCallsStayExplained(t: Tables, op: Op)
    requires Explained(t) && !Applies(t, op)
    ensures Explained(After(t, op))
  {
    var t' := After(t, op);
    if |t'.movements| > |t.movements| {
      JournalAppend(t.movements, t'.movements[|t.movements|]);
    }
  }

  /** The state of one slot before and after booking the items of a sheet. */
  ghost predicate ItemBooked(t: Tables, t': Tables, slot: Slot, item: Item)
    requires item.actual.Some?
  {
    && Quantity(t', slot) == (if item.discrepancy == 0.0 then Quantity(t, slot) else item.actual.value)
    && JournalSum(t'.movements, slot) == JournalSum(t.movements, slot) + item.discrepancy
  }

  ghost predicate SlotUntouched(t: Tables, t': Tables, slot: Slot) {
    && Quantity(t', slot) == Quantity(t, slot)
    && JournalSum(t'.movements, slot) == JournalSum(t.movements, slot)
  }

  predicate OnSheet(warehouse: Id, items: seq<Item>, slot: Slot) {
    slot.warehouse == warehouse && exists i :: 0 <= i < |items| && items[i].product == slot.product
  }

  lemma BookedHere(t: Tables, slot: Slot, item: Item)
    requires item.actual.Some?
    ensures ItemBooked(t, Booked(t, slot, item), slot, item)
  {
    if item.discrepancy != 0.0 {
      var m := Movement(Adjusted, slot, item.discrepancy, None, None);
      JournalAppend(t.movements, m);
      assert Effect(m, slot) == item.discrepancy;
      assert Booked(t, slot, item).movements == t.movements + [m];
    }
  }

  lemma BookedElsewhere(t: Tables, slot: Slot, item: Item, other: Slot)
    requires item.actual.Some? && other != slot
    ensures SlotUntouched(t, Booked(t, slot, item), other)
  {
    if item.discrepancy != 0.0 {
      var m := Movement(Adjusted, slot, item.discrepancy, None, None);
      JournalAppend(t.movements, m);
      assert Effect(m, other) == 0.0;
      assert Booked(t, slot, item).movements == t.movements + [m];
    }
  }

  lemma {:induction false} SettledEffect(t: Tables, warehouse: Id, items: seq<Item>)
    requires SheetOk(items) && AllCounted(items)
    ensures forall i :: 0 <= i < |items| ==>
              ItemBooked(t, Settled(t, warehouse, items), Slot(items[i].product, warehouse), items[i])
    ensures forall slot: Slot :: !OnSheet(warehouse, items, slot) ==>
              SlotUntouched(t, Settled(t, warehouse, items), slot)
  {
    if items != [] {
      var n := |items| - 1;
      var before, item := Settled(t, warehouse, items[..n]), items[n];
      SettledEffect(t, warehouse, items[..n]);
      var slot := Slot(item.product, warehouse);
      assert SlotUntouched(t, before, slot);
      BookedHere(before, slot, item);
      var after := Settled(t, warehouse, items);
      forall i | 0 <= i < |items|
        ensures ItemBooked(t, after, Slot(items[i].product, warehouse), items[i])
      {
        if i < n {
          assert items[..n][i] == items[i];
          assert ItemBooked(t, before, Slot(items[i].product, warehouse), items[i]);
          BookedElsewhere(before, slot, item, Slot(items[i].product, warehouse));
        }
      }
      forall other: Slot | !OnSheet(warehouse, items, other) ensures SlotUntouched(t, after, other) {
        assert items[n].product == item.product;
        assert forall i :: 0 <= i < n ==> items[..n][i] == items[i];
        assert SlotUntouched(t, before, other);
        BookedElsewhere(before, slot, item, other);
      }
    }
  }

  /** The sheet books its snapshot discrepancy, not the difference from current stock. Applying it keeps the journal
      exact precisely when every product with a discrepancy is still at its snapshot quantity. */
  lemma ApplyStaysExplained(t: Tables, inventory: Id)
    requires Explained(t) && SheetsOk(t) && Applies(t, ApplyInventory(inventory))
    ensures var inv := t.inventories[inventory];
            Explained(After(t, ApplyInventory(inventory))) <==>
              forall i :: 0 <= i < |inv.items| && inv.items[i].discrepancy != 0.0 ==>
                Quantity(t, Slot(inv.items[i].product, inv.warehouse)) == inv.items[i].expected
  {
    var inv := t.inventories[inventory];
    var t' := After(t, ApplyInventory(inventory));
    var settled := Settled(t, inv.warehouse, inv.items);
    SettledEffect(t, inv.warehouse, inv.items);
    if Explained(t') {
      forall i | 0 <= i < |inv.items| && inv.items[i].discrepancy != 0.0
        ensures Quantity(t, Slot(inv.items[i].product, inv.warehouse)) == inv.items[i].expected
      {
        var slot := Slot(inv.items[i].product, inv.warehouse);
        assert ItemBooked(t, settled, slot, inv.items[i]);
        assert Quantity(t', slot) == JournalSum(t'.movements, slot);
        assert Quantity(t, slot) == JournalSum(t.movements, slot);
      }
    }
    if forall i :: 0 <= i < |inv.items| && inv.items[i].discrepancy != 0.0 ==>
         Quantity(t, Slot(inv.items[i].product, inv.warehouse)) == inv.items[i].expected {
      forall slot: Slot ensures Quantity(t', slot) == JournalSum(t'.movements, slot) {
        assert Quantity(t, slot) == JournalSum(t.movements, slot);
        if OnSheet(inv.warehouse, inv.items, slot) {
          var i :| 0 <= i < |inv.items| && inv.items[i].product == slot.product;
          assert ItemBooked(t, settled, Slot(inv.items[i].product, inv.warehouse), inv.items[i]);
        } else {
          assert SlotUntouched(t, settled, slot);
        }
      }
    }
  }

  /** Applying a sheet keeps the journal exact and leaves every listed product at its count if and only if every
      listed product is still at its snapshot quantity. */
  lemma ApplyIsExact(t: Tables, inventory: Id)
    requires Explained(t) && SheetsOk(t) && Applies(t, ApplyInventory(inventory))
    ensures var inv, t' := t.inventories[inventory], After(t, ApplyInventory(inventory));
            Explained(t') && AtCount(t', inv.warehouse, inv.items) <==> Unmoved(t, inventory)
  {
    var inv, t' := t.inventories[inventory], After(t, ApplyInventory(inventory));
    var settled := Settled(t, inv.warehouse, inv.items);
    ApplyStaysExplained(t, inventory);
    SettledEffect(t, inv.warehouse, inv.items);
    forall i | 0 <= i < |inv.items|
      ensures var slot := Slot(inv.items[i].product, inv.warehouse);
              Quantity(t', slot) ==
              if inv.items[i].discrepancy == 0.0 then Quantity(t, slot) else inv.items[i].actual.value
    {
      assert ItemBooked(t, settled, Slot(inv.items[i].product, inv.warehouse), inv.items[i]);
    }
  }

  // ---------- Runs ----------

  /** Listings come from the table, and a sheet is applied only while its products are at their snapshot. */
  ghost predicate Clean(t: Tables, op: Op) {
    && (op.StartInventory? ==> IsListing(t, op.warehouse, op.listing))
    && (Applies(t, op) ==> Unmoved(t, op.inventory))
  }

  ghost predicate CleanRun(t: Tables, ops: seq<Op>) {
    ops == [] || (CleanRun(t, ops[..|ops| - 1]) && Clean(Run(t, ops[..|ops| - 1]), ops[|ops| - 1]))
  }

  lemma CallsKeepSheets(t: Tables, op: Op)
    requires SheetsOk(t) && (op.StartInventory? ==> Distinct(op.listing))
    ensures SheetsOk(After(t, op))
  {
    if Applies(t, op) {
      SettledKeepsInventories(t, t.inventories[op.inventory].warehouse, t.inventories[op.inventory].items);
    }
  }

  lemma {:induction false} CleanRunExplained(t: Tables, ops: seq<Op>)
    requires Explained(t) && SheetsOk(t) && CleanRun(t, ops)
    ensures Explained(Run(t, ops)) && SheetsOk(Run(t, ops))
  {
    if ops != [] {
      var before, op := ops[..|ops| - 1], ops[|ops| - 1];
      CleanRunExplained(t, before);
      CallsKeepSheets(Run(t, before), op);
      if Applies(Run(t, before), op) {
        ApplyIsExact(Run(t, before), op.inventory);
      } else {
        OtherCallsStayExplained(Run(t, before), op);
      }
    }
  }

  /** From empty stock, after every clean run, each level's quantity is the signed sum of its movements. */
  lemma JournalExplainsLevels(ops: seq<Op>)
    requires CleanRun(EMPTY_TABLES, ops)
    ensures forall slot: Slot :: Quantity(Run(EMPTY_TABLES, ops), slot)
                              == JournalSum(Run(EMPTY_TABLES, ops).movements, slot)
  {
    CleanRunExplained(EMPTY_TABLES, ops);
  }

  // ---------- A stocktaking session ----------

  /** The call may change a quantity in the warehouse. */
  predicate MovesStock(t: Tables, op: Op, warehouse: Id) {
    match op
    case Receive(slot, _, _) => slot.warehouse == warehouse
    case Ship(slot, _) => slot.warehouse == warehouse
    case Transfer(_, source, target, _) => source == warehouse || target == warehouse
    case Adjust(slot, _, _) => slot.warehouse == warehouse
    case ApplyInventory(inventory) => inventory in t.inventories && t.inventories[inventory].warehouse == warehouse
    case _ => false
  }

  ghost predicate Quiet(t: Tables, ops: seq<Op>, warehouse: Id) {
    ops == [] || (Quiet(t, ops[..|ops| - 1], warehouse)
                  && !MovesStock(Run(t, ops[..|ops| - 1]), ops[|ops| - 1], warehouse))
  }

  lemma {:induction false} SettledElsewhere(t: Tables, warehouse: Id, items: seq<Item>, slot: Slot)
    requires AllCounted(items) && slot.warehouse != warehouse
    ensures Quantity(Settled(t, warehouse, items), slot) == Quantity(t, slot)
  {
    if items != [] {
      SettledElsewhere(t, warehouse, items[..|items| - 1], slot);
    }
  }

  /** A sheet keeps its warehouse, its products and its snapshot quantities. */
  ghost predicate SameSheet(a: Inventory, b: Inventory) {
    && a.warehouse == b.warehouse && |a.items| == |b.items|
    && (forall i :: 0 <= i < |a.items| ==>
          a.items[i].product == b.items[i].product && a.items[i].expected == b.items[i].expected)
  }

  lemma CallKeepsSheet(t: Tables, op: Op, id: Id)
    requires SheetsOk(t) && id in t.inventories
    ensures id in After(t, op).inventories && SameSheet(t.inventories[id], After(t, op).inventories[id])
  {
    if Applies(t, op) {
      SettledKeepsInventories(t, t.inventories[op.inventory].warehouse, t.inventories[op.inventory].items);
    }
  }

  lemma {:induction false} QuietRun(t: Tables, ops: seq<Op>, warehouse: Id, id: Id)
    requires Explained(t) && SheetsOk(t) && CleanRun(t, ops) && Quiet(t, ops, warehouse)
    requires id in t.inventories
    ensures forall p: Id :: Quantity(Run(t, ops), Slot(p, warehouse)) == Quantity(t, Slot(p, warehouse))
    ensures id in Run(t, ops).inventories && SameSheet(t.inventories[id], Run(t, ops).inventories[id])
  {
    if ops != [] {
      var before, op := ops[..|ops| - 1], ops[|ops| - 1];
      QuietRun(t, before, warehouse, id);
      CleanRunExplained(t, before);
      CallKeepsSheet(Run(t, before), op, id);
      forall p: Id ensures Quantity(Run(t, ops), Slot(p, warehouse)) == Quantity(t, Slot(p, warehouse)) {
        var u, slot := Run(t, before), Slot(p, warehouse);
        if Applies(u, op) {
          SettledElsewhere(u, u.inventories[op.inventory].warehouse, u.inventories[op.inventory].items, slot);
        }
      }
    }
  }

  /** Start, any calls that move no stock in that warehouse, apply: every listed product ends at its count and the
      journal still explains every level. */
  lemma StocktakingSession(t: Tables, warehouse: Id, listing: seq<Id>, ops: seq<Op>)
    requires Explained(t) && SheetsOk(t) && IsListing(t, warehouse, listing)
    requires var started := After(t, StartInventory(warehouse, listing));
             && CleanRun(started, ops) && Quiet(started, ops, warehouse)
             && Refusal(Run(started, ops), ApplyInventory(t.nextInventory)).None?
    ensures var counted := Run(After(t, StartInventory(warehouse, listing)), ops);
            var items := counted.inventories[t.nextInventory].items;
            var applied := After(counted, ApplyInventory(t.nextInventory));
            && Explained(applied)
            && |items| == |listing|
            && (forall i :: 0 <= i < |listing| ==>
                  items[i].product == listing[i]
                  && Quantity(applied, Slot(listing[i], warehouse)) == items[i].actual.value)
  {
    var id := t.nextInventory;
    var started := After(t, StartInventory(warehouse, listing));
    OtherCallsStayExplained(t, StartInventory(warehouse, listing));
    CallsKeepSheets(t, StartInventory(warehouse, listing));
    QuietRun(started, ops, warehouse, id);
    CleanRunExplained(started, ops);
    var counted := Run(started, ops);
    var items := counted.inventories[id].items;
    forall i | 0 <= i < |items|
      ensures items[i].product == listing[i]
              && Quantity(counted, Slot(items[i].product, warehouse)) == items[i].expected
    {
      assert started.inventories[id].items[i].expected == Quantity(t, Slot(listing[i], warehouse));
    }
    ApplyIsExact(counted, id);
  }

  // ---------- Transfers conserve stock ----------

  function Total(t: Tables, product: Id, warehouses: seq<Id>): real {
    if warehouses == [] then 0.0
    else Quantity(t, Slot(product, warehouses[0])) + Total(t, product, warehouses[1..])
  }

  lemma {:induction false} TotalShift(t: Tables, t': Tables, product: Id, warehouses: seq<Id>, w: Id, delta: real)
    requires Distinct(warehouses)
    requires forall v :: v in warehouses ==>
               Quantity(t', Slot(product, v)) == Quantity(t, Slot(product, v)) + (if v == w then delta else 0.0)
    ensures Total(t', product, warehouses) == Total(t, product, warehouses) + (if w in warehouses then delta else 0.0)
  {
    if warehouses != [] {
      assert forall v :: v in warehouses[1..] ==> v in warehouses;
      TotalShift(t, t', product, warehouses[1..], w, delta);
      if warehouses[0] == w {
        assert w !in warehouses[1..];
      }
    }
  }

  /** A transfer leaves every product's total unchanged over any set of warehouses holding both ends or neither. */
  lemma TransferConserves(t: Tables, product: Id, source: Id, target: Id, quantity: real, p: Id, warehouses: seq<Id>)
    requires Distinct(warehouses) && (source in warehouses <==> target in warehouses)
    ensures Total(After(t, Transfer(product, source, target, quantity)), p, warehouses) == Total(t, p, warehouses)
  {
    var op := Transfer(product, source, target, quantity);
    if Refusal(t, op).None? {
      var src := t.levels[Slot(product, source)];
      var taken := t.(levels := t.levels[Slot(product, source) := src.(quantity := src.quantity - quantity)]);
      var moved := if p == product then quantity else 0.0;
      TotalShift(t, taken, p, warehouses, source, -moved);
      TotalShift(taken, After(t, op), p, warehouses, target, moved);
    }
  }

  // ---------- Nothing goes negative ----------

  ghost predicate NonnegativeLevels(t: Tables) {
    forall slot :: slot in t.levels ==> t.levels[slot].quantity >= 0.0 && t.levels[slot].reserved >= 0.0
  }

  ghost predicate NonnegativeSheet(items: seq<Item>) {
    forall i :: 0 <= i < |items| && items[i].actual.Some? ==> items[i].actual.value >= 0.0
  }

  ghost predicate NonnegativeSheets(t: Tables) {
    forall id :: id in t.inventories ==> NonnegativeSheet(t.inventories[id].items)
  }

  predicate NonnegativeCount(op: Op) { op.CountItem? ==> op.actual >= 0.0 }

  lemma {:induction false} SettledNonnegative(t: Tables, warehouse: Id, items: seq<Item>)
    requires NonnegativeLevels(t) && AllCounted(items)
    requires forall i :: 0 <= i < |items| && items[i].discrepancy != 0.0 ==> items[i].actual.value >= 0.0
    ensures NonnegativeLevels(Settled(t, warehouse, items))
  {
    if items != [] {
      SettledNonnegative(t, warehouse, items[..|items| - 1]);
    }
  }

  /** Applying a sheet keeps all levels nonnegative exactly when no counted quantity it books is negative. */
  lemma ApplyStaysNonnegative(t: Tables, inventory: Id)
    requires NonnegativeLevels(t) && SheetsOk(t) && Applies(t, ApplyInventory(inventory))
    ensures NonnegativeLevels(After(t, ApplyInventory(inventory))) <==>
              forall i :: 0 <= i < |t.inventories[inventory].items|
                          && t.inventories[inventory].items[i].discrepancy != 0.0
                          ==> t.inventories[inventory].items[i].actual.value >= 0.0
  {
    var inv, t' := t.inventories[inventory], After(t, ApplyInventory(inventory));
    var settled := Settled(t, inv.warehouse, inv.items);
    if forall i :: 0 <= i < |inv.items| && inv.items[i].discrepancy != 0.0 ==> inv.items[i].actual.value >= 0.0 {
      SettledNonnegative(t, inv.warehouse, inv.items);
    }
    SettledEffect(t, inv.warehouse, inv.items);
    forall i | 0 <= i < |inv.items| && inv.items[i].discrepancy != 0.0 && NonnegativeLevels(t')
      ensures inv.items[i].actual.value >= 0.0
    {
      var slot := Slot(inv.items[i].product, inv.warehouse);
      assert ItemBooked(t, settled, slot, inv.items[i]);
      assert Quantity(t', slot) == inv.items[i].actual.value;
      assert slot in t'.levels ==> t'.levels[slot].quantity >= 0.0;
    }
  }

  lemma CallStaysNonnegative(t: Tables, op: Op)
    requires NonnegativeLevels(t) && NonnegativeSheets(t) && NonnegativeCount(op)
    ensures NonnegativeLevels(After(t, op)) && NonnegativeSheets(After(t, op))
  {
    if Applies(t, op) {
      var inv := t.inventories[op.inventory];
      SettledNonnegative(t, inv.warehouse, inv.items);
      SettledKeepsInventories(t, inv.warehouse, inv.items);
    }
  }

  lemma {:induction false} RunStaysNonnegative(ops: seq<Op>)
    requires forall k :: 0 <= k < |ops| ==> NonnegativeCount(ops[k])
    ensures NonnegativeLevels(Run(EMPTY_TABLES, ops)) && NonnegativeSheets(Run(EMPTY_TABLES, ops))
  {
    if ops != [] {
      RunStaysNonnegative(ops[..|ops| - 1]);
      CallStaysNonnegative(Run(EMPTY_TABLES, ops[..|ops| - 1]), ops[|ops| - 1]);
    }
  }

  /** No run with nonnegative counts makes a quantity or a reserved amount negative. */
  lemma StockNeverNegative(ops: seq<Op>, slot: Slot)
    requires forall k :: 0 <= k < |ops| ==> NonnegativeCount(ops[k])
    ensures Quantity(Run(EMPTY_TABLES, ops), slot) >= 0.0 && Reserved(Run(EMPTY_TABLES, ops), slot) >= 0.0
  {
    RunStaysNonnegative(ops);
  }

  ghost predicate Covered(t: Tables) {
    forall slot :: slot in t.levels ==> 0.0 <= t.levels[slot].reserved <= t.levels[slot].quantity
  }

  /** Every item whose count is booked was counted at no less than what is reserved. */
  ghost predicate CountsCover(t: Tables, warehouse: Id, items: seq<Item>)
    requires AllCounted(items)
  {
    forall i :: 0 <= i < |items| && items[i].discrepancy != 0.0 ==>
      items[i].actual.value >= Reserved(t, Slot(items[i].product, warehouse))
  }

  lemma {:induction false} SettledKeepsReserved(t: Tables, warehouse: Id, items: seq<Item>)
    requires AllCounted(items)
    ensures forall slot: Slot :: Reserved(Settled(t, warehouse, items), slot) == Reserved(t, slot)
  {
    if items != [] {
      SettledKeepsReserved(t, warehouse, items[..|items| - 1]);
    }
  }

  lemma {:induction false} SettledCovered(t: Tables, warehouse: Id, items: seq<Item>)
    requires Covered(t) && AllCounted(items) && CountsCover(t, warehouse, items)
    ensures Covered(Settled(t, warehouse, items))
  {
    if items != [] {
      SettledCovered(t, warehouse, items[..|items| - 1]);
      SettledKeepsReserved(t, warehouse, items[..|items| - 1]);
    }
  }

  /** Applying a sheet keeps reserved amounts covered exactly when every count it books is at least what is reserved. */
  lemma ApplyCovers(t: Tables, inventory: Id)
    requires Covered(t) && SheetsOk(t) && Applies(t, ApplyInventory(inventory))
    ensures var inv := t.inventories[inventory];
            Covered(After(t, ApplyInventory(inventory))) <==> CountsCover(t, inv.warehouse, inv.items)
  {
    var inv, t' := t.inventories[inventory], After(t, ApplyInventory(inventory));
    var settled := Settled(t, inv.warehouse, inv.items);
    if CountsCover(t, inv.warehouse, inv.items) {
      SettledCovered(t, inv.warehouse, inv.items);
    }
    SettledEffect(t, inv.warehouse, inv.items);
    SettledKeepsReserved(t, inv.warehouse, inv.items);
    forall i | 0 <= i < |inv.items| && inv.items[i].discrepancy != 0.0 && Covered(t')
      ensures inv.items[i].actual.value >= Reserved(t, Slot(inv.items[i].product, inv.warehouse))
    {
      var slot := Slot(inv.items[i].product, inv.warehouse);
      assert ItemBooked(t, settled, slot, inv.items[i]);
      assert Quantity(t', slot) == inv.items[i].actual.value;
      assert slot in t'.levels ==> t'.levels[slot].reserved <= t'.levels[slot].quantity;
    }
  }

  /** The call does not set a level below what is reserved there. */
  ghost predicate RespectsReserved(t: Tables, op: Op) {
    match op
    case Adjust(slot, newQuantity, _) => Refusal(t, op).None? ==> newQuantity >= Reserved(t, slot)
    case ApplyInventory(inventory) =>
      Applies(t, op) ==> CountsCover(t, t.inventories[inventory].warehouse, t.inventories[inventory].items)
    case _ => true
  }

  ghost predicate RespectfulRun(ops: seq<Op>) {
    ops == []
    || (RespectfulRun(ops[..|ops| - 1]) && RespectsReserved(Run(EMPTY_TABLES, ops[..|ops| - 1]), ops[|ops| - 1]))
  }

  /** In every run whose adjustments and applied counts do not go below what is reserved at that moment, no more is ever
      reserved than is there. */
  lemma {:induction false} ReservedIsCovered(ops: seq<Op>)
    requires RespectfulRun(ops)
    ensures Covered(Run(EMPTY_TABLES, ops))
    ensures forall slot: Slot :: Reserved(Run(EMPTY_TABLES, ops), slot) <= Quantity(Run(EMPTY_TABLES, ops), slot)
  {
    if ops != [] {
      ReservedIsCovered(ops[..|ops| - 1]);
      var t, op := Run(EMPTY_TABLES, ops[..|ops| - 1]), ops[|ops| - 1];
      if Applies(t, op) {
        var inv := t.inventories[op.inventory];
        SettledCovered(t, inv.warehouse, inv.items);
      }
    }
  }

  /** Runs without adjustments and applied sheets are of that kind. */
  lemma {:induction false} QuietRunsAreRespectful(ops: seq<Op>)
    requires forall k :: 0 <= k < |ops| ==> !ops[k].Adjust? && !ops[k].ApplyInventory?
    ensures RespectfulRun(ops)
  {
    if ops != [] {
      QuietRunsAreRespectful(ops[..|ops| - 1]);
    }
  }

  /** Without adjustments and applied sheets no more is ever reserved than is there. */
  lemma QuietRunsStayCovered(ops: seq<Op>, slot: Slot)
    requires forall k :: 0 <= k < |ops| ==> !ops[k].Adjust? && !ops[k].ApplyInventory?
    ensures Reserved(Run(EMPTY_TABLES, ops), slot) <= Quantity(Run(EMPTY_TABLES, ops), slot)
  {
    QuietRunsAreRespectful(ops);
    ReservedIsCovered(ops);
  }

  /** An adjustment keeps reserved amounts covered exactly when it does not go below what is reserved. */
  lemma AdjustmentCovers(t: Tables, slot: Slot, newQuantity: real, reason: string)
    requires Covered(t) && Refusal(t, Adjust(slot, newQuantity, reason)).None?
    ensures Covered(After(t, Adjust(slot, newQuantity, reason))) <==> newQuantity >= Reserved(t, slot)
  {
    var t' := After(t, Adjust(slot, newQuantity, reason));
    assert slot in t'.levels;
  }
}
