/** The warehouse service: stock levels, the movement journal, reservations and stocktaking.
    Quantities are exact reals; the tables are those of one organization. */
module Stock {
  import opened Common

  type Id = nat

  datatype Slot = Slot(product: Id, warehouse: Id)

  datatype Level = Level(quantity: real, reserved: real, cost: Option<int>) {
    function Available(): real { quantity - reserved }
  }

  const NO_STOCK := Level(0.0, 0.0, None)

  datatype MovementKind = Received | Shipped | Transferred | Adjusted

  datatype Movement = Movement(kind: MovementKind, slot: Slot, quantity: real, dest: Option<Id>, cost: Option<int>)

  datatype InventoryStatus = InProgress | Applied | Cancelled

  datatype Item = Item(product: Id, expected: real, actual: Option<real>, discrepancy: real)

  datatype Inventory = Inventory(warehouse: Id, status: InventoryStatus, items: seq<Item>)

  datatype Tables = Tables(levels: map<Slot, Level>, movements: seq<Movement>,
                           inventories: map<Id, Inventory>, nextInventory: Id)

  const EMPTY_TABLES := Tables(map[], [], map[], 0)

  datatype Op =
    | Receive(slot: Slot, quantity: real, cost: Option<int>)
    | Ship(slot: Slot, quantity: real)
    | Transfer(product: Id, source: Id, target: Id, quantity: real)
    | Adjust(slot: Slot, newQuantity: real, reason: string)
    | Reserve(slot: Slot, quantity: real)
    | Unreserve(slot: Slot, quantity: real)
    | StartInventory(warehouse: Id, listing: seq<Id>)
    | CountItem(inventory: Id, product: Id, actual: real)
    | ApplyInventory(inventory: Id)
    | CancelInventory(inventory: Id)

  // ---------- What each call does to the tables ----------

  function LevelAt(levels: map<Slot, Level>, slot: Slot): Level {
    if slot in levels then levels[slot] else NO_STOCK
  }

  function Quantity(t: Tables, slot: Slot): real { LevelAt(t.levels, slot).quantity }

  function Reserved(t: Tables, slot: Slot): real { LevelAt(t.levels, slot).reserved }

  function NeedsAvailable(t: Tables, slot: Slot, quantity: real): Option<ErrorCode> {
    if slot !in t.levels then Some(NotFound)
    else if t.levels[slot].Available() < quantity then Some(Conflict)
    else None
  }

  function NeedsInProgress(t: Tables, inventory: Id): Option<ErrorCode> {
    if inventory !in t.inventories then Some(NotFound)
    else if t.inventories[inventory].status != InProgress then Some(Conflict)
    else None
  }

  /** The error a call is refused with, if any. */
  function Refusal(t: Tables, op: Op): Option<ErrorCode> {
    match op
    case Receive(slot, quantity, _) => if quantity <= 0.0 then Some(BadRequest) else None
    case Ship(slot, quantity) => if quantity <= 0.0 then Some(BadRequest) else NeedsAvailable(t, slot, quantity)
    case Transfer(product, source, target, quantity) =>
      if quantity <= 0.0 || source == target then Some(BadRequest)
      else NeedsAvailable(t, Slot(product, source), quantity)
    case Adjust(slot, newQuantity, reason) =>
      if newQuantity < 0.0 || reason == "" then Some(BadRequest) else None
    case Reserve(slot, quantity) => if quantity <= 0.0 then Some(BadRequest) else NeedsAvailable(t, slot, quantity)
    case Unreserve(slot, quantity) =>
      if quantity <= 0.0 then Some(BadRequest) else if slot !in t.levels then Some(NotFound) else None
    case StartInventory(_, _) => None
    case CountItem(inventory, product, _) =>
      var refusal := NeedsInProgress(t, inventory);
      if refusal.Some? then refusal
      else if FindItem(t.inventories[inventory].items, product) == |t.inventories[inventory].items| then Some(NotFound)
      else None
    case ApplyInventory(inventory) =>
      var refusal := NeedsInProgress(t, inventory);
      if refusal.Some? then refusal
      else if exists i :: 0 <= i < |t.inventories[inventory].items| && t.inventories[inventory].items[i].actual.None?
      then Some(BadRequest)
      else None
    case CancelInventory(inventory) => NeedsInProgress(t, inventory)
  }

  /** The value of old and new stock together, rounded to a whole kopeck. */
  function TotalCost(oldCost: int, oldQuantity: real, cost: int, quantity: real): int {
    Round(oldCost as real * oldQuantity + cost as real * quantity)
  }

  function PerUnit(totalCost: int, quantity: real): int
    requires quantity != 0.0
  {
    Round(totalCost as real / quantity)
  }

  /** Weighted average cost after a costed receipt. */
  function AverageCost(level: Level, quantity: real, cost: int): int {
    if level.quantity == 0.0 || level.quantity + quantity == 0.0 then cost
    else
      var oldCost := if level.cost.Some? then level.cost.value else 0;
      PerUnit(TotalCost(oldCost, level.quantity, cost, quantity), level.quantity + quantity)
  }

  function AfterReceipt(level: Level, quantity: real, cost: Option<int>): Level {
    Level(level.quantity + quantity, level.reserved,
          if cost.Some? then Some(AverageCost(level, quantity, cost.value)) else level.cost)
  }

  function AfterShipment(level: Level, quantity: real): Level {
    level.(quantity := level.quantity - quantity,
           reserved := if level.reserved >= quantity then level.reserved - quantity else level.reserved)
  }

  function AfterUnreserve(level: Level, quantity: real): Level {
    level.(reserved := if level.reserved < quantity then 0.0 else level.reserved - quantity)
  }

  /** The position of the first item for the product, or the number of items. */
  function FindItem(items: seq<Item>, product: Id): (k: nat)
    ensures k <= |items|
    ensures k < |items| ==> items[k].product == product
    ensures forall j :: 0 <= j < k ==> items[j].product != product
  {
    if items == [] || items[0].product == product then 0 else 1 + FindItem(items[1..], product)
  }

  function Counted(item: Item, actual: real): Item {
    item.(actual := Some(actual), discrepancy := actual - item.expected)
  }

  function Snapshot(t: Tables, warehouse: Id, listing: seq<Id>): seq<Item> {
    seq(|listing|, i requires 0 <= i < |listing| =>
      Item(listing[i], Quantity(t, Slot(listing[i], warehouse)), None, 0.0))
  }

  predicate AllCounted(items: seq<Item>) { forall i :: 0 <= i < |items| ==> items[i].actual.Some? }

  /** An item with a discrepancy sets its level to the count and books the discrepancy. */
  function Booked(t: Tables, slot: Slot, item: Item): Tables
    requires item.actual.Some?
  {
    if item.discrepancy == 0.0 then t
    else
      t.(levels := t.levels[slot := LevelAt(t.levels, slot).(quantity := item.actual.value)],
         movements := t.movements + [Movement(Adjusted, slot, item.discrepancy, None, None)])
  }

  function Settled(t: Tables, warehouse: Id, items: seq<Item>): Tables
    requires AllCounted(items)
  {
    if items == [] then t
    else
      var item := items[|items| - 1];
      Booked(Settled(t, warehouse, items[..|items| - 1]), Slot(item.product, warehouse), item)
  }

  /** The tables after a call; a refused call leaves them as they were. */
  function After(t: Tables, op: Op): Tables {
    if Refusal(t, op).Some? then t
    else
      match op
      case Receive(slot, quantity, cost) =>
        t.(levels := t.levels[slot := AfterReceipt(LevelAt(t.levels, slot), quantity, cost)],
           movements := t.movements + [Movement(Received, slot, quantity, None, cost)])
      case Ship(slot, quantity) =>
        t.(levels := t.levels[slot := AfterShipment(t.levels[slot], quantity)],
           movements := t.movements + [Movement(Shipped, slot, quantity, None, None)])
      case Transfer(product, source, target, quantity) =>
        var src, dst := LevelAt(t.levels, Slot(product, source)), LevelAt(t.levels, Slot(product, target));
        t.(levels := t.levels[Slot(product, source) := src.(quantity := src.quantity - quantity)]
                             [Slot(product, target) := dst.(quantity := dst.quantity + quantity)],
           movements := t.movements + [Movement(Transferred, Slot(product, source), quantity, Some(target), None)])
      case Adjust(slot, newQuantity, _) =>
        t.(levels := t.levels[slot := LevelAt(t.levels, slot).(quantity := newQuantity)],
           movements := t.movements + [Movement(Adjusted, slot, newQuantity - Quantity(t, slot), None, None)])
      case Reserve(slot, quantity) =>
        t.(levels := t.levels[slot := t.levels[slot].(reserved := t.levels[slot].reserved + quantity)])
      case Unreserve(slot, quantity) =>
        t.(levels := t.levels[slot := AfterUnreserve(t.levels[slot], quantity)])
      case StartInventory(warehouse, listing) =>
        t.(inventories := t.inventories[t.nextInventory :=
                            Inventory(warehouse, InProgress, Snapshot(t, warehouse, listing))],
           nextInventory := t.nextInventory + 1)
      case CountItem(inventory, product, actual) =>
        var inv := t.inventories[inventory];
        var k := FindItem(inv.items, product);
        t.(inventories := t.inventories[inventory := inv.(items := inv.items[k := Counted(inv.items[k], actual)])])
      case ApplyInventory(inventory) =>
        var inv := t.inventories[inventory];
        Settled(t, inv.warehouse, inv.items).(inventories := t.inventories[inventory := inv.(status := Applied)])
      case CancelInventory(inventory) =>
        t.(inventories := t.inventories[inventory := t.inventories[inventory].(status := Cancelled)])
  }

  /** The rows of a warehouse in the order the store returns them: each product with a level there, once. */
  ghost predicate IsListing(t: Tables, warehouse: Id, listing: seq<Id>) {
    Distinct(listing) && forall p :: p in listing <==> Slot(p, warehouse) in t.levels
  }

  datatype CheckLine = CheckLine(slot: Slot, quantity: real)

  // ---------- The service ----------

  class Warehouse {
    var levels: map<Slot, Level>
    var movements: seq<Movement>
    var inventories: map<Id, Inventory>
    var nextInventory: Id

    function View(): Tables
      reads this
    {
      Tables(levels, movements, inventories, nextInventory)
    }

    constructor ()
      ensures View() == EMPTY_TABLES
    {
      levels, movements, inventories, nextInventory := map[], [], map[], 0;
    }

    method ReceiveStock(slot: Slot, quantity: real, cost: Option<int>) returns (err: Option<ErrorCode>)
      modifies this
      ensures err == Refusal(old(View()), Receive(slot, quantity, cost))
      ensures View() == After(old(View()), Receive(slot, quantity, cost))
    {
      if quantity <= 0.0 {
        return Some(BadRequest);
      }
      var level := GetOrCreateLevel(slot);
      if cost.Some? {
        var oldCost := if level.cost.Some? then level.cost.value else 0;
        // The second test stands in for a division by zero, which a negative counted quantity makes possible.
        if level.quantity == 0.0 || level.quantity + quantity == 0.0 {
          level := level.(cost := cost);
        } else {
          var totalCost := TotalCost(oldCost, level.quantity, cost.value, quantity);
          var newQty := level.quantity + quantity;
          var avg := PerUnit(totalCost, newQty);
          level := level.(cost := Some(avg));
        }
      }
      level := level.(quantity := level.quantity + quantity);
      assert level == AfterReceipt(LevelAt(old(levels), slot), quantity, cost);
      levels := levels[slot := level];
      movements := movements + [Movement(Received, slot, quantity, None, cost)];
      return None;
    }

    method ShipStock(slot: Slot, quantity: real) returns (err: Option<ErrorCode>)
      modifies this
      ensures err == Refusal(old(View()), Ship(slot, quantity))
      ensures View() == After(old(View()), Ship(slot, quantity))
    {
      if quantity <= 0.0 {
        return Some(BadRequest);
      }
      if slot !in levels {
        return Some(NotFound);
      }
      var level := levels[slot];
      var available := level.quantity - level.reserved;
      if available < quantity {
        return Some(Conflict);
      }
      level := level.(quantity := level.quantity - quantity);
      if level.reserved >= quantity {
        level := level.(reserved := level.reserved - quantity);
      }
      levels := levels[slot := level];
      movements := movements + [Movement(Shipped, slot, quantity, None, None)];
      return None;
    }

    method TransferStock(product: Id, source: Id, target: Id, quantity: real) returns (err: Option<ErrorCode>)
      modifies this
      ensures err == Refusal(old(View()), Transfer(product, source, target, quantity))
      ensures View() == After(old(View()), Transfer(product, source, target, quantity))
    {
      if quantity <= 0.0 {
        return Some(BadRequest);
      }
      if source == target {
        return Some(BadRequest);
      }
      var from := Slot(product, source);
      if from !in levels {
        return Some(NotFound);
      }
      var src := levels[from];
      var available := src.quantity - src.reserved;
      if available < quantity {
        return Some(Conflict);
      }
      levels := levels[from := src.(quantity := src.quantity - quantity)];
      var dst := GetOrCreateLevel(Slot(product, target));
      levels := levels[Slot(product, target) := dst.(quantity := dst.quantity + quantity)];
      movements := movements + [Movement(Transferred, from, quantity, Some(target), None)];
      return None;
    }

    method AdjustStock(slot: Slot, newQuantity: real, reason: string) returns (err: Option<ErrorCode>)
      modifies this
      ensures err == Refusal(old(View()), Adjust(slot, newQuantity, reason))
      ensures View() == After(old(View()), Adjust(slot, newQuantity, reason))
    {
      if newQuantity < 0.0 {
        return Some(BadRequest);
      }
      if reason == "" {
        return Some(BadRequest);
      }
      var level := GetOrCreateLevel(slot);
      var diff := newQuantity - level.quantity;
      levels := levels[slot := level.(quantity := newQuantity)];
      movements := movements + [Movement(Adjusted, slot, diff, None, None)];
      return None;
    }

    method ReserveStock(slot: Slot, quantity: real) returns (err: Option<ErrorCode>)
      modifies this
      ensures err == Refusal(old(View()), Reserve(slot, quantity))
      ensures View() == After(old(View()), Reserve(slot, quantity))
    {
      if quantity <= 0.0 {
        return Some(BadRequest);
      }
      if slot !in levels {
        return Some(NotFound);
      }
      var level := levels[slot];
      if level.quantity - level.reserved < quantity {
        return Some(Conflict);
      }
      levels := levels[slot := level.(reserved := level.reserved + quantity)];
      return None;
    }

    method UnreserveStock(slot: Slot, quantity: real) returns (err: Option<ErrorCode>)
      modifies this
      ensures err == Refusal(old(View()), Unreserve(slot, quantity))
      ensures View() == After(old(View()), Unreserve(slot, quantity))
    {
      if quantity <= 0.0 {
        return Some(BadRequest);
      }
      if slot !in levels {
        return Some(NotFound);
      }
      var level := levels[slot];
      if level.reserved < quantity {
        level := level.(reserved := 0.0);
      } else {
        level := level.(reserved := level.reserved - quantity);
      }
      levels := levels[slot := level];
      return None;
    }

    /** Refuses on the first line whose own quantity is not available, with a conflict that names its product. */
    method CheckAvailability(lines: seq<CheckLine>) returns (shortage: Option<Shortage>)
      ensures shortage.None? <==> EachAvailable(View(), lines)
      ensures shortage.Some? ==> exists k :: 0 <= k < |lines| && EachAvailable(View(), lines[..k])
                                             && shortage.value == ShortageOf(View(), lines[k])
                                             && NeedsAvailable(View(), lines[k].slot, lines[k].quantity).Some?
    {
      for i := 0 to |lines|
        invariant EachAvailable(View(), lines[..i])
      {
        if lines[i].slot !in levels {
          return Some(StockNotFound(lines[i].slot.product));
        }
        var level := levels[lines[i].slot];
        if level.quantity - level.reserved < lines[i].quantity {
          return Some(InsufficientStock(lines[i].slot.product));
        }
      }
      assert lines[..|lines|] == lines;
      return None;
    }

    method StartStocktaking(warehouse: Id, listing: seq<Id>) returns (id: Id)
      requires IsListing(View(), warehouse, listing)
      modifies this
      ensures id == old(nextInventory)
      ensures View() == After(old(View()), StartInventory(warehouse, listing))
    {
      var items: seq<Item> := [];
      for i := 0 to |listing|
        invariant items == Snapshot(View(), warehouse, listing)[..i]
        invariant View() == old(View())
      {
        var level := levels[Slot(listing[i], warehouse)];
        items := items + [Item(listing[i], level.quantity, None, 0.0)];
      }
      assert items == Snapshot(old(View()), warehouse, listing);
      id := nextInventory;
      inventories := inventories[id := Inventory(warehouse, InProgress, items)];
      nextInventory := id + 1;
    }

    method CountProduct(inventory: Id, product: Id, actual: real) returns (err: Option<ErrorCode>)
      modifies this
      ensures err == Refusal(old(View()), CountItem(inventory, product, actual))
      ensures View() == After(old(View()), CountItem(inventory, product, actual))
    {
      if inventory !in inventories {
        return Some(NotFound);
      }
      var inv := inventories[inventory];
      if inv.status != InProgress {
        return Some(Conflict);
      }
      var target := 0;
      while target < |inv.items| && inv.items[target].product != product
        invariant target <= FindItem(inv.items, product)
      {
        target := target + 1;
      }
      if target == |inv.items| {
        return Some(NotFound);
      }
      var item := inv.items[target];
      item := item.(actual := Some(actual), discrepancy := actual - item.expected);
      inventories := inventories[inventory := inv.(items := inv.items[target := item])];
      return None;
    }

    method ApplyStocktaking(inventory: Id) returns (err: Option<ErrorCode>)
      modifies this
      ensures err == Refusal(old(View()), ApplyInventory(inventory))
      ensures View() == After(old(View()), ApplyInventory(inventory))
    {
      if inventory !in inventories {
        return Some(NotFound);
      }
      var inv := inventories[inventory];
      if inv.status != InProgress {
        return Some(Conflict);
      }
      for i := 0 to |inv.items|
        invariant AllCounted(inv.items[..i])
      {
        if inv.items[i].actual.None? {
          return Some(BadRequest);
        }
      }
      assert inv.items[..|inv.items|] == inv.items;
      for i := 0 to |inv.items|
        invariant View() == Settled(old(View()), inv.warehouse, inv.items[..i])
      {
        assert inv.items[..i + 1][..i] == inv.items[..i];
        var item := inv.items[i];
        if item.discrepancy == 0.0 {
          continue;
        }
        var slot := Slot(item.product, inv.warehouse);
        var level := GetOrCreateLevel(slot);
        levels := levels[slot := level.(quantity := item.actual.value)];
        movements := movements + [Movement(Adjusted, slot, item.discrepancy, None, None)];
      }
      SettledKeepsInventories(old(View()), inv.warehouse, inv.items);
      inventories := inventories[inventory := inv.(status := Applied)];
      return None;
    }

    method CancelStocktaking(inventory: Id) returns (err: Option<ErrorCode>)
      modifies this
      ensures err == Refusal(old(View()), CancelInventory(inventory))
      ensures View() == After(old(View()), CancelInventory(inventory))
    {
      if inventory !in inventories {
        return Some(NotFound);
      }
      var inv := inventories[inventory];
      if inv.status != InProgress {
        return Some(Conflict);
      }
      inventories := inventories[inventory := inv.(status := Cancelled)];
      return None;
    }

    function GetOrCreateLevel(slot: Slot): Level
      reads this
    {
      if slot in levels then levels[slot] else NO_STOCK
    }
  }

  /** Each line taken alone is available; lines for the same product are not added up. */
  datatype Shortage = StockNotFound(product: Id) | InsufficientStock(product: Id)

  function ShortageOf(t: Tables, line: CheckLine): Shortage {
    if line.slot in t.levels then InsufficientStock(line.slot.product) else StockNotFound(line.slot.product)
  }

  ghost predicate EachAvailable(t: Tables, lines: seq<CheckLine>) {
    forall k :: 0 <= k < |lines| ==> NeedsAvailable(t, lines[k].slot, lines[k].quantity).None?
  }

  lemma {:induction false} SettledKeepsInventories(t: Tables, warehouse: Id, items: seq<Item>)
    requires AllCounted(items)
    ensures Settled(t, warehouse, items).inventories == t.inventories
    ensures Settled(t, warehouse, items).nextInventory == t.nextInventory
  {
    if items != [] {
      SettledKeepsInventories(t, warehouse, items[..|items| - 1]);
    }
  }

  /** The tables after a sequence of calls. */
  function Run(t: Tables, ops: seq<Op>): Tables {
    if ops == [] then t else After(Run(t, ops[..|ops| - 1]), ops[|ops| - 1])
  }

  lemma RunLast(t: Tables, before: seq<Op>, op: Op)
    ensures Run(t, before + [op]) == After(Run(t, before), op)
  {
    assert (before + [op])[..|before|] == before;
  }
}
