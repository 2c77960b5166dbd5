/** What every single warehouse call does, slot by slot and sheet by sheet, and when it is accepted. */
module StockCalls {
  import opened Common
  import opened Stock

  /** A shipment leaves what is available unchanged exactly when it can be taken out of the reserved amount in full;
      then it is, and otherwise nothing is taken out of it. */
  lemma ShipmentUsesReservation(t: Tables, slot: Slot, quantity: real)
    ensures Refusal(t, Ship(slot, quantity)).None? ==>
              var t' := After(t, Ship(slot, quantity));
              && slot in t.levels && slot in t'.levels
              && (t'.levels[slot].Available() == t.levels[slot].Available() <==> Reserved(t, slot) >= quantity)
              && Reserved(t', slot) == Reserved(t, slot) - (if Reserved(t, slot) >= quantity then quantity else 0.0)
  {
  }

  /** The quantity, the reserved amount and the cost at any slot after an accepted call, against those before. */
  lemma SlotAfterCall(t: Tables, op: Op, s: Slot)
    ensures Refusal(t, op).None? ==>
              var t' := After(t, op);
              var more := Quantity(t', s) - Quantity(t, s);
              var held := Reserved(t', s) - Reserved(t, s);
              match op
              case Receive(slot, quantity, cost) =>
                && more == (if s == slot then quantity else 0.0) && held == 0.0
                && (s != slot || cost.None? ==> LevelAt(t'.levels, s).cost == LevelAt(t.levels, s).cost)
              case Ship(slot, quantity) =>
                && more == (if s == slot then -quantity else 0.0)
                && LevelAt(t'.levels, s).cost == LevelAt(t.levels, s).cost
              case Transfer(product, source, target, quantity) =>
                && more == (if s == Slot(product, source) then -quantity
                            else if s == Slot(product, target) then quantity else 0.0)
                && held == 0.0 && LevelAt(t'.levels, s).cost == LevelAt(t.levels, s).cost
              case Adjust(slot, newQuantity, _) =>
                && Quantity(t', s) == (if s == slot then newQuantity else Quantity(t, s))
                && held == 0.0 && LevelAt(t'.levels, s).cost == LevelAt(t.levels, s).cost
              case Reserve(slot, quantity) =>
                && more == 0.0 && held == (if s == slot then quantity else 0.0)
                && LevelAt(t'.levels, s).cost == LevelAt(t.levels, s).cost
              case Unreserve(slot, quantity) =>
                && more == 0.0 && LevelAt(t'.levels, s).cost == LevelAt(t.levels, s).cost
                && (s != slot ==> held == 0.0)
                && (s == slot && Reserved(t, s) >= quantity ==> held == -quantity)
                && (s == slot && Reserved(t, s) < quantity ==> Reserved(t', s) == 0.0)
              case ApplyInventory(_) => true
              case _ => t'.levels == t.levels && t'.movements == t.movements
  {
  }

  /** Every accepted receipt, shipment, transfer and adjustment is booked as one movement of its kind with what was
      moved, from where and where to; reserving books none. */
  lemma MovementAfterCall(t: Tables, op: Op)
    ensures Refusal(t, op).None? && !op.ApplyInventory? ==>
              var more := After(t, op).movements;
              match op
              case Receive(slot, quantity, cost) =>
                more == t.movements + [Movement(Received, slot, quantity, None, cost)]
              case Ship(slot, quantity) => more == t.movements + [Movement(Shipped, slot, quantity, None, None)]
              case Transfer(product, source, target, quantity) =>
                more == t.movements + [Movement(Transferred, Slot(product, source), quantity, Some(target), None)]
              case Adjust(slot, newQuantity, _) =>
                more == t.movements + [Movement(Adjusted, slot, newQuantity - Quantity(t, slot), None, None)]
              case _ => more == t.movements
  {
  }

  /** When each call is accepted. A refusal says that the arguments are bad or a sheet is not counted, that the level,
      sheet or item is missing, or that stock is short or the sheet has ended. */
  lemma AcceptedExactly(t: Tables, op: Op)
    ensures Refusal(t, op).None? <==>
              match op
              case Receive(_, quantity, _) => quantity > 0.0
              case Ship(slot, quantity) =>
                quantity > 0.0 && slot in t.levels && quantity + t.levels[slot].reserved <= t.levels[slot].quantity
              case Transfer(product, source, target, quantity) =>
                && quantity > 0.0 && source != target && Slot(product, source) in t.levels
                && quantity + t.levels[Slot(product, source)].reserved <= t.levels[Slot(product, source)].quantity
              case Adjust(_, newQuantity, reason) => newQuantity >= 0.0 && reason != ""
              case Reserve(slot, quantity) =>
                quantity > 0.0 && slot in t.levels && quantity + t.levels[slot].reserved <= t.levels[slot].quantity
              case Unreserve(slot, quantity) => quantity > 0.0 && slot in t.levels
              case StartInventory(_, _) => true
              case CountItem(inventory, product, _) =>
                && inventory in t.inventories && t.inventories[inventory].status == InProgress
                && exists k :: 0 <= k < |t.inventories[inventory].items|
                               && t.inventories[inventory].items[k].product == product
              case ApplyInventory(inventory) =>
                && inventory in t.inventories && t.inventories[inventory].status == InProgress
                && forall k :: 0 <= k < |t.inventories[inventory].items| ==>
                     t.inventories[inventory].items[k].actual.Some?
              case CancelInventory(inventory) =>
                inventory in t.inventories && t.inventories[inventory].status == InProgress
    ensures Refusal(t, op) == Some(BadRequest) ==> op.ApplyInventory? || ArgumentsBad(op)
    ensures Refusal(t, op) == Some(NotFound) ==>
              match op
              case Ship(slot, _) => slot !in t.levels
              case Transfer(product, source, _, _) => Slot(product, source) !in t.levels
              case Reserve(slot, _) => slot !in t.levels
              case Unreserve(slot, _) => slot !in t.levels
              case CountItem(inventory, product, _) =>
                inventory !in t.inventories || forall item :: item in t.inventories[inventory].items ==>
                                                 item.product != product
              case ApplyInventory(inventory) => inventory !in t.inventories
              case CancelInventory(inventory) => inventory !in t.inventories
              case _ => false
    ensures Refusal(t, op) == Some(Conflict) ==>
              match op
              case Ship(slot, _) => slot in t.levels
              case Transfer(product, source, _, _) => Slot(product, source) in t.levels
              case Reserve(slot, _) => slot in t.levels
              case CountItem(inventory, _, _) => Ended(t, inventory)
              case ApplyInventory(inventory) => Ended(t, inventory)
              case CancelInventory(inventory) => Ended(t, inventory)
              case _ => false
  {
  }

  predicate ArgumentsBad(op: Op) {
    match op
    case Receive(_, quantity, _) => quantity <= 0.0
    case Ship(_, quantity) => quantity <= 0.0
    case Transfer(_, source, target, quantity) => quantity <= 0.0 || source == target
    case Adjust(_, newQuantity, reason) => newQuantity < 0.0 || reason == ""
    case Reserve(_, quantity) => quantity <= 0.0
    case Unreserve(_, quantity) => quantity <= 0.0
    case _ => false
  }

  predicate Ended(t: Tables, inventory: Id) {
    inventory in t.inventories && t.inventories[inventory].status in {Applied, Cancelled}
  }

  /** A fresh sheet lists the products uncounted with their current quantities; counting notes the count and its
      difference at the first item for the product and nowhere else. */
  lemma SheetAfterCall(t: Tables, op: Op, k: nat)
    ensures op.StartInventory? && k < |op.listing| ==>
              var sheet := After(t, op).inventories[t.nextInventory];
              && sheet.warehouse == op.warehouse && sheet.status == InProgress && |sheet.items| == |op.listing|
              && sheet.items[k]
                 == Item(op.listing[k], Quantity(t, Slot(op.listing[k], op.warehouse)), None, 0.0)
    ensures op.CountItem? && Refusal(t, op).None? && k < |t.inventories[op.inventory].items| ==>
              var items, items' := t.inventories[op.inventory].items, After(t, op).inventories[op.inventory].items;
              && |items'| == |items|
              && (if items[k].product == op.product && (forall j :: 0 <= j < k ==> items[j].product != op.product)
                  then items'[k] == items[k].(actual := Some(op.actual), discrepancy := op.actual - items[k].expected)
                  else items'[k] == items[k])
  {
  }

  /** A sheet ends as applied or cancelled, and then can be neither counted nor applied nor cancelled. */
  lemma SheetsEndOnce(t: Tables, op: Op, product: Id, actual: real)
    ensures (op.ApplyInventory? || op.CancelInventory?) && Refusal(t, op).None? ==>
              var t' := After(t, op);
              && t'.inventories[op.inventory].status == (if op.ApplyInventory? then Applied else Cancelled)
              && Refusal(t', CountItem(op.inventory, product, actual)) == Some(Conflict)
              && Refusal(t', ApplyInventory(op.inventory)) == Some(Conflict)
              && Refusal(t', CancelInventory(op.inventory)) == Some(Conflict)
  {
  }
}
