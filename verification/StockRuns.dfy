/** Runs from empty stock in which the weak points of the warehouse show. */
module StockRuns {
  import opened Common
  import opened Stock
  import opened StockLedger

  const PLACE := Slot(0, 0)

  const RECEIVED := Movement(Received, PLACE, 10.0, None, None)

  function Held(quantity: real, reserved: real, movements: seq<Movement>, inventories: map<Id, Inventory>): Tables {
    Tables(map[PLACE := Level(quantity, reserved, None)], movements, inventories, |inventories|)
  }

  function Sheet(status: InventoryStatus, item: Item): map<Id, Inventory> { map[0 := Inventory(0, status, [item])] }

  // ---------- The single calls ----------

  const TEN_RECEIVED: seq<Op> := [Receive(PLACE, 10.0, None)]

  lemma TenReceived()
    ensures Run(EMPTY_TABLES, TEN_RECEIVED) == Held(10.0, 0.0, [RECEIVED], map[])
  {
    RunLast(EMPTY_TABLES, [], TEN_RECEIVED[0]);
    assert [] + [TEN_RECEIVED[0]] == TEN_RECEIVED;
  }

  lemma SheetStarted()
    ensures After(Held(10.0, 0.0, [RECEIVED], map[]), StartInventory(0, [0]))
         == Held(10.0, 0.0, [RECEIVED], Sheet(InProgress, Item(0, 10.0, None, 0.0)))
  {
    var t := Held(10.0, 0.0, [RECEIVED], map[]);
    assert Snapshot(t, 0, [0]) == [Item(0, 10.0, None, 0.0)];
  }

  lemma ProductCounted(quantity: real, movements: seq<Movement>, actual: real)
    ensures After(Held(quantity, 0.0, movements, Sheet(InProgress, Item(0, 10.0, None, 0.0))), CountItem(0, 0, actual))
         == Held(quantity, 0.0, movements, Sheet(InProgress, Item(0, 10.0, Some(actual), actual - 10.0)))
  {
    var items := [Item(0, 10.0, None, 0.0)];
    assert FindItem(items, 0) == 0;
    assert items[0 := Counted(items[0], actual)] == [Item(0, 10.0, Some(actual), actual - 10.0)];
  }

  lemma SheetApplied(quantity: real, movements: seq<Movement>, actual: real)
    requires actual != 10.0
    ensures After(Held(quantity, 0.0, movements, Sheet(InProgress, Item(0, 10.0, Some(actual), actual - 10.0))),
                  ApplyInventory(0))
         == Held(actual, 0.0, movements + [Movement(Adjusted, PLACE, actual - 10.0, None, None)],
                 Sheet(Applied, Item(0, 10.0, Some(actual), actual - 10.0)))
  {
    var item := Item(0, 10.0, Some(actual), actual - 10.0);
    var t := Held(quantity, 0.0, movements, Sheet(InProgress, item));
    assert [item][..0] == [] && Settled(t, 0, []) == t;
    assert Settled(t, 0, [item]) == Booked(t, PLACE, item);
  }

  // ---------- The runs ----------

  function StartedSheet(): seq<Op> { TEN_RECEIVED + [StartInventory(0, [0])] }

  lemma StartedSheetRuns()
    ensures Run(EMPTY_TABLES, StartedSheet())
         == Held(10.0, 0.0, [RECEIVED], Sheet(InProgress, Item(0, 10.0, None, 0.0)))
  {
    TenReceived();
    SheetStarted();
    RunLast(EMPTY_TABLES, TEN_RECEIVED, StartInventory(0, [0]));
  }

  /** Receive 10, start a stocktaking, receive 5, count 12, apply: the level is 12 and its movements add up to 17. */
  lemma MovedStocktakingLosesJournal()
    ensures var ops := StartedSheet() + [Receive(PLACE, 5.0, None)] + [CountItem(0, 0, 12.0)] + [ApplyInventory(0)];
            var t := Run(EMPTY_TABLES, ops);
            Quantity(t, PLACE) == 12.0 && JournalSum(t.movements, PLACE) == 17.0
  {
    var ops := StartedSheet() + [Receive(PLACE, 5.0, None)];
    var more := Movement(Received, PLACE, 5.0, None, None);
    StartedSheetRuns();
    RunLast(EMPTY_TABLES, StartedSheet(), Receive(PLACE, 5.0, None));
    assert Run(EMPTY_TABLES, ops)
        == Held(15.0, 0.0, [RECEIVED] + [more], Sheet(InProgress, Item(0, 10.0, None, 0.0)));
    ProductCounted(15.0, [RECEIVED] + [more], 12.0);
    RunLast(EMPTY_TABLES, ops, CountItem(0, 0, 12.0));
    SheetApplied(15.0, [RECEIVED] + [more], 12.0);
    RunLast(EMPTY_TABLES, ops + [CountItem(0, 0, 12.0)], ApplyInventory(0));
    JournalAppend([], RECEIVED);
    assert [] + [RECEIVED] == [RECEIVED];
    JournalAppend([RECEIVED], more);
    JournalAppend([RECEIVED] + [more], Movement(Adjusted, PLACE, 2.0, None, None));
  }

  /** Receive 10, start a stocktaking, count minus 1, apply: the level is negative. */
  lemma NegativeCountGoesThrough()
    ensures var ops := StartedSheet() + [CountItem(0, 0, -1.0)] + [ApplyInventory(0)];
            Quantity(Run(EMPTY_TABLES, ops), PLACE) == -1.0
  {
    var ops := StartedSheet();
    StartedSheetRuns();
    ProductCounted(10.0, [RECEIVED], -1.0);
    RunLast(EMPTY_TABLES, ops, CountItem(0, 0, -1.0));
    SheetApplied(10.0, [RECEIVED], -1.0);
    RunLast(EMPTY_TABLES, ops + [CountItem(0, 0, -1.0)], ApplyInventory(0));
  }

  lemma UnitsReserved(quantity: real)
    requires 0.0 < quantity <= 10.0
    ensures After(Held(10.0, 0.0, [RECEIVED], map[]), Reserve(PLACE, quantity))
         == Held(10.0, quantity, [RECEIVED], map[])
  {
    var t := Held(10.0, 0.0, [RECEIVED], map[]);
    assert After(t, Reserve(PLACE, quantity)).levels == map[PLACE := Level(10.0, quantity, None)];
  }

  /** Some of the ten units received are reserved. */
  lemma SomeReserved(quantity: real)
    requires 0.0 < quantity <= 10.0
    ensures Run(EMPTY_TABLES, TEN_RECEIVED + [Reserve(PLACE, quantity)]) == Held(10.0, quantity, [RECEIVED], map[])
  {
    TenReceived();
    UnitsReserved(quantity);
    RunLast(EMPTY_TABLES, TEN_RECEIVED, Reserve(PLACE, quantity));
  }

  /** Receive 10, reserve 6, adjust to 5: more is reserved than there is. */
  lemma AdjustmentUncovers()
    ensures var t := Run(EMPTY_TABLES, TEN_RECEIVED + [Reserve(PLACE, 6.0)] + [Adjust(PLACE, 5.0, "recount")]);
            Quantity(t, PLACE) == 5.0 && Reserved(t, PLACE) == 6.0
  {
    SomeReserved(6.0);
    RunLast(EMPTY_TABLES, TEN_RECEIVED + [Reserve(PLACE, 6.0)], Adjust(PLACE, 5.0, "recount"));
  }
}
