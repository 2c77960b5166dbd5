/** Weighted average cost over a sequence of costed receipts into an empty level. */
module Costing {
  import opened Common
  import opened Stock

  datatype Receipt = Receipt(quantity: real, cost: int)

  function ReceiveAll(level: Level, receipts: seq<Receipt>): Level {
    if receipts == [] then level
    else
      var last := receipts[|receipts| - 1];
      AfterReceipt(ReceiveAll(level, receipts[..|receipts| - 1]), last.quantity, Some(last.cost))
  }

  function Calls(slot: Slot, receipts: seq<Receipt>): seq<Op> {
    seq(|receipts|, i requires 0 <= i < |receipts| => Receive(slot, receipts[i].quantity, Some(receipts[i].cost)))
  }

  ghost predicate PositiveReceipts(receipts: seq<Receipt>) {
    forall i :: 0 <= i < |receipts| ==> receipts[i].quantity > 0.0
  }

  /** Folding receipts over a level is what the calls do to the slot. */
  lemma {:induction false} CallsFold(t: Tables, slot: Slot, receipts: seq<Receipt>)
    requires PositiveReceipts(receipts)
    ensures LevelAt(Run(t, Calls(slot, receipts)).levels, slot) == ReceiveAll(LevelAt(t.levels, slot), receipts)
  {
    if receipts != [] {
      var n := |receipts| - 1;
      assert Calls(slot, receipts)[..n] == Calls(slot, receipts[..n]);
      CallsFold(t, slot, receipts[..n]);
    }
  }

  /** What the receipts cost and how much they brought. */
  function Paid(receipts: seq<Receipt>): real {
    if receipts == [] then 0.0
    else
      Paid(receipts[..|receipts| - 1]) + Price(receipts[|receipts| - 1])
  }

  function Price(r: Receipt): real { r.cost as real * r.quantity }

  /** The stock of a level at its unit cost. */
  function Worth(level: Level): real
    requires level.cost.Some?
  {
    level.cost.value as real * level.quantity
  }

  function Brought(receipts: seq<Receipt>): real {
    if receipts == [] then 0.0 else Brought(receipts[..|receipts| - 1]) + receipts[|receipts| - 1].quantity
  }

  /** Half the running quantity, and the rounding of the running value, for every receipt after the first. */
  function Drift(receipts: seq<Receipt>, slack: real): real {
    if |receipts| <= 1 then 0.0
    else Drift(receipts[..|receipts| - 1], slack) + Brought(receipts) / 2.0 + slack
  }

  ghost predicate WholeUnits(receipts: seq<Receipt>) {
    forall i :: 0 <= i < |receipts| ==> Whole(receipts[i].quantity)
  }

  predicate Near(worth: real, paid: real, drift: real) { -drift <= worth - paid <= drift }

  predicate Whole(x: real) { x.Floor as real == x }

  lemma WholeAdds(a: real, b: real)
    requires Whole(a) && Whole(b)
    ensures Whole(a + b)
  {
    assert a + b == (a.Floor + b.Floor) as real;
  }

  lemma {:induction false} BroughtPositive(receipts: seq<Receipt>)
    requires PositiveReceipts(receipts)
    ensures receipts != [] ==> Brought(receipts) > 0.0
    ensures receipts == [] ==> Brought(receipts) == 0.0
    ensures WholeUnits(receipts) ==> Whole(Brought(receipts))
  {
    if receipts != [] {
      BroughtPositive(receipts[..|receipts| - 1]);
      if WholeUnits(receipts) {
        WholeAdds(Brought(receipts[..|receipts| - 1]), receipts[|receipts| - 1].quantity);
      }
    }
  }

  // ---------- One receipt ----------

  lemma QuotientTimes(a: real, b: real)
    requires b != 0.0
    ensures a / b * b == a
  {
  }

  lemma PerUnitNear(total: int, quantity: real)
    requires quantity > 0.0
    ensures Near(PerUnit(total, quantity) as real * quantity, total as real, quantity / 2.0)
  {
    NearQuotient(PerUnit(total, quantity) as real, total as real, quantity);
    RoundNear(total as real / quantity);
  }

  lemma NearQuotient(r: real, total: real, quantity: real)
    requires quantity > 0.0
    ensures -0.5 <= r - total / quantity <= 0.5 ==> Near(r * quantity, total, quantity / 2.0)
  {
    var x := total / quantity;
    QuotientTimes(total, quantity);
    if -0.5 <= r - x <= 0.5 {
      ProductNonnegative(r - x + 0.5, quantity);
      ProductNonnegative(0.5 - (r - x), quantity);
      Distributes(r, x, quantity);
      Distributes(r - x, -0.5, quantity);
      Distributes(0.5, r - x, quantity);
    }
  }

  lemma TotalCostNear(oldCost: int, oldQuantity: real, cost: int, quantity: real)
    ensures Near(TotalCost(oldCost, oldQuantity, cost, quantity) as real,
                 oldCost as real * oldQuantity + cost as real * quantity, 0.5)
  {
    RoundNear(oldCost as real * oldQuantity + cost as real * quantity);
  }

  lemma TotalCostWhole(oldCost: int, oldQuantity: real, cost: int, quantity: real)
    requires Whole(oldQuantity) && Whole(quantity)
    ensures TotalCost(oldCost, oldQuantity, cost, quantity) as real
         == oldCost as real * oldQuantity + cost as real * quantity
  {
    var a, b := oldQuantity.Floor, quantity.Floor;
    assert (oldCost * a) as real == oldCost as real * a as real;
    assert (cost * b) as real == cost as real * b as real;
    var n := oldCost * a + cost * b;
    assert oldCost as real * oldQuantity + cost as real * quantity == n as real;
    RoundWhole(n);
  }

  // ---------- The whole sequence ----------

  ghost predicate FreshLevel(level: Level) { level.quantity == 0.0 }

  lemma {:induction false} QuantityAdds(level: Level, receipts: seq<Receipt>)
    requires FreshLevel(level)
    ensures ReceiveAll(level, receipts).quantity == Brought(receipts)
    ensures receipts != [] ==> ReceiveAll(level, receipts).cost.Some?
  {
    if receipts != [] {
      QuantityAdds(level, receipts[..|receipts| - 1]);
    }
  }

  lemma OneReceipt(level: Level, r: Receipt, slack: real)
    requires level.cost.Some? && level.quantity > 0.0 && r.quantity > 0.0
    requires slack == 0.5 || (slack == 0.0 && Whole(level.quantity) && Whole(r.quantity))
    ensures Near(Worth(AfterReceipt(level, r.quantity, Some(r.cost))), Worth(level) + Price(r),
                 (level.quantity + r.quantity) / 2.0 + slack)
  {
    var total := PriceRounding(level, r);
    ValueRounding(level, r, total, slack);
    NearChain(Worth(AfterReceipt(level, r.quantity, Some(r.cost))), total as real, Worth(level) + Price(r),
              (level.quantity + r.quantity) / 2.0, slack);
  }

  /** Rounding the unit price to whole kopecks. */
  lemma PriceRounding(level: Level, r: Receipt) returns (total: int)
    requires level.cost.Some? && level.quantity > 0.0 && r.quantity > 0.0
    ensures total == TotalCost(level.cost.value, level.quantity, r.cost, r.quantity)
    ensures Near(Worth(AfterReceipt(level, r.quantity, Some(r.cost))), total as real,
                 (level.quantity + r.quantity) / 2.0)
  {
    total := TotalCost(level.cost.value, level.quantity, r.cost, r.quantity);
    PerUnitNear(total, level.quantity + r.quantity);
  }

  /** Rounding the value of old and new stock to whole kopecks. */
  lemma ValueRounding(level: Level, r: Receipt, total: int, slack: real)
    requires level.cost.Some? && total == TotalCost(level.cost.value, level.quantity, r.cost, r.quantity)
    requires slack == 0.5 || (slack == 0.0 && Whole(level.quantity) && Whole(r.quantity))
    ensures Near(total as real, Worth(level) + Price(r), slack)
  {
    if slack == 0.0 {
      TotalCostWhole(level.cost.value, level.quantity, r.cost, r.quantity);
    } else {
      TotalCostNear(level.cost.value, level.quantity, r.cost, r.quantity);
    }
  }

  lemma NearChain(a: real, b: real, c: real, d: real, e: real)
    requires Near(a, b, d) && Near(b, c, e)
    ensures Near(a, c, d + e)
  {
  }

  lemma NearAdds(worth: real, paid: real, drift: real, price: real, newWorth: real, step: real)
    requires Near(worth, paid, drift) && Near(newWorth, worth + price, step)
    ensures Near(newWorth, paid + price, drift + step)
  {
  }

  ghost predicate Tracks(level: Level, receipts: seq<Receipt>, slack: real) {
    var l := ReceiveAll(level, receipts);
    l.cost.Some? && Near(Worth(l), Paid(receipts), Drift(receipts, slack))
  }

  /** After any costed receipts, unit cost times quantity misses what was paid by at most half the sum of the running
      quantities after the first receipt, plus half a kopeck for each of them unless all quantities are whole. */
  lemma {:induction false} CostTracksPayments(level: Level, receipts: seq<Receipt>, slack: real)
    requires FreshLevel(level) && PositiveReceipts(receipts) && receipts != []
    requires slack == 0.5 || (slack == 0.0 && WholeUnits(receipts))
    ensures Tracks(level, receipts, slack)
  {
    var before, last := receipts[..|receipts| - 1], receipts[|receipts| - 1];
    if before == [] {
      assert receipts == [last] && ReceiveAll(level, []) == level;
      assert Worth(ReceiveAll(level, receipts)) == Price(last) && Paid(receipts) == Paid([]) + Price(last);
    } else {
      CostTracksPayments(level, before, slack);
      QuantityAdds(level, before);
      BroughtPositive(before);
      var l := ReceiveAll(level, before);
      OneReceipt(l, last, slack);
      NearAdds(Worth(l), Paid(before), Drift(before, slack), Price(last), Worth(ReceiveAll(level, receipts)),
               (l.quantity + last.quantity) / 2.0 + slack);
    }
  }

  ghost predicate CostsWithin(receipts: seq<Receipt>, lo: int, hi: int) {
    forall i :: 0 <= i < |receipts| ==> lo <= receipts[i].cost <= hi
  }

  /** The first two receipts together bring at least one unit. */
  predicate StartsWithUnit(receipts: seq<Receipt>) { |receipts| >= 2 ==> Brought(receipts[..2]) >= 1.0 }

  /** If the first two receipts bring a whole unit, the unit cost stays between the lowest and the highest receipt
      cost. */
  lemma {:induction false} CostStaysBetween(level: Level, receipts: seq<Receipt>, lo: int, hi: int)
    requires FreshLevel(level) && PositiveReceipts(receipts) && receipts != []
    requires StartsWithUnit(receipts) && CostsWithin(receipts, lo, hi)
    ensures ReceiveAll(level, receipts).cost.Some? && lo <= ReceiveAll(level, receipts).cost.value <= hi
  {
    var before, last := receipts[..|receipts| - 1], receipts[|receipts| - 1];
    QuantityAdds(level, before);
    BroughtPositive(before);
    if before != [] {
      if |before| >= 2 {
        assert before[..2] == receipts[..2];
      }
      CostStaysBetween(level, before, lo, hi);
      BroughtGrows(receipts, 2);
      OneReceiptBetween(ReceiveAll(level, before), last.quantity, last.cost, lo, hi);
    }
  }

  lemma {:induction false} BroughtGrows(receipts: seq<Receipt>, k: nat)
    requires PositiveReceipts(receipts) && k <= |receipts|
    ensures Brought(receipts[..k]) <= Brought(receipts)
  {
    if k == |receipts| {
      assert receipts[..k] == receipts;
    } else {
      BroughtGrows(receipts[..|receipts| - 1], k);
      assert receipts[..|receipts| - 1][..k] == receipts[..k];
    }
  }

  lemma BroughtByTwo(receipts: seq<Receipt>)
    requires |receipts| >= 2
    ensures Brought(receipts[..2]) == receipts[0].quantity + receipts[1].quantity
  {
    var two := receipts[..2];
    assert two[..1] == [receipts[0]] && two[..1][..0] == [];
    assert Brought(two[..1]) == receipts[0].quantity;
  }

  lemma OneReceiptBetween(level: Level, quantity: real, cost: int, lo: int, hi: int)
    requires level.cost.Some? && level.quantity > 0.0 && quantity > 0.0 && level.quantity + quantity >= 1.0
    requires lo <= level.cost.value <= hi && lo <= cost <= hi
    ensures lo <= AverageCost(level, quantity, cost) <= hi
  {
    var total, n := TotalCost(level.cost.value, level.quantity, cost, quantity), level.quantity + quantity;
    var value := MeanBetween(level.cost.value as real, level.quantity, cost as real, quantity, lo, hi, n);
    TotalCostIs(level.cost.value, level.quantity, cost, quantity, value);
    TotalBetween(total, value, n, lo, hi);
    UnitBetween(total, n, lo, hi);
  }

  /** The value of n units at costs from `lo` to `hi`. */
  predicate WorthBetween(value: real, n: real, lo: int, hi: int) { lo as real * n <= value <= hi as real * n }

  /** Less than half a unit price off such a value. */
  predicate NearlyBetween(total: int, n: real, lo: int, hi: int) {
    lo as real * n - n / 2.0 < total as real < hi as real * n + n / 2.0
  }

  /** Less than half a unit price is lost with the value's rounding. */
  lemma TotalBetween(total: int, value: real, n: real, lo: int, hi: int)
    requires n >= 1.0 && WorthBetween(value, n, lo, hi) && total == Round(value)
    ensures NearlyBetween(total, n, lo, hi)
  {
    RoundNear(value);
    if n == 1.0 {
      RoundBetween(lo, value, hi);
    }
  }

  lemma UnitBetween(total: int, n: real, lo: int, hi: int)
    requires n > 0.0 && NearlyBetween(total, n, lo, hi)
    ensures lo <= PerUnit(total, n) <= hi
  {
    var x := total as real / n;
    QuotientTimes(total as real, n);
    Distributes(lo as real, 0.5, n);
    Distributes(hi as real, -0.5, n);
    LessByFactor(lo as real - 0.5, x, n);
    LessByFactor(x, hi as real + 0.5, n);
    RoundInside(lo, x, hi);
  }

  lemma LessByFactor(a: real, b: real, n: real)
    requires n > 0.0 && a * n < b * n
    ensures a < b
  {
    if a >= b {
      ProductNonnegative(a - b, n);
      Distributes(a, b, n);
    }
  }

  lemma AtMostByFactor(a: real, b: real, n: real)
    requires n > 0.0 && a * n <= b * n
    ensures a <= b
  {
    if a > b {
      ProductPositive(a - b, n);
      Distributes(a, b, n);
    }
  }

  lemma RoundInside(lo: int, x: real, hi: int)
    ensures lo as real - 0.5 < x ==> lo <= Round(x)
    ensures x < hi as real + 0.5 ==> Round(x) <= hi
  {
  }

  /** The total value as the receipts give it. */
  lemma MeanBetween(a: real, p: real, b: real, q: real, lo: int, hi: int, n: real) returns (value: real)
    requires p > 0.0 && q > 0.0 && n == p + q && lo as real <= a <= hi as real && lo as real <= b <= hi as real
    ensures value == a * p + b * q && WorthBetween(value, n, lo, hi)
  {
    value := a * p + b * q;
    ProductNonnegative(a - lo as real, p);
    ProductNonnegative(b - lo as real, q);
    ProductNonnegative(hi as real - a, p);
    ProductNonnegative(hi as real - b, q);
  }

  /** In particular with whole quantities the unit cost stays in that range. */
  lemma WholeUnitsKeepRange(level: Level, receipts: seq<Receipt>, lo: int, hi: int)
    requires FreshLevel(level) && PositiveReceipts(receipts) && receipts != []
    requires WholeUnits(receipts) && CostsWithin(receipts, lo, hi)
    ensures ReceiveAll(level, receipts).cost.Some? && lo <= ReceiveAll(level, receipts).cost.value <= hi
  {
    if |receipts| >= 2 {
      BroughtByTwo(receipts);
      assert receipts[0].quantity.Floor >= 1 && receipts[1].quantity.Floor >= 1;
    }
    CostStaysBetween(level, receipts, lo, hi);
  }

  // ---------- Less than a unit at the start ----------

  function Quantities(receipts: seq<Receipt>): seq<real> {
    seq(|receipts|, i requires 0 <= i < |receipts| => receipts[i].quantity)
  }

  /** After every receipt the unit cost lies between the lowest and the highest cost so far. */
  ghost predicate KeepsRange(level: Level, receipts: seq<Receipt>) {
    forall k: nat, lo: int, hi: int :: 0 < k <= |receipts| && CostsWithin(receipts[..k], lo, hi) ==>
      ReceiveAll(level, receipts[..k]).cost.Some? && lo <= ReceiveAll(level, receipts[..k]).cost.value <= hi
  }

  /** So many copies of the part of a unit that is missing come to between half a quantity and all but half of one. */
  lemma CostOff(s: real) returns (c: int, missing: real)
    requires 0.0 < s < 1.0
    ensures c >= 1 && missing == c as real * (1.0 - s) && s / 2.0 <= missing < 1.0 - s / 2.0
  {
    var k := Quotient(s / 2.0, 1.0 - s);
    c := -((-k).Floor);
    missing := Multiple(c, k, s, 1.0 - s);
  }

  lemma Multiple(c: int, k: real, s: real, d: real) returns (missing: real)
    requires d == 1.0 - s && d > 0.0 && k * d == s / 2.0 && k <= c as real < k + 1.0
    ensures missing == c as real * d && s / 2.0 <= missing < 1.0 - s / 2.0
  {
    missing := c as real * d;
    MultipleAtLeast(c as real, k, s / 2.0, d);
    MultipleBelow(c as real, k, s / 2.0, d);
  }

  lemma MultipleAtLeast(c: real, k: real, part: real, d: real)
    requires d > 0.0 && k * d == part && k <= c
    ensures part <= c * d
  {
    AtMostByProduct(k, c, d);
  }

  lemma MultipleBelow(c: real, k: real, part: real, d: real)
    requires d > 0.0 && k * d == part && c < k + 1.0
    ensures c * d < part + d
  {
    LessByProduct(c, k + 1.0, d);
    Adds(k, 1.0, d);
  }

  lemma Quotient(a: real, b: real) returns (k: real)
    requires a > 0.0 && b > 0.0
    ensures k * b == a && k > 0.0
  {
    k := a / b;
    QuotientTimes(a, b);
    LessByFactor(0.0, k, b);
  }

  lemma AtMostByProduct(a: real, b: real, n: real)
    requires a <= b && n > 0.0
    ensures a * n <= b * n
  {
    ProductNonnegative(b - a, n);
    Distributes(b, a, n);
  }

  lemma LessByProduct(a: real, b: real, n: real)
    requires a < b && n > 0.0
    ensures a * n < b * n
  {
    ProductPositive(b - a, n);
    Distributes(b, a, n);
  }

  /** Rounded to whole kopecks and divided again, that cost comes out different. */
  lemma CostComesOff(s: real, c: int, value: real, missing: real)
    requires 0.0 < s < 1.0 && c >= 1 && value == c as real - missing && value == c as real * s
    requires s / 2.0 <= missing < 1.0 - s / 2.0
    ensures PerUnit(Round(value), s) != c
  {
    var total := Round(value);
    if missing <= 0.5 {
      assert total == c;
      UnitAbove(total, s, c, value);
    } else {
      assert total == c - 1;
      UnitBelow(total, s, c, value);
    }
  }

  lemma UnitAbove(total: int, s: real, c: int, value: real)
    requires s > 0.0 && c >= 0 && value == c as real * s && value + s / 2.0 <= total as real
    ensures PerUnit(total, s) > c
  {
    var x := total as real / s;
    QuotientTimes(total as real, s);
    Adds(c as real, 0.5, s);
    AtMostByFactor(c as real + 0.5, x, s);
    RoundsUp(c, x);
  }

  lemma UnitBelow(total: int, s: real, c: int, value: real)
    requires s > 0.0 && value == c as real * s && total as real < value - s / 2.0
    ensures PerUnit(total, s) < c
  {
    var x := total as real / s;
    QuotientTimes(total as real, s);
    Distributes(c as real, 0.5, s);
    LessByFactor(x, c as real - 0.5, s);
    RoundInside(0, x, c - 1);
  }

  lemma RoundsUp(c: int, x: real)
    requires c >= 0 && x >= c as real + 0.5
    ensures Round(x) >= c + 1
  {
  }

  /** Two receipts that bring less than a unit: at some cost, the same for both, the average is another one. */
  lemma SmallStartLosesCost(level: Level, p: real, q: real) returns (c: int)
    requires FreshLevel(level) && p > 0.0 && q > 0.0 && p + q < 1.0
    ensures c >= 1 && ReceiveAll(level, [Receipt(p, c), Receipt(q, c)]).cost != Some(c)
  {
    var missing;
    c, missing := CostOff(p + q);
    var value := TwoAtOneCost(p, q, c, missing);
    CostComesOff(p + q, c, value, missing);
    TwoReceipts(level, p, q, c, value);
  }

  lemma TwoAtOneCost(p: real, q: real, c: int, missing: real) returns (value: real)
    requires missing == c as real * (1.0 - (p + q))
    ensures value == c as real * p + c as real * q && value == c as real * (p + q) && value == c as real - missing
  {
    value := c as real * p + c as real * q;
  }

  lemma TotalCostIs(a: int, p: real, b: int, q: real, value: real)
    requires value == a as real * p + b as real * q
    ensures TotalCost(a, p, b, q) == Round(value)
  {
  }

  lemma TwoReceipts(level: Level, p: real, q: real, c: int, value: real)
    requires FreshLevel(level) && p > 0.0 && q > 0.0 && value == c as real * p + c as real * q
    ensures ReceiveAll(level, [Receipt(p, c), Receipt(q, c)]).cost == Some(PerUnit(Round(value), p + q))
  {
    var first, receipts := [Receipt(p, c)], [Receipt(p, c), Receipt(q, c)];
    assert first[..0] == [] && ReceiveAll(level, []) == level;
    var one := ReceiveAll(level, first);
    assert one == AfterReceipt(level, p, Some(c));
    assert one.quantity == p && one.cost == Some(c);
    assert receipts[..1] == first;
    assert ReceiveAll(level, receipts) == AfterReceipt(one, q, Some(c));
    TotalCostIs(c, p, c, q, value);
  }

  /** Whatever the costs, the average keeps their range at all times if and only if the first two receipts bring a
      whole unit. */
  lemma RangeKeptExactly(level: Level, quantities: seq<real>)
    requires FreshLevel(level) && forall i :: 0 <= i < |quantities| ==> quantities[i] > 0.0
    ensures (forall receipts :: Quantities(receipts) == quantities ==> KeepsRange(level, receipts))
       <==> (|quantities| >= 2 ==> quantities[0] + quantities[1] >= 1.0)
  {
    if |quantities| >= 2 && quantities[0] + quantities[1] < 1.0 {
      var c := SmallStartLosesCost(level, quantities[0], quantities[1]);
      var receipts := seq(|quantities|, i requires 0 <= i < |quantities| => Receipt(quantities[i], c));
      assert Quantities(receipts) == quantities;
      assert receipts[..2] == [Receipt(quantities[0], c), Receipt(quantities[1], c)];
      assert CostsWithin(receipts[..2], c, c);
      assert !KeepsRange(level, receipts);
    } else {
      forall receipts | Quantities(receipts) == quantities ensures KeepsRange(level, receipts) {
        UnitStartKeepsRange(level, receipts);
      }
    }
  }

  lemma UnitStartKeepsRange(level: Level, receipts: seq<Receipt>)
    requires FreshLevel(level) && forall i :: 0 <= i < |receipts| ==> Quantities(receipts)[i] > 0.0
    requires |receipts| >= 2 ==> Quantities(receipts)[0] + Quantities(receipts)[1] >= 1.0
    ensures KeepsRange(level, receipts)
  {
    assert forall i :: 0 <= i < |receipts| ==> Quantities(receipts)[i] == receipts[i].quantity;
    forall k: nat, lo: int, hi: int | 0 < k <= |receipts| && CostsWithin(receipts[..k], lo, hi)
      ensures ReceiveAll(level, receipts[..k]).cost.Some? && lo <= ReceiveAll(level, receipts[..k]).cost.value <= hi
    {
      if k >= 2 {
        BroughtByTwo(receipts[..k]);
      }
      CostStaysBetween(level, receipts[..k], lo, hi);
    }
  }

  /** For instance, two receipts of a thousandth at 100 leave a unit cost of 0. */
  lemma FractionsLoseTheCost()
    ensures var receipts := [Receipt(0.001, 100), Receipt(0.001, 100)];
            ReceiveAll(NO_STOCK, receipts).cost == Some(0)
  {
    var receipts := [Receipt(0.001, 100), Receipt(0.001, 100)];
    assert receipts[..1] == [Receipt(0.001, 100)] && receipts[..1][..0] == [];
    assert TotalCost(100, 0.001, 100, 0.001) == 0;
  }
}
