/** Pricing rules: discounts in whole kopecks and quantity bonuses. */
module Catalog {
  import opened Common

  datatype RuleType = ScheduleDiscount | QuantityBonus | CustomerDiscount | OtherRule

  datatype DiscountType = Percent | Fixed | OtherDiscount

  datatype Discount = Discount(kind: DiscountType, value: int)

  type Instant = int

  const ONE_DAY: Instant := 86400

  /** Dates as parsed; None stands for an empty or malformed one. */
  datatype RuleConditions = RuleConditions(daysOfWeek: seq<int>, timeFrom: string, timeTo: string,
                                           validFrom: Option<Instant>, validTo: Option<Instant>,
                                           customerTags: seq<string>)

  datatype PricingRule = PricingRule(name: string, ruleType: RuleType, discount: Discount, buyQuantity: real,
                                     bonusQuantity: real, conditions: RuleConditions, active: bool)

  type Weekday = d: nat | d < 7

  type MinuteOfDay = k: nat | k < 1440

  /** The moment of a request: its instant in seconds, its weekday counted from Sunday as 0, its minute of the day. */
  datatype Moment = Moment(instant: Instant, weekday: Weekday, minute: MinuteOfDay)

  datatype PriceInput = PriceInput(quantity: real, customerTags: seq<string>, now: Moment)

  datatype PriceResult = PriceResult(basePrice: int, effectivePrice: int, totalQuantity: real,
                                     appliedRules: seq<string>)

  // ---------- Conditions ----------

  /** Go's order on strings. */
  predicate Less(a: string, b: string) {
    b != "" && (a == "" || a[0] < b[0] || (a[0] == b[0] && Less(a[1..], b[1..])))
  }

  function Digit(d: nat): char
    requires d < 10
  {
    '0' + d as char
  }

  /** The time as printed: hh:mm. */
  function Clock(k: MinuteOfDay): string {
    [Digit(k / 600), Digit(k / 60 % 10), ':', Digit(k % 60 / 10), Digit(k % 10)]
  }

  function IsoDay(weekday: Weekday): int { if weekday == 0 then 7 else weekday }

  predicate InWindow(from: string, k: MinuteOfDay, to: string) { !Less(Clock(k), from) && !Less(to, Clock(k)) }

  /** A window without both ends is no restriction, and a date range ends with the day after its last date's start. */
  predicate OnSchedule(c: RuleConditions, now: Moment) {
    && (c.daysOfWeek == [] || IsoDay(now.weekday) in c.daysOfWeek)
    && (c.validFrom.Some? ==> c.validFrom.value <= now.instant)
    && (c.validTo.Some? ==> now.instant <= c.validTo.value + ONE_DAY)
    && (c.timeFrom != "" && c.timeTo != "" ==> InWindow(c.timeFrom, now.minute, c.timeTo))
  }

  predicate SharesTag(required: seq<string>, tags: seq<string>) {
    exists i :: 0 <= i < |required| && required[i] in tags
  }

  method MatchesSchedule(c: RuleConditions, now: Moment) returns (matches: bool)
    ensures matches <==> OnSchedule(c, now)
  {
    if |c.daysOfWeek| > 0 {
      var weekday: nat := now.weekday;
      if weekday == 0 {
        weekday := 7;
      }
      var found := false;
      for i := 0 to |c.daysOfWeek|
        invariant !found && weekday !in c.daysOfWeek[..i]
      {
        if c.daysOfWeek[i] == weekday {
          found := true;
          break;
        }
      }
      if !found {
        return false;
      }
    }
    if c.validFrom.Some? && now.instant < c.validFrom.value {
      return false;
    }
    if c.validTo.Some? && now.instant > c.validTo.value + ONE_DAY {
      return false;
    }
    if c.timeFrom != "" && c.timeTo != "" {
      var nowTime := Clock(now.minute);
      if Less(nowTime, c.timeFrom) || Less(c.timeTo, nowTime) {
        return false;
      }
    }
    return true;
  }

  method MatchesCustomerTags(required: seq<string>, tags: seq<string>) returns (matches: bool)
    ensures matches <==> SharesTag(required, tags)
  {
    if |required| == 0 {
      return false;
    }
    var tagSet := {};
    for i := 0 to |tags|
      invariant forall t :: t in tagSet <==> t in tags[..i]
    {
      tagSet := tagSet + {tags[i]};
    }
    for i := 0 to |required|
      invariant forall j :: 0 <= j < i ==> required[j] !in tags
    {
      if required[i] in tagSet {
        return true;
      }
    }
    return false;
  }

  // ---------- When a time window can be met ----------

  lemma {:induction false} LessIsTransitive(a: string, b: string, c: string)
    requires !Less(b, a) && !Less(c, b)
    ensures !Less(c, a)
  {
    if a != "" && b != "" && c != "" && a[0] == b[0] == c[0] {
      LessIsTransitive(a[1..], b[1..], c[1..]);
    }
  }

  lemma LessByFirst(a: char, s: string, b: char, t: string)
    ensures Less([a] + s, [b] + t) <==> a < b || (a == b && Less(s, t))
  {
    assert ([a] + s)[1..] == s && ([b] + t)[1..] == t;
  }

  lemma LessByDigits(a: string, b: string)
    requires |a| == |b| == 5 && a[2] == b[2]
    ensures Less(a, b) <==>
              (a[0] < b[0] || (a[0] == b[0]
                               && (a[1] < b[1] || (a[1] == b[1]
                                                   && (a[3] < b[3] || (a[3] == b[3] && a[4] < b[4]))))))
  {
    assert a == [a[0]] + a[1..] && b == [b[0]] + b[1..];
    LessByFirst(a[0], a[1..], b[0], b[1..]);
    assert a[1..] == [a[1]] + a[2..] && b[1..] == [b[1]] + b[2..];
    LessByFirst(a[1], a[2..], b[1], b[2..]);
    assert a[2..] == [a[2]] + a[3..] && b[2..] == [b[2]] + b[3..];
    LessByFirst(a[2], a[3..], b[2], b[3..]);
    assert a[3..] == [a[3]] + [a[4]] && b[3..] == [b[3]] + [b[4]];
    LessByFirst(a[3], [a[4]], b[3], [b[4]]);
    LessByFirst(a[4], "", b[4], "");
    assert [a[4]] + "" == [a[4]] && [b[4]] + "" == [b[4]];
  }

  /** The digits of a printed time and the minute they stand for. */
  lemma ClockDigits(k: MinuteOfDay) returns (a: nat, b: nat, c: nat, d: nat)
    ensures a < 3 && b < 10 && c < 6 && d < 10 && k == 600 * a + 60 * b + 10 * c + d
    ensures Clock(k) == [Digit(a), Digit(b), ':', Digit(c), Digit(d)]
  {
    a, b, c, d := k / 600, k / 60 % 10, k % 60 / 10, k % 10;
    assert k / 60 == 10 * a + b && k % 60 == 10 * c + d;
  }

  /** Printed times are ordered as the minutes of the day. */
  lemma ClocksInOrder(j: MinuteOfDay, k: MinuteOfDay)
    ensures Less(Clock(j), Clock(k)) <==> j < k
  {
    var a, b, c, d := ClockDigits(j);
    var a', b', c', d' := ClockDigits(k);
    LessByDigits(Clock(j), Clock(k));
  }

  /** The first minute whose printed time is not below `from`, or the number of minutes. */
  function FirstFrom(from: string, k: nat): (first: nat)
    requires k <= 1440
    ensures k <= first <= 1440 && (first < 1440 ==> !Less(Clock(first), from))
    ensures forall j :: k <= j < first ==> Less(Clock(j), from)
    decreases 1440 - k
  {
    if k == 1440 || !Less(Clock(k), from) then k else FirstFrom(from, k + 1)
  }

  /** Whatever texts are given as its ends, a window is met at some time of the day if and only if the least printed
      time not below its start exists and is not above its end. */
  lemma WindowIsMet(from: string, to: string)
    ensures (exists k: MinuteOfDay :: InWindow(from, k, to))
       <==> FirstFrom(from, 0) < 1440 && !Less(to, Clock(FirstFrom(from, 0)))
  {
    var first := FirstFrom(from, 0);
    forall k: MinuteOfDay | InWindow(from, k, to) ensures first < 1440 && !Less(to, Clock(first)) {
      ClocksInOrder(k, first);
      LessIsTransitive(Clock(first), Clock(k), to);
    }
    if first < 1440 && !Less(to, Clock(first)) {
      assert InWindow(from, first, to);
    }
  }

  /** A window that starts at a printed time is met if and only if it does not end before it starts. */
  lemma PrintedWindowIsMet(start: MinuteOfDay, to: string)
    ensures (exists k: MinuteOfDay :: InWindow(Clock(start), k, to)) <==> !Less(to, Clock(start))
  {
    WindowIsMet(Clock(start), to);
    var first := FirstFrom(Clock(start), 0);
    ClocksInOrder(start, start);
    assert first <= start;
    ClocksInOrder(first, start);
  }

  /** From 22:00 to 06:00: past midnight, never met. */
  lemma NightWindowIsNeverMet(c: RuleConditions, now: Moment)
    requires c.timeFrom == "22:00" && c.timeTo == "06:00"
    ensures !OnSchedule(c, now)
  {
    assert Clock(22 * 60) == "22:00" && Clock(6 * 60) == "06:00";
    ClocksInOrder(6 * 60, 22 * 60);
    PrintedWindowIsMet(22 * 60, "06:00");
    assert !InWindow("22:00", now.minute, "06:00");
  }

  /** From 9:00 to 9:30 without a leading zero: above every printed time, never met. */
  lemma UnpaddedWindowIsNeverMet(c: RuleConditions, now: Moment)
    requires c.timeFrom == "9:00" && c.timeTo == "9:30"
    ensures !OnSchedule(c, now)
  {
    assert Clock(now.minute)[0] < "9:00"[0];
  }

  // ---------- The calculation ----------

  function ApplyDiscount(price: int, d: Discount): int {
    match d.kind
    case Percent => price - TruncDiv(price * d.value, 100)
    case Fixed => if price - d.value < 0 then 0 else price - d.value
    case OtherDiscount => price
  }

  predicate GivesDiscount(rule: PricingRule, input: PriceInput) {
    && rule.active
    && match rule.ruleType
       case ScheduleDiscount => OnSchedule(rule.conditions, input.now)
       case CustomerDiscount => SharesTag(rule.conditions.customerTags, input.customerTags)
       case _ => false
  }

  predicate GivesBonus(rule: PricingRule, quantity: real) {
    rule.active && rule.ruleType.QuantityBonus? && rule.buyQuantity > 0.0 && quantity >= rule.buyQuantity
  }

  /** The discounts that apply, in rule order. */
  function Applied(rules: seq<PricingRule>, input: PriceInput): seq<Discount> {
    if rules == [] then []
    else
      var before, rule := Applied(rules[..|rules| - 1], input), rules[|rules| - 1];
      if GivesDiscount(rule, input) then before + [rule.discount] else before
  }

  function AfterDiscounts(price: int, ds: seq<Discount>): int {
    if ds == [] then price else ApplyDiscount(AfterDiscounts(price, ds[..|ds| - 1]), ds[|ds| - 1])
  }

  function BonusTotal(rule: PricingRule, quantity: real): real
    requires rule.buyQuantity > 0.0
  {
    quantity + (quantity / rule.buyQuantity).Floor as real * rule.bonusQuantity
  }

  /** Only the last bonus rule that fires counts. */
  function WithBonus(rules: seq<PricingRule>, quantity: real): real {
    if rules == [] then quantity
    else
      var rule := rules[|rules| - 1];
      if GivesBonus(rule, quantity) then BonusTotal(rule, quantity) else WithBonus(rules[..|rules| - 1], quantity)
  }

  function Fired(rules: seq<PricingRule>, input: PriceInput): seq<string> {
    if rules == [] then []
    else
      var before, rule := Fired(rules[..|rules| - 1], input), rules[|rules| - 1];
      if GivesDiscount(rule, input) || GivesBonus(rule, input.quantity) then before + [rule.name] else before
  }

  lemma OneMoreRule(basePrice: int, rules: seq<PricingRule>, i: nat, input: PriceInput)
    requires i < |rules|
    ensures AfterDiscounts(basePrice, Applied(rules[..i + 1], input))
         == var price := AfterDiscounts(basePrice, Applied(rules[..i], input));
            if GivesDiscount(rules[i], input) then ApplyDiscount(price, rules[i].discount) else price
    ensures WithBonus(rules[..i + 1], input.quantity)
         == if GivesBonus(rules[i], input.quantity) then BonusTotal(rules[i], input.quantity)
            else WithBonus(rules[..i], input.quantity)
    ensures Fired(rules[..i + 1], input)
         == Fired(rules[..i], input)
            + (if GivesDiscount(rules[i], input) || GivesBonus(rules[i], input.quantity) then [rules[i].name] else [])
  {
    var before, ds := Applied(rules[..i], input), Applied(rules[..i + 1], input);
    assert rules[..i + 1][..i] == rules[..i];
    if GivesDiscount(rules[i], input) {
      assert ds[..|ds| - 1] == before;
    }
  }

  method CalculatePrice(basePrice: int, rules: seq<PricingRule>, input: PriceInput)
    returns (r: Result<PriceResult, ErrorCode>)
    ensures basePrice == 0 ==> r == Err(BadRequest)
    ensures basePrice != 0 ==>
              r == Ok(PriceResult(basePrice, AfterDiscounts(basePrice, Applied(rules, input)),
                                  WithBonus(rules, input.quantity), Fired(rules, input)))
  {
    if basePrice == 0 {
      return Err(BadRequest);
    }
    var result := PriceResult(basePrice, basePrice, input.quantity, []);
    for i := 0 to |rules|
      invariant result == PriceResult(basePrice, AfterDiscounts(basePrice, Applied(rules[..i], input)),
                                      WithBonus(rules[..i], input.quantity), Fired(rules[..i], input))
    {
      var rule := rules[i];
      OneMoreRule(basePrice, rules, i, input);
      if !rule.active {
        continue;
      }
      match rule.ruleType {
        case ScheduleDiscount =>
          var matches := MatchesSchedule(rule.conditions, input.now);
          if matches {
            result := result.(effectivePrice := ApplyDiscount(result.effectivePrice, rule.discount),
                              appliedRules := result.appliedRules + [rule.name]);
          }
        case QuantityBonus =>
          if rule.buyQuantity > 0.0 && input.quantity >= rule.buyQuantity {
            var sets := (input.quantity / rule.buyQuantity).Floor;
            result := result.(totalQuantity := input.quantity + sets as real * rule.bonusQuantity,
                              appliedRules := result.appliedRules + [rule.name]);
          }
        case CustomerDiscount =>
          var matches := MatchesCustomerTags(rule.conditions.customerTags, input.customerTags);
          if matches {
            result := result.(effectivePrice := ApplyDiscount(result.effectivePrice, rule.discount),
                              appliedRules := result.appliedRules + [rule.name]);
          }
        case OtherRule =>
      }
    }
    assert rules[..|rules|] == rules;
    return Ok(result);
  }

  // ---------- Rounding of percent discounts ----------

  predicate WholePercent(d: Discount) { d.kind.Percent? && 0 <= d.value <= 100 }

  ghost predicate AllPercent(ds: seq<Discount>) { forall i :: 0 <= i < |ds| ==> WholePercent(ds[i]) }

  function Factor(d: Discount): real { (100 - d.value) as real / 100.0 }

  /** The price without any rounding: the product of the base and the discount factors. */
  function Exact(price: int, ds: seq<Discount>): real {
    if ds == [] then price as real else Exact(price, ds[..|ds| - 1]) * Factor(ds[|ds| - 1])
  }

  lemma OnePercentStep(price: int, d: Discount)
    requires price >= 0 && WholePercent(d)
    ensures 0 <= ApplyDiscount(price, d) <= price
    ensures 0.0 <= ApplyDiscount(price, d) as real - price as real * Factor(d) < 1.0
  {
    var v := d.value;
    assert 0 <= price * v <= price * 100;
    var q := price * v / 100;
    assert 100 * q <= price * v < 100 * q + 100;
    assert (price * v) as real == price as real * v as real;
    assert price as real * Factor(d) == price as real - (price * v) as real / 100.0;
  }

  /** n roundings put the price at or above the exact one, by less than n kopecks. */
  predicate RoundedUp(price: int, exact: real, n: nat) {
    && price >= 0
    && exact <= price as real <= exact + n as real
    && (n > 0 ==> price as real < exact + n as real)
  }

  /** Percent discounts never help the customer beyond the exact product and cost less than one kopeck each. */
  lemma {:induction false} PercentRounding(price: int, ds: seq<Discount>)
    requires price >= 0 && AllPercent(ds)
    ensures RoundedUp(AfterDiscounts(price, ds), Exact(price, ds), |ds|)
  {
    if ds != [] {
      PercentRounding(price, ds[..|ds| - 1]);
      LastPercentRounding(price, ds);
    }
  }

  lemma LastPercentRounding(price: int, ds: seq<Discount>)
    requires ds != [] && WholePercent(ds[|ds| - 1])
    requires var before := ds[..|ds| - 1]; RoundedUp(AfterDiscounts(price, before), Exact(price, before), |before|)
    ensures RoundedUp(AfterDiscounts(price, ds), Exact(price, ds), |ds|)
  {
    var before := ds[..|ds| - 1];
    PercentStep(AfterDiscounts(price, before), Exact(price, before), ds[|ds| - 1], |before|);
  }

  lemma PercentStep(price: int, exact: real, d: Discount, n: nat)
    requires RoundedUp(price, exact, n) && WholePercent(d)
    ensures RoundedUp(ApplyDiscount(price, d), exact * Factor(d), n + 1)
  {
    OnePercentStep(price, d);
    NextGap(exact, price as real, Factor(d), ApplyDiscount(price, d) as real, n as real);
  }

  /** A gap of at most n shrinks with the factor and grows by less than one rounding. */
  lemma NextGap(exact: real, rounded: real, f: real, next: real, n: real)
    requires exact <= rounded <= exact + n && 0.0 <= f <= 1.0
    requires rounded * f <= next < rounded * f + 1.0
    ensures exact * f <= next < exact * f + n + 1.0
  {
    var gap := rounded - exact;
    assert gap * f >= 0.0 && gap * (1.0 - f) >= 0.0;
    assert rounded * f == exact * f + gap * f;
  }

  /** Reordering percent discounts moves the price by less than their number. */
  lemma ReorderedDiscounts(price: int, ds: seq<Discount>, es: seq<Discount>)
    requires price >= 0 && AllPercent(ds)
    requires multiset(ds) == multiset(es) && ds != []
    ensures Exact(price, ds) == Exact(price, es)
    ensures -|ds| < AfterDiscounts(price, ds) - AfterDiscounts(price, es) < |ds|
  {
    forall i | 0 <= i < |es| ensures WholePercent(es[i]) {
      assert es[i] in multiset(es);
      var k :| 0 <= k < |ds| && ds[k] == es[i];
    }
    ExactIgnoresOrder(price, ds, es);
    PercentRounding(price, ds);
    PercentRounding(price, es);
  }

  const SCALE := (x: real, d: Discount) => x * Factor(d)

  lemma {:induction false} ExactIsFold(price: int, ds: seq<Discount>)
    ensures Exact(price, ds) == Fold(SCALE, price as real, ds)
  {
    if ds != [] {
      ExactIsFold(price, ds[..|ds| - 1]);
    }
  }

  lemma FactorsCommute()
    ensures Commutes(SCALE)
  {
    forall x: real, d: Discount, e: Discount ensures SCALE(SCALE(x, d), e) == SCALE(SCALE(x, e), d) {
      assert x * Factor(d) * Factor(e) == x * Factor(e) * Factor(d);
    }
  }

  lemma ExactIgnoresOrder(price: int, ds: seq<Discount>, es: seq<Discount>)
    requires multiset(ds) == multiset(es)
    ensures |ds| == |es| && Exact(price, ds) == Exact(price, es)
  {
    FactorsCommute();
    FoldIgnoresOrder(SCALE, price as real, ds, es);
    ExactIsFold(price, ds);
    ExactIsFold(price, es);
  }

  // ---------- Fixed discounts ----------

  ghost predicate AllFixed(ds: seq<Discount>) { forall i :: 0 <= i < |ds| ==> ds[i].kind.Fixed? && ds[i].value >= 0 }

  function SumOf(ds: seq<Discount>): int { if ds == [] then 0 else SumOf(ds[..|ds| - 1]) + ds[|ds| - 1].value }

  /** Fixed discounts come off the price in full, down to zero. */
  lemma {:induction false} FixedDiscountsAddUp(price: int, ds: seq<Discount>)
    requires price >= 0 && AllFixed(ds)
    ensures AfterDiscounts(price, ds) == Max(0, price - SumOf(ds)) && SumOf(ds) >= 0
  {
    if ds != [] {
      FixedDiscountsAddUp(price, ds[..|ds| - 1]);
    }
  }

  const ADD_VALUE := (sum: int, d: Discount) => sum + d.value

  lemma {:induction false} SumIsFold(ds: seq<Discount>)
    ensures SumOf(ds) == Fold(ADD_VALUE, 0, ds)
  {
    if ds != [] {
      SumIsFold(ds[..|ds| - 1]);
    }
  }

  /** So their order does not matter. */
  lemma FixedDiscountsIgnoreOrder(price: int, ds: seq<Discount>, es: seq<Discount>)
    requires price >= 0 && AllFixed(ds) && multiset(ds) == multiset(es)
    ensures AfterDiscounts(price, ds) == AfterDiscounts(price, es)
  {
    forall i | 0 <= i < |es| ensures es[i].kind.Fixed? && es[i].value >= 0 {
      assert es[i] in multiset(ds);
      var k :| 0 <= k < |ds| && ds[k] == es[i];
    }
    FixedDiscountsAddUp(price, ds);
    FixedDiscountsAddUp(price, es);
    FoldIgnoresOrder(ADD_VALUE, 0, ds, es);
    SumIsFold(ds);
    SumIsFold(es);
  }

  // ---------- Any mix of discounts ----------

  predicate Reasonable(d: Discount) { WholePercent(d) || (d.kind.Fixed? && d.value >= 0) || d.kind.OtherDiscount? }

  /** Percent discounts of 0 to 100 and nonnegative fixed discounts keep the price between 0 and the base. */
  lemma {:induction false} PriceStaysInRange(price: int, ds: seq<Discount>)
    requires price >= 0
    requires forall i :: 0 <= i < |ds| ==> Reasonable(ds[i])
    ensures 0 <= AfterDiscounts(price, ds) <= price
  {
    if ds != [] {
      var before, d := ds[..|ds| - 1], ds[|ds| - 1];
      PriceStaysInRange(price, before);
      if WholePercent(d) {
        OnePercentStep(AfterDiscounts(price, before), d);
      }
    }
  }

  // ---------- Which rules apply ----------

  /** The price, the quantity and the names after the rules. */
  function Outcome(basePrice: int, rules: seq<PricingRule>, input: PriceInput): PriceResult {
    PriceResult(basePrice, AfterDiscounts(basePrice, Applied(rules, input)), WithBonus(rules, input.quantity),
                Fired(rules, input))
  }

  /** Whether the last rule's conditions hold, by its type. */
  predicate Holds(rule: PricingRule, input: PriceInput) {
    match rule.ruleType
    case ScheduleDiscount => OnSchedule(rule.conditions, input.now)
    case CustomerDiscount =>
      (set r | r in rule.conditions.customerTags) * (set t | t in input.customerTags) != {}
    case QuantityBonus => rule.buyQuantity > 0.0 && input.quantity >= rule.buyQuantity
    case OtherRule => false
  }

  lemma TagsIntersect(required: seq<string>, tags: seq<string>)
    ensures SharesTag(required, tags) <==> (set r | r in required) * (set t | t in tags) != {}
  {
    if SharesTag(required, tags) {
      var i :| 0 <= i < |required| && required[i] in tags;
      assert required[i] in (set r | r in required) * (set t | t in tags);
    }
    if (set r | r in required) * (set t | t in tags) != {} {
      var r :| r in (set r | r in required) * (set t | t in tags);
      var i :| 0 <= i < |required| && required[i] == r;
    }
  }

  /** A further rule that is active and whose conditions hold applies its discount to the price, or replaces the
      bonus by its own for every whole multiple of what has to be bought, and is named; any other changes nothing. */
  lemma LastRuleDecides(basePrice: int, before: seq<PricingRule>, rule: PricingRule, input: PriceInput)
    ensures var a, b := Outcome(basePrice, before, input), Outcome(basePrice, before + [rule], input);
            && (!(rule.active && Holds(rule, input)) ==> b == a)
            && (rule.active && Holds(rule, input) ==>
                  && b.appliedRules == a.appliedRules + [rule.name]
                  && (rule.ruleType.QuantityBonus? ==>
                        b.effectivePrice == a.effectivePrice
                        && exists n: int :: IsMultiple(n, rule.buyQuantity, input.quantity)
                                            && b.totalQuantity == input.quantity + n as real * rule.bonusQuantity)
                  && (!rule.ruleType.QuantityBonus? ==>
                        b.totalQuantity == a.totalQuantity
                        && b.effectivePrice == ApplyDiscount(a.effectivePrice, rule.discount)
                        && (rule.discount.kind.OtherDiscount? ==> b.effectivePrice == a.effectivePrice)))
  {
    var rules := before + [rule];
    assert rules[..|before|] == before && rules[..|rules|] == rules;
    TagsIntersect(rule.conditions.customerTags, input.customerTags);
    OneMoreRule(basePrice, rules, |before|, input);
    if rule.ruleType.QuantityBonus? && Holds(rule, input) {
      MultipleBought(rule, input.quantity);
    }
  }

  /** The quantity holds n whole packages, and not one more. */
  predicate IsMultiple(n: int, package: real, quantity: real) {
    package > 0.0 && n >= 1 && n as real <= quantity / package < n as real + 1.0
  }

  lemma MultipleBought(rule: PricingRule, quantity: real)
    requires rule.buyQuantity > 0.0 && quantity >= rule.buyQuantity
    ensures var n := (quantity / rule.buyQuantity).Floor;
            IsMultiple(n, rule.buyQuantity, quantity)
            && BonusTotal(rule, quantity) == quantity + n as real * rule.bonusQuantity
  {
    var x := quantity / rule.buyQuantity;
    assert x * rule.buyQuantity == quantity;
    if x < 1.0 {
      ProductPositive(1.0 - x, rule.buyQuantity);
      Distributes(1.0, x, rule.buyQuantity);
    }
  }

  /** What each part of a schedule asks for when nothing else is given: weekdays from Monday as 1 to Sunday as 7, and
      dates from the first one's start to a day after the last one's; a time window counts only with both ends. */
  lemma ScheduleParts(c: RuleConditions, now: Moment, day: int)
    ensures c == RuleConditions([], "", "", None, None, c.customerTags) ==> OnSchedule(c, now)
    ensures 1 <= day <= 7 && c == RuleConditions([day], "", "", None, None, c.customerTags) ==>
              (OnSchedule(c, now) <==> now.weekday == day % 7)
    ensures c.validFrom.Some? && c.validTo.Some?
            && c == RuleConditions([], "", "", c.validFrom, c.validTo, c.customerTags) ==>
              (OnSchedule(c, now) <==> c.validFrom.value <= now.instant <= c.validTo.value + 24 * 3600)
    ensures c == RuleConditions([], c.timeFrom, c.timeTo, None, None, c.customerTags) ==>
              (OnSchedule(c, now) <==>
                 c.timeFrom == "" || c.timeTo == "" || InWindow(c.timeFrom, now.minute, c.timeTo))
    ensures OnSchedule(c, now) <==>
              && OnSchedule(c.(daysOfWeek := []), now) && OnSchedule(c.(validFrom := None, validTo := None), now)
              && OnSchedule(c.(timeFrom := "", timeTo := ""), now)
  {
  }
}
