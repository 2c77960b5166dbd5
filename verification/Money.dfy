/** Printing int64 kopeck amounts, and reading the printed text back. */
module Money {
  import opened Common

  const MIN_INT64: int := -0x8000_0000_0000_0000

  predicate Int64(n: int) { MIN_INT64 <= n < -MIN_INT64 }

  /** Negation of an int64: the least value is its own negation. */
  function Negated(n: int): int
    requires Int64(n)
  {
    if n == MIN_INT64 then n else -n
  }

  // ---------- Decimal digits ----------

  function Digit(d: nat): char
    requires d < 10
  {
    '0' + d as char
  }

  function Digits(n: nat): (s: string)
    ensures |s| >= 1
  {
    if n < 10 then [Digit(n)] else Digits(n / 10) + [Digit(n % 10)]
  }

  /** `%d` */
  function Decimal(n: int): string {
    if n < 0 then "-" + Digits(-n) else Digits(n)
  }

  /** `%02d`: the sign counts toward the width. */
  function TwoDigits(n: int): string {
    if n < 0 then "-" + Digits(-n) else if n < 10 then "0" + Digits(n) else Digits(n)
  }

  predicate IsDigit(c: char) { '0' <= c <= '9' }

  predicate AllDigits(s: string) { forall i :: 0 <= i < |s| ==> IsDigit(s[i]) }

  function Value(s: string): nat
    requires AllDigits(s)
  {
    if s == "" then 0 else Value(s[..|s| - 1]) * 10 + (s[|s| - 1] - '0') as nat
  }

  lemma {:induction false} DigitsRead(n: nat)
    ensures AllDigits(Digits(n)) && Value(Digits(n)) == n
  {
    if n >= 10 {
      DigitsRead(n / 10);
      assert Digits(n)[..|Digits(n)| - 1] == Digits(n / 10);
    }
  }

  lemma TwoDigitsRead(n: nat)
    requires n < 100
    ensures |TwoDigits(n)| == 2 && AllDigits(TwoDigits(n)) && Value(TwoDigits(n)) == n
  {
    DigitsRead(n);
    if n < 10 {
      LeadingZero(Digits(n));
      assert Digits(n) == [Digit(n)];
    } else {
      assert Digits(n / 10) == [Digit(n / 10)];
    }
  }

  lemma {:induction false} LeadingZero(s: string)
    requires AllDigits(s)
    ensures AllDigits("0" + s) && Value("0" + s) == Value(s)
  {
    var padded := "0" + s;
    if s == "" {
      assert padded[..0] == "" && padded[0] == '0';
    } else {
      LeadingZero(s[..|s| - 1]);
      assert padded[..|padded| - 1] == "0" + s[..|s| - 1];
    }
  }

  // ---------- Grouping ----------

  /** Groups of three from the right, separated by spaces. */
  function Grouped(s: string): string {
    if |s| <= 3 then s else Grouped(s[..|s| - 3]) + " " + s[|s| - 3..]
  }

  function Prefixed(parts: seq<string>): string {
    if parts == [] then "" else " " + parts[0] + Prefixed(parts[1..])
  }

  /** `strings.Join(parts, " ")` */
  function Join(parts: seq<string>): string
    requires parts != []
  {
    parts[0] + Prefixed(parts[1..])
  }

  method FormatWithSpaces(n: int) returns (text: string)
    ensures text == Grouped(Decimal(n))
  {
    var s := Decimal(n);
    if |s| <= 3 {
      return s;
    }
    var parts: seq<string> := [];
    while |s| > 3
      invariant Grouped(Decimal(n)) == Grouped(s) + Prefixed(parts)
    {
      var group := s[|s| - 3..];
      assert Prefixed([group] + parts) == " " + group + Prefixed(parts);
      parts := [group] + parts;
      s := s[..|s| - 3];
    }
    parts := [s] + parts;
    text := Join(parts);
  }

  function Symbol(currency: string): string {
    match currency
    case "RUB" => "₽"
    case "USD" => "$"
    case "EUR" => "€"
    case _ => currency
  }

  /** The amount without sign and symbol. */
  function Unsigned(magnitude: int): string {
    Grouped(Decimal(Rubles(magnitude))) + "," + TwoDigits(Kopecks(magnitude))
  }

  function Rubles(magnitude: int): int { TruncDiv(magnitude, 100) }

  function Kopecks(magnitude: int): int { magnitude - 100 * Rubles(magnitude) }

  function Signed(negative: bool, text: string): string { if negative then "-" + text else text }

  function Formatted(amount: int, currency: string): string
    requires Int64(amount)
  {
    Signed(amount < 0, Unsigned(if amount < 0 then Negated(amount) else amount) + " " + Symbol(currency))
  }

  method Format(amount: int, currency: string) returns (result: string)
    requires Int64(amount)
    ensures result == Formatted(amount, currency)
  {
    var magnitude := amount;
    var negative := magnitude < 0;
    if negative {
      magnitude := Negated(magnitude);
    }
    var rubles := TruncDiv(magnitude, 100);
    var kopecks := magnitude - 100 * rubles;
    var rubStr := FormatWithSpaces(rubles);
    var symbol;
    match currency {
      case "RUB" => symbol := "₽";
      case "USD" => symbol := "$";
      case "EUR" => symbol := "€";
      case _ => symbol := currency;
    }
    result := rubStr + "," + TwoDigits(kopecks) + " " + symbol;
    if negative {
      result := "-" + result;
    }
    assert result == Formatted(amount, currency);
  }

  // ---------- Reading back ----------

  function WithoutSpaces(s: string): string {
    if s == "" then "" else (if s[0] == ' ' then "" else [s[0]]) + WithoutSpaces(s[1..])
  }

  /** The position of the first comma, or the length of the text. */
  function CommaAt(s: string): (i: nat)
    ensures i <= |s|
  {
    if s == "" || s[0] == ',' then 0 else 1 + CommaAt(s[1..])
  }

  /** Reads rubles and kopecks around the comma. */
  function ParseUnsigned(s: string): Option<nat> {
    ParseText(WithoutSpaces(s))
  }

  function ParseText(text: string): Option<nat> {
    var i := CommaAt(text);
    if i == |text| then None else Combine(text[..i], text[i + 1..])
  }

  function Combine(rubles: string, kopecks: string): Option<nat> {
    if rubles != "" && |kopecks| == 2 && AllDigits(rubles) && AllDigits(kopecks)
    then Some(Value(rubles) * 100 + Value(kopecks)) else None
  }

  /** Drops sign, symbol and spaces, and splits at the comma. */
  function Parse(text: string, currency: string): Option<int> {
    var negative := text != "" && text[0] == '-';
    var body := if negative then text[1..] else text;
    var suffix := " " + Symbol(currency);
    if |body| < |suffix| || body[|body| - |suffix|..] != suffix then None
    else
      Reading(negative, ParseUnsigned(body[..|body| - |suffix|]))
  }

  function WithSign(negative: bool, magnitude: int): int { if negative then -magnitude else magnitude }

  /** Printing loses nothing, in any currency, except for the one int64 without a positive counterpart. */
  lemma RoundTrip(amount: int, currency: string)
    requires Int64(amount)
    ensures Parse(Formatted(amount, currency), currency) == Some(amount) <==> amount > MIN_INT64
  {
    if amount > MIN_INT64 {
      FormattedReads(amount, currency);
    } else {
      LeastAmountUnreadable(currency);
      ParsePeels(true, Unsigned(MIN_INT64), currency);
    }
  }

  lemma FormattedReads(amount: int, currency: string)
    requires Int64(amount) && amount > MIN_INT64
    ensures Parse(Formatted(amount, currency), currency) == Some(amount)
  {
    var negative, magnitude := amount < 0, if amount < 0 then -amount else amount;
    UnsignedStartsWithDigit(magnitude);
    UnsignedReads(magnitude);
    ParsePeels(negative, Unsigned(magnitude), currency);
  }

  function Reading(negative: bool, magnitude: Option<nat>): Option<int> {
    if magnitude.None? then None else Some(WithSign(negative, magnitude.value))
  }

  lemma ParsePeels(negative: bool, digits: string, currency: string)
    requires negative || (digits != "" && digits[0] != '-')
    ensures Parse(Signed(negative, digits + " " + Symbol(currency)), currency)
         == Reading(negative, ParseUnsigned(digits))
  {
    var suffix := " " + Symbol(currency);
    var body := digits + " " + Symbol(currency);
    assert body == digits + suffix;
    assert body[..|body| - |suffix|] == digits && body[|body| - |suffix|..] == suffix;
    if negative {
      assert ("-" + body)[1..] == body;
    }
  }

  lemma UnsignedReads(magnitude: nat)
    ensures ParseUnsigned(Unsigned(magnitude)) == Some(magnitude)
  {
    var r, k := Rubles(magnitude), Kopecks(magnitude);
    DigitsRead(r);
    TwoDigitsRead(k);
    PartsRead(Digits(r), TwoDigits(k));
    assert Decimal(r) == Digits(r);
  }

  lemma PartsRead(rubles: string, kopecks: string)
    requires rubles != "" && |kopecks| == 2 && AllDigits(rubles) && AllDigits(kopecks)
    ensures ParseUnsigned(Grouped(rubles) + "," + kopecks) == Combine(rubles, kopecks)
  {
    UngroupedText(rubles, "," + kopecks);
    assert Grouped(rubles) + "," + kopecks == Grouped(rubles) + ("," + kopecks);
    TextReads(rubles, kopecks);
  }

  lemma TextReads(rubles: string, kopecks: string)
    requires rubles != "" && |kopecks| == 2 && AllDigits(rubles) && AllDigits(kopecks)
    ensures ParseText(rubles + ("," + kopecks)) == Combine(rubles, kopecks)
  {
    var text := rubles + ("," + kopecks);
    FirstComma(rubles, "," + kopecks);
    assert text[|rubles|] == ',';
    assert text[..|rubles|] == rubles && text[|rubles| + 1..] == kopecks;
  }

  lemma UnsignedStartsWithDigit(magnitude: nat)
    ensures Unsigned(magnitude) != "" && Unsigned(magnitude)[0] != '-'
  {
    DigitsRead(Rubles(magnitude));
    GroupedStart(Digits(Rubles(magnitude)));
  }

  lemma {:induction false} GroupedStart(s: string)
    requires s != ""
    ensures Grouped(s) != "" && Grouped(s)[0] == s[0]
  {
    if |s| > 3 {
      GroupedStart(s[..|s| - 3]);
    }
  }

  lemma {:induction false} SpacesOut(a: string, b: string)
    ensures WithoutSpaces(a + b) == WithoutSpaces(a) + WithoutSpaces(b)
  {
    if a == "" {
      assert a + b == b;
    } else {
      assert (a + b)[1..] == a[1..] + b;
      SpacesOut(a[1..], b);
    }
  }

  lemma {:induction false} NoSpaces(s: string)
    requires ' ' !in s
    ensures WithoutSpaces(s) == s
  {
    if s != "" {
      NoSpaces(s[1..]);
    }
  }

  lemma {:induction false} GroupingOnlyAddsSpaces(s: string)
    requires ' ' !in s
    ensures WithoutSpaces(Grouped(s)) == s
  {
    if |s| <= 3 {
      NoSpaces(s);
    } else {
      var head, tail := s[..|s| - 3], s[|s| - 3..];
      GroupingOnlyAddsSpaces(head);
      GroupAdded(Grouped(head), tail);
      assert head + tail == s;
    }
  }

  lemma OneSpace()
    ensures WithoutSpaces(" ") == ""
  {
    assert " "[1..] == "";
  }

  lemma GroupAdded(groups: string, tail: string)
    requires ' ' !in tail
    ensures WithoutSpaces(groups + " " + tail) == WithoutSpaces(groups) + tail
  {
    var spaced := groups + " ";
    OneSpace();
    SpacesOut(groups, " ");
    assert WithoutSpaces(spaced) == WithoutSpaces(groups);
    SpacesOut(spaced, tail);
    NoSpaces(tail);
  }

  lemma UngroupedText(s: string, rest: string)
    requires ' ' !in s && ' ' !in rest
    ensures WithoutSpaces(Grouped(s) + rest) == s + rest
  {
    SpacesOut(Grouped(s), rest);
    GroupingOnlyAddsSpaces(s);
    NoSpaces(rest);
  }

  lemma {:induction false} FirstComma(s: string, rest: string)
    requires ',' !in s && rest != "" && rest[0] == ','
    ensures CommaAt(s + rest) == |s|
  {
    if s == "" {
      assert s + rest == rest;
    } else {
      assert (s + rest)[1..] == s[1..] + rest;
      FirstComma(s[1..], rest);
    }
  }

  /** The least int64 has negative parts and prints with two minus signs, and with the first one taken off it cannot be
      read. */
  lemma LeastAmountUnreadable(currency: string)
    ensures |Formatted(MIN_INT64, currency)| >= 2 && Formatted(MIN_INT64, currency)[..2] == "--"
    ensures ParseUnsigned(Unsigned(MIN_INT64)) == None
    ensures Rubles(MIN_INT64) == -92233720368547758 && Kopecks(MIN_INT64) == -8
  {
    var rubles := Decimal(Rubles(MIN_INT64));
    assert rubles[0] == '-';
    GroupedStart(rubles);
    var text := Unsigned(MIN_INT64);
    assert text[0] == '-';
    assert Formatted(MIN_INT64, currency) == "-" + (text + " " + Symbol(currency));
    LeadingMinusUnreadable(text);
  }

  lemma LeadingMinusUnreadable(text: string)
    requires text != "" && text[0] == '-'
    ensures ParseUnsigned(text) == None
  {
    assert WithoutSpaces(text) == "-" + WithoutSpaces(text[1..]);
    assert !IsDigit('-');
    var i := CommaAt(WithoutSpaces(text));
    assert i >= 1;
    if i < |WithoutSpaces(text)| {
      assert WithoutSpaces(text)[..i][0] == '-';
    }
  }

  // ---------- Shape of the groups ----------

  /** `strings.Split(s, " ")` */
  function Split(s: string): (parts: seq<string>)
    ensures parts != []
  {
    if s == "" then [""]
    else
      var rest := Split(s[1..]);
      if s[0] == ' ' then [""] + rest else [[s[0]] + rest[0]] + rest[1..]
  }

  /** Split at spaces, the printed number has a first group of one to three digits and then groups of three. */
  lemma GroupShape(n: nat)
    ensures var groups := Split(Grouped(Decimal(n)));
            && 1 <= |groups[0]| <= 3
            && (forall i :: 1 <= i < |groups| ==> |groups[i]| == 3)
            && (forall i :: 0 <= i < |groups| ==> AllDigits(groups[i]))
  {
    DigitsRead(n);
    GroupsOf(Digits(n));
  }

  lemma {:induction false} GroupsOf(s: string)
    requires s != "" && AllDigits(s)
    ensures var groups := Split(Grouped(s));
            && 1 <= |groups[0]| <= 3
            && (forall i :: 1 <= i < |groups| ==> |groups[i]| == 3)
            && (forall i :: 0 <= i < |groups| ==> AllDigits(groups[i]))
  {
    if |s| <= 3 {
      OneGroup(s);
    } else {
      var head, tail := s[..|s| - 3], s[|s| - 3..];
      GroupsOf(head);
      SplitLast(Grouped(head), tail);
    }
  }

  lemma {:induction false} OneGroup(s: string)
    requires ' ' !in s
    ensures Split(s) == [s]
  {
    if s != "" {
      OneGroup(s[1..]);
      assert [s[0]] + s[1..] == s;
    }
  }

  lemma {:induction false} SplitLast(s: string, tail: string)
    requires ' ' !in tail
    ensures Split(s + " " + tail) == Split(s) + [tail]
  {
    if s == "" {
      assert s + " " + tail == " " + tail && (" " + tail)[1..] == tail;
      OneGroup(tail);
    } else {
      assert (s + " " + tail)[1..] == s[1..] + " " + tail;
      SplitLast(s[1..], tail);
    }
  }

  // ---------- Some printed amounts ----------

  lemma {:induction false} FifteenHundred()
    ensures Digits(1500) == "1500" && Digits(0) == "0" && Digits(5) == "5" && Digits(25) == "25"
  {
    assert Digits(15) == "15" && Digits(150) == "150";
  }

  /** 1500.25 rubles, five cents owed, and the symbols of all currencies. */
  lemma PrintedAmounts(currency: string)
    ensures Formatted(150025, "RUB") == "1 500,25 ₽" && Formatted(-5, "USD") == "-0,05 $"
    ensures Symbol("EUR") == "€"
    ensures currency !in {"RUB", "USD", "EUR"} ==> Symbol(currency) == currency
  {
    FifteenHundred();
    assert Grouped("1500") == "1 500" by { assert "1500"[..1] == "1" && "1500"[1..] == "500"; }
  }
}
