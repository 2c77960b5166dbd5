/** The finance service and its tables: double-entry postings, monthly periods and cash operations of any number of
    organizations. */
module Ledger {
  import opened Common

  type Id = nat

  datatype Date = Date(year: int, month: int, day: int)

  predicate AtMost(a: Date, b: Date) {
    a.year < b.year || (a.year == b.year && (a.month < b.month || (a.month == b.month && a.day <= b.day)))
  }

  /** Dates are totally ordered, by year, then month, then day. */
  lemma DatesInOrder(a: Date, b: Date, c: Date)
    ensures AtMost(a, b) || AtMost(b, a)
    ensures AtMost(a, b) && AtMost(b, a) ==> a == b
    ensures AtMost(a, b) && AtMost(b, c) ==> AtMost(a, c)
    ensures a.year < b.year ==> AtMost(a, b)
    ensures a.year == b.year && a.month < b.month ==> AtMost(a, b)
    ensures a.year == b.year && a.month == b.month && a.day < b.day ==> AtMost(a, b)
  {
  }

  predicate Between(from: Date, d: Date, to: Date) { AtMost(from, d) && AtMost(d, to) }

  datatype AccountType = Asset | Liability | Equity | Revenue | Expense

  datatype Account = Account(id: Id, org: Id, code: string, kind: AccountType, isSystem: bool, parent: Option<Id>)

  datatype Txn = Txn(id: Id, org: Id, date: Date, posted: bool)

  datatype Line = Line(txn: Id, org: Id, account: Id, debit: int, credit: int)

  datatype LineInput = LineInput(account: Id, debit: int, credit: int)

  datatype Month = Month(org: Id, year: int, month: int)

  datatype CashOperation = CashOperation(org: Id, kind: string, amount: int, code: string)

  /** `closed` holds the period rows; a month without a row is open. */
  datatype Tables = Tables(accounts: seq<Account>, txns: seq<Txn>, lines: seq<Line>, closed: map<Month, bool>,
                           cash: seq<CashOperation>, nextId: Id)

  const EMPTY_TABLES := Tables([], [], [], map[], [], 0)

  datatype Op =
    | SeedDefaultAccounts(org: Id)
    | CreateAccount(org: Id, code: string, name: string, kind: string, parent: Option<Id>)
    | DeleteAccount(org: Id, account: Id)
    | CreateTransaction(org: Id, date: Option<Date>, lines: seq<LineInput>)
    | PostTransaction(org: Id, txn: Id)
    | CreateAutoTransaction(org: Id, date: Option<Date>, debitCode: string, creditCode: string, amount: int)
    | ClosePeriod(org: Id, year: int, month: int)
    | ReopenPeriod(org: Id, year: int, month: int)
    | CreateCashOperation(org: Id, kind: string, amount: int, code: string, today: Date)

  // ---------- Accounts ----------

  function TypeOf(kind: string): Option<AccountType> {
    match kind
    case "asset" => Some(Asset)
    case "liability" => Some(Liability)
    case "equity" => Some(Equity)
    case "revenue" => Some(Revenue)
    case "expense" => Some(Expense)
    case _ => None
  }

  const DEFAULT_ACCOUNTS: seq<(string, AccountType)> :=
    [("10", Asset), ("41", Asset), ("44", Expense), ("50", Asset), ("51", Asset), ("60", Liability), ("62", Asset),
     ("70", Liability), ("90", Revenue), ("91", Revenue), ("99", Equity)]

  predicate HasId(accounts: seq<Account>, id: Id) { exists i :: 0 <= i < |accounts| && accounts[i].id == id }

  predicate HasCode(accounts: seq<Account>, org: Id, code: string) {
    exists i :: 0 <= i < |accounts| && accounts[i].org == org && accounts[i].code == code
  }

  /** The position of the organization's account with this id, or the number of accounts. */
  function FindAccount(accounts: seq<Account>, org: Id, id: Id): (k: nat)
    ensures k <= |accounts| && (k < |accounts| ==> accounts[k].org == org && accounts[k].id == id)
    ensures forall j :: 0 <= j < k ==> accounts[j].org != org || accounts[j].id != id
  {
    if accounts == [] || (accounts[0].org == org && accounts[0].id == id) then 0
    else 1 + FindAccount(accounts[1..], org, id)
  }

  function FindByCode(accounts: seq<Account>, org: Id, code: string): (k: nat)
    ensures k <= |accounts| && (k < |accounts| ==> accounts[k].org == org && accounts[k].code == code)
    ensures k == |accounts| ==> !HasCode(accounts, org, code)
  {
    if accounts == [] || (accounts[0].org == org && accounts[0].code == code) then 0
    else
      var k := FindByCode(accounts[1..], org, code);
      assert forall i :: 0 < i < |accounts| ==> accounts[i] == accounts[1..][i - 1];
      1 + k
  }

  function Seeded(org: Id, n: nat, firstId: Id): seq<Account>
    requires n <= |DEFAULT_ACCOUNTS|
  {
    seq(n, i requires 0 <= i < n =>
      Account(firstId + i, org, DEFAULT_ACCOUNTS[i].0, DEFAULT_ACCOUNTS[i].1, true, None))
  }

  predicate Referenced(t: Tables, account: Id) {
    (exists i :: 0 <= i < |t.lines| && t.lines[i].account == account)
    || (exists i :: 0 <= i < |t.accounts| && t.accounts[i].parent == Some(account))
  }

  predicate HasLines(t: Tables, org: Id, account: Id) {
    exists i :: 0 <= i < |t.lines| && t.lines[i].org == org && t.lines[i].account == account
  }

  // ---------- Transactions and periods ----------

  function MonthOf(org: Id, d: Date): Month { Month(org, d.year, d.month) }

  predicate IsOpen(t: Tables, m: Month) { m in t.closed ==> !t.closed[m] }

  predicate GoodLine(l: LineInput) {
    l.debit >= 0 && l.credit >= 0 && !(l.debit > 0 && l.credit > 0) && !(l.debit == 0 && l.credit == 0)
  }

  function Debits(lines: seq<LineInput>): int {
    if lines == [] then 0 else Debits(lines[..|lines| - 1]) + lines[|lines| - 1].debit
  }

  function Credits(lines: seq<LineInput>): int {
    if lines == [] then 0 else Credits(lines[..|lines| - 1]) + lines[|lines| - 1].credit
  }

  predicate GoodLines(lines: seq<LineInput>) { forall i :: 0 <= i < |lines| ==> GoodLine(lines[i]) }

  predicate AccountsExist(t: Tables, lines: seq<LineInput>) {
    forall i :: 0 <= i < |lines| ==> HasId(t.accounts, lines[i].account)
  }

  function TransactionRefusal(t: Tables, org: Id, date: Option<Date>, lines: seq<LineInput>): Option<ErrorCode> {
    if |lines| < 2 || date.None? then Some(BadRequest)
    else if !IsOpen(t, MonthOf(org, date.value)) then Some(Conflict)
    else if !GoodLines(lines) || Debits(lines) != Credits(lines) then Some(BadRequest)
    else if !AccountsExist(t, lines) then Some(StorageError)
    else None
  }

  function LinesOf(txn: Id, org: Id, lines: seq<LineInput>): seq<Line> {
    seq(|lines|, i requires 0 <= i < |lines| => Line(txn, org, lines[i].account, lines[i].debit, lines[i].credit))
  }

  function Entered(t: Tables, org: Id, date: Date, lines: seq<LineInput>): Tables {
    t.(txns := t.txns + [Txn(t.nextId, org, date, false)], lines := t.lines + LinesOf(t.nextId, org, lines),
       nextId := t.nextId + 1)
  }

  function FindTxn(txns: seq<Txn>, org: Id, id: Id): (k: nat)
    ensures k <= |txns| && (k < |txns| ==> txns[k].org == org && txns[k].id == id)
    ensures forall j :: 0 <= j < k ==> txns[j].org != org || txns[j].id != id
  {
    if txns == [] || (txns[0].org == org && txns[0].id == id) then 0 else 1 + FindTxn(txns[1..], org, id)
  }

  function PostRefusal(t: Tables, org: Id, txn: Id): Option<ErrorCode> {
    var k := FindTxn(t.txns, org, txn);
    if k == |t.txns| then Some(NotFound) else if t.txns[k].posted then Some(Conflict) else None
  }

  function Posted(t: Tables, org: Id, txn: Id): Tables
    requires PostRefusal(t, org, txn).None?
  {
    var k := FindTxn(t.txns, org, txn);
    t.(txns := t.txns[k := t.txns[k].(posted := true)])
  }

  /** The two lines of an automatic posting. */
  function AutoLines(t: Tables, org: Id, debitCode: string, creditCode: string, amount: int): seq<LineInput> {
    var d, c := FindByCode(t.accounts, org, debitCode), FindByCode(t.accounts, org, creditCode);
    if d == |t.accounts| || c == |t.accounts| then []
    else [LineInput(t.accounts[d].id, amount, 0), LineInput(t.accounts[c].id, 0, amount)]
  }

  function AutoRefusal(t: Tables, org: Id, date: Option<Date>, debitCode: string, creditCode: string, amount: int)
    : Option<ErrorCode>
  {
    if !HasCode(t.accounts, org, debitCode) || !HasCode(t.accounts, org, creditCode) then Some(NotFound)
    else TransactionRefusal(t, org, date, AutoLines(t, org, debitCode, creditCode, amount))
  }

  /** Entered and posted at once; a refused posting changes nothing. */
  function AutoPosted(t: Tables, org: Id, date: Option<Date>, debitCode: string, creditCode: string, amount: int)
    : Tables
  {
    if AutoRefusal(t, org, date, debitCode, creditCode, amount).Some? then t
    else
      var e := Entered(t, org, date.value, AutoLines(t, org, debitCode, creditCode, amount));
      e.(txns := t.txns + [Txn(t.nextId, org, date.value, true)])
  }

  function Counterpart(code: string): string { if code == "" then "50" else code }

  function CashDebit(kind: string, code: string): string {
    if kind == "withdrawal" then (if Counterpart(code) == "50" then "91" else Counterpart(code)) else "50"
  }

  function CashCredit(kind: string, code: string): string {
    if kind == "withdrawal" then "50" else if Counterpart(code) == "50" then "91" else Counterpart(code)
  }

  // ---------- What each call does to the tables ----------

  function Refusal(t: Tables, op: Op): Option<ErrorCode> {
    match op
    case SeedDefaultAccounts(org) =>
      if exists i :: 0 <= i < |DEFAULT_ACCOUNTS| && HasCode(t.accounts, org, DEFAULT_ACCOUNTS[i].0)
      then Some(StorageError)
      else None
    case CreateAccount(org, code, name, kind, parent) =>
      if code == "" || name == "" || TypeOf(kind).None? then Some(BadRequest)
      else if HasCode(t.accounts, org, code) || (parent.Some? && !HasId(t.accounts, parent.value))
      then Some(StorageError)
      else None
    case DeleteAccount(org, account) =>
      var k := FindAccount(t.accounts, org, account);
      if k == |t.accounts| then Some(NotFound)
      else if t.accounts[k].isSystem || HasLines(t, org, account) then Some(Conflict)
      else if Referenced(t, account) then Some(StorageError)
      else None
    case CreateTransaction(org, date, lines) => TransactionRefusal(t, org, date, lines)
    case PostTransaction(org, txn) => PostRefusal(t, org, txn)
    case CreateAutoTransaction(org, date, debitCode, creditCode, amount) =>
      AutoRefusal(t, org, date, debitCode, creditCode, amount)
    case ClosePeriod(org, year, month) =>
      if month < 1 || month > 12 then Some(BadRequest)
      else if !IsOpen(t, Month(org, year, month)) then Some(Conflict)
      else None
    case ReopenPeriod(org, year, month) =>
      if Month(org, year, month) !in t.closed then Some(NotFound)
      else if !t.closed[Month(org, year, month)] then Some(Conflict)
      else None
    case CreateCashOperation(org, kind, amount, _, today) =>
      if (kind != "deposit" && kind != "withdrawal") || amount <= 0 then Some(BadRequest)
      else if !IsOpen(t, MonthOf(org, today)) then Some(Conflict)
      else None
  }

  function After(t: Tables, op: Op): Tables {
    if Refusal(t, op).Some? then t
    else
      match op
      case SeedDefaultAccounts(org) =>
        t.(accounts := t.accounts + Seeded(org, |DEFAULT_ACCOUNTS|, t.nextId), nextId := t.nextId + |DEFAULT_ACCOUNTS|)
      case CreateAccount(org, code, _, kind, parent) =>
        t.(accounts := t.accounts + [Account(t.nextId, org, code, TypeOf(kind).value, false, parent)],
           nextId := t.nextId + 1)
      case DeleteAccount(org, account) =>
        var k := FindAccount(t.accounts, org, account);
        t.(accounts := t.accounts[..k] + t.accounts[k + 1..])
      case CreateTransaction(org, date, lines) => Entered(t, org, date.value, lines)
      case PostTransaction(org, txn) => Posted(t, org, txn)
      case CreateAutoTransaction(org, date, debitCode, creditCode, amount) =>
        AutoPosted(t, org, date, debitCode, creditCode, amount)
      case ClosePeriod(org, year, month) => t.(closed := t.closed[Month(org, year, month) := true])
      case ReopenPeriod(org, year, month) => t.(closed := t.closed[Month(org, year, month) := false])
      case CreateCashOperation(org, kind, amount, code, today) =>
        var recorded := t.(cash := t.cash + [CashOperation(org, kind, amount, Counterpart(code))]);
        AutoPosted(recorded, org, Some(today), CashDebit(kind, code), CashCredit(kind, code), amount)
  }

  function Run(t: Tables, ops: seq<Op>): Tables {
    if ops == [] then t else After(Run(t, ops[..|ops| - 1]), ops[|ops| - 1])
  }

  // ---------- The service ----------

  class FinanceService {
    var accounts: seq<Account>
    var txns: seq<Txn>
    var lines: seq<Line>
    var closed: map<Month, bool>
    var cash: seq<CashOperation>
    var nextId: Id

    function View(): Tables
      reads this
    {
      Tables(accounts, txns, lines, closed, cash, nextId)
    }

    constructor ()
      ensures View() == EMPTY_TABLES
    {
      accounts, txns, lines, closed, cash, nextId := [], [], [], map[], [], 0;
    }

    method SeedAccounts(org: Id) returns (err: Option<ErrorCode>)
      modifies this
      ensures err == Refusal(old(View()), SeedDefaultAccounts(org))
      ensures View() == After(old(View()), SeedDefaultAccounts(org))
    {
      var inserted := accounts;
      DefaultCodesDiffer();
      for i := 0 to |DEFAULT_ACCOUNTS|
        invariant inserted == accounts + Seeded(org, i, nextId)
        invariant forall j :: 0 <= j < i ==> !HasCode(accounts, org, DEFAULT_ACCOUNTS[j].0)
      {
        var input := DEFAULT_ACCOUNTS[i];
        var k := FindByCode(inserted, org, input.0);
        if k < |inserted| {
          assert inserted[k] == accounts[k];
          return Some(StorageError);
        }
        assert forall j :: 0 <= j < |accounts| ==> inserted[j] == accounts[j];
        inserted := inserted + [Account(nextId + i, org, input.0, input.1, true, None)];
        assert Seeded(org, i + 1, nextId)[..i] == Seeded(org, i, nextId);
      }
      accounts := inserted;
      nextId := nextId + |DEFAULT_ACCOUNTS|;
      return None;
    }

    method AddAccount(org: Id, code: string, name: string, kind: string, parent: Option<Id>)
      returns (err: Option<ErrorCode>)
      modifies this
      ensures err == Refusal(old(View()), CreateAccount(org, code, name, kind, parent))
      ensures View() == After(old(View()), CreateAccount(org, code, name, kind, parent))
    {
      if code == "" {
        return Some(BadRequest);
      }
      if name == "" {
        return Some(BadRequest);
      }
      var accountType := TypeOf(kind);
      if accountType.None? {
        return Some(BadRequest);
      }
      if HasCode(accounts, org, code) {
        return Some(StorageError);
      }
      if parent.Some? && !HasId(accounts, parent.value) {
        return Some(StorageError);
      }
      accounts := accounts + [Account(nextId, org, code, accountType.value, false, parent)];
      nextId := nextId + 1;
      return None;
    }

    method RemoveAccount(org: Id, account: Id) returns (err: Option<ErrorCode>)
      modifies this
      ensures err == Refusal(old(View()), DeleteAccount(org, account))
      ensures View() == After(old(View()), DeleteAccount(org, account))
    {
      var k := FindAccount(accounts, org, account);
      if k == |accounts| {
        return Some(NotFound);
      }
      if accounts[k].isSystem {
        return Some(Conflict);
      }
      if HasLines(View(), org, account) {
        return Some(Conflict);
      }
      if Referenced(View(), account) {
        return Some(StorageError);
      }
      accounts := accounts[..k] + accounts[k + 1..];
      return None;
    }

    /** The double-entry checks, line by line. */
    method CheckLines(input: seq<LineInput>) returns (ok: bool)
      ensures ok <==> GoodLines(input) && Debits(input) == Credits(input)
    {
      var totalDebit, totalCredit := 0, 0;
      for i := 0 to |input|
        invariant forall j :: 0 <= j < i ==> GoodLine(input[j])
        invariant totalDebit == Debits(input[..i]) && totalCredit == Credits(input[..i])
      {
        assert input[..i + 1][..i] == input[..i];
        var line := input[i];
        if line.debit < 0 || line.credit < 0 {
          assert !GoodLine(input[i]);
          return false;
        }
        if line.debit > 0 && line.credit > 0 {
          assert !GoodLine(input[i]);
          return false;
        }
        if line.debit == 0 && line.credit == 0 {
          assert !GoodLine(input[i]);
          return false;
        }
        totalDebit := totalDebit + line.debit;
        totalCredit := totalCredit + line.credit;
      }
      assert input[..|input|] == input;
      return totalDebit == totalCredit;
    }

    method EnterTransaction(org: Id, date: Option<Date>, input: seq<LineInput>) returns (r: Result<Id, ErrorCode>)
      modifies this
      ensures View() == After(old(View()), CreateTransaction(org, date, input))
      ensures r == match TransactionRefusal(old(View()), org, date, input)
                   case Some(e) => Err(e)
                   case None => Ok(old(nextId))
    {
      if |input| < 2 {
        return Err(BadRequest);
      }
      if date.None? {
        return Err(BadRequest);
      }
      var open := IsPeriodOpen(org, date.value);
      if !open {
        return Err(Conflict);
      }
      var balanced := CheckLines(input);
      if !balanced {
        return Err(BadRequest);
      }
      var txn := Txn(nextId, org, date.value, false);
      var built: seq<Line> := [];
      for i := 0 to |input|
        invariant built == LinesOf(nextId, org, input)[..i]
        invariant forall j :: 0 <= j < i ==> HasId(accounts, input[j].account)
      {
        if !HasId(accounts, input[i].account) {
          assert !AccountsExist(View(), input);
          return Err(StorageError);
        }
        built := built + [Line(txn.id, org, input[i].account, input[i].debit, input[i].credit)];
      }
      assert built == LinesOf(nextId, org, input);
      txns := txns + [txn];
      lines := lines + built;
      nextId := nextId + 1;
      return Ok(txn.id);
    }

    method Post(org: Id, txn: Id) returns (err: Option<ErrorCode>)
      modifies this`txns
      ensures err == Refusal(old(View()), PostTransaction(org, txn))
      ensures View() == After(old(View()), PostTransaction(org, txn))
    {
      var k := FindTxn(txns, org, txn);
      if k == |txns| {
        return Some(NotFound);
      }
      if txns[k].posted {
        return Some(Conflict);
      }
      txns := txns[k := txns[k].(posted := true)];
      return None;
    }

    method AutoPost(org: Id, date: Option<Date>, debitCode: string, creditCode: string, amount: int)
      returns (err: Option<ErrorCode>)
      requires TxnIdsBelow(txns, nextId)
      modifies this
      ensures err == Refusal(old(View()), CreateAutoTransaction(org, date, debitCode, creditCode, amount))
      ensures View() == After(old(View()), CreateAutoTransaction(org, date, debitCode, creditCode, amount))
    {
      var d := FindByCode(accounts, org, debitCode);
      if d == |accounts| {
        return Some(NotFound);
      }
      var c := FindByCode(accounts, org, creditCode);
      if c == |accounts| {
        return Some(NotFound);
      }
      ghost var auto := AutoLines(View(), org, debitCode, creditCode, amount);
      var r := EnterTransaction(org, date, [LineInput(accounts[d].id, amount, 0),
                                            LineInput(accounts[c].id, 0, amount)]);
      if r.Err? {
        return Some(r.error);
      }
      assert FindTxn(txns, org, r.value) == |old(txns)| by { FoundLast(old(txns), txns[|old(txns)|]); }
      err := Post(org, r.value);
    }

    method IsPeriodOpen(org: Id, date: Date) returns (open: bool)
      ensures open <==> IsOpen(View(), MonthOf(org, date))
    {
      var m := Month(org, date.year, date.month);
      if m !in closed {
        return true;
      }
      return !closed[m];
    }

    method Close(org: Id, year: int, month: int) returns (err: Option<ErrorCode>)
      modifies this
      ensures err == Refusal(old(View()), ClosePeriod(org, year, month))
      ensures View() == After(old(View()), ClosePeriod(org, year, month))
    {
      if month < 1 || month > 12 {
        return Some(BadRequest);
      }
      var m := Month(org, year, month);
      if m in closed && closed[m] {
        return Some(Conflict);
      }
      closed := closed[m := true];
      return None;
    }

    method Reopen(org: Id, year: int, month: int) returns (err: Option<ErrorCode>)
      modifies this
      ensures err == Refusal(old(View()), ReopenPeriod(org, year, month))
      ensures View() == After(old(View()), ReopenPeriod(org, year, month))
    {
      var m := Month(org, year, month);
      if m !in closed {
        return Some(NotFound);
      }
      if !closed[m] {
        return Some(Conflict);
      }
      closed := closed[m := false];
      return None;
    }

    /** The cash row is kept even when the accounting entry is refused. */
    method RecordCash(org: Id, kind: string, amount: int, code: string, today: Date) returns (err: Option<ErrorCode>)
      requires TxnIdsBelow(txns, nextId)
      modifies this
      ensures err == Refusal(old(View()), CreateCashOperation(org, kind, amount, code, today))
      ensures View() == After(old(View()), CreateCashOperation(org, kind, amount, code, today))
    {
      if kind != "deposit" && kind != "withdrawal" {
        return Some(BadRequest);
      }
      if amount <= 0 {
        return Some(BadRequest);
      }
      var accountCode := code;
      if accountCode == "" {
        accountCode := "50";
      }
      var open := IsPeriodOpen(org, today);
      if !open {
        return Some(Conflict);
      }
      var debitCode, creditCode := "50", accountCode;
      if kind == "withdrawal" {
        debitCode, creditCode := accountCode, "50";
      }
      if debitCode == creditCode {
        if kind == "deposit" {
          creditCode := "91";
        } else {
          debitCode := "91";
        }
      }
      cash := cash + [CashOperation(org, kind, amount, accountCode)];
      var _ := AutoPost(org, Some(today), debitCode, creditCode, amount);
      return None;
    }
  }

  ghost predicate TxnIdsBelow(txns: seq<Txn>, nextId: Id) { forall i :: 0 <= i < |txns| ==> txns[i].id < nextId }

  lemma {:induction false} FoundLast(txns: seq<Txn>, x: Txn)
    requires forall i :: 0 <= i < |txns| ==> txns[i].id != x.id
    ensures FindTxn(txns + [x], x.org, x.id) == |txns|
  {
    assert (txns + [x])[|txns|] == x;
    assert forall i :: 0 <= i < |txns| ==> (txns + [x])[i] == txns[i];
  }

  lemma DefaultCodesDiffer()
    ensures forall i, j :: 0 <= i < j < |DEFAULT_ACCOUNTS| ==> DEFAULT_ACCOUNTS[i].0 != DEFAULT_ACCOUNTS[j].0
  {
    var codes := ["10", "41", "44", "50", "51", "60", "62", "70", "90", "91", "99"];
    assert forall i, j :: 0 <= i < j < |codes| ==> codes[i][0] != codes[j][0] || codes[i][1] != codes[j][1];
    assert forall i :: 0 <= i < |codes| ==> codes[i] == DEFAULT_ACCOUNTS[i].0;
  }
}
