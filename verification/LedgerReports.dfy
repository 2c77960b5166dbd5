/** The finance reports as aggregations of the same lines, and what every run of the service keeps about them. */
module LedgerReports {
  import opened Common
  import opened Ledger

  // ---------- The report queries ----------

  function PostedBetween(txns: seq<Txn>, from: Date, to: Date): set<Id> {
    set i | 0 <= i < |txns| && txns[i].posted && Between(from, txns[i].date, to) :: txns[i].id
  }

  /** The organization's lines of the selected transactions. */
  function Pick(lines: seq<Line>, org: Id, ids: set<Id>): seq<Line> {
    if lines == [] then []
    else
      var before, l := Pick(lines[..|lines| - 1], org, ids), lines[|lines| - 1];
      if l.org == org && l.txn in ids then before + [l] else before
  }

  function PickPosted(t: Tables, org: Id, from: Date, to: Date): seq<Line> {
    Pick(t.lines, org, PostedBetween(t.txns, from, to))
  }

  function DebitOf(lines: seq<Line>, account: Id): int {
    if lines == [] then 0
    else
      DebitOf(lines[..|lines| - 1], account)
      + (if lines[|lines| - 1].account == account then lines[|lines| - 1].debit else 0)
  }

  function CreditOf(lines: seq<Line>, account: Id): int {
    if lines == [] then 0
    else
      CreditOf(lines[..|lines| - 1], account)
      + (if lines[|lines| - 1].account == account then lines[|lines| - 1].credit else 0)
  }

  datatype AccountBalance = AccountBalance(account: Id, debitTotal: int, creditTotal: int, balance: int)

  function GetAccountBalance(t: Tables, org: Id, account: Id, from: Date, to: Date): AccountBalance {
    var picked := PickPosted(t, org, from, to);
    AccountBalance(account, DebitOf(picked, account), CreditOf(picked, account),
                   DebitOf(picked, account) - CreditOf(picked, account))
  }

  datatype PnLRow = PnLRow(account: Id, code: string, kind: AccountType, amount: int)

  function PnLAmount(a: Account, picked: seq<Line>): int {
    if a.kind == Revenue then CreditOf(picked, a.id) - DebitOf(picked, a.id)
    else DebitOf(picked, a.id) - CreditOf(picked, a.id)
  }

  predicate OnPnL(a: Account, org: Id, picked: seq<Line>) {
    a.org == org && (a.kind == Revenue || a.kind == Expense) && PnLAmount(a, picked) != 0
  }

  /** Revenue and expense accounts with a nonzero amount. */
  function PnLRows(accounts: seq<Account>, org: Id, picked: seq<Line>): seq<PnLRow> {
    if accounts == [] then []
    else
      var before, a := PnLRows(accounts[..|accounts| - 1], org, picked), accounts[|accounts| - 1];
      if OnPnL(a, org, picked) then before + [PnLRow(a.id, a.code, a.kind, PnLAmount(a, picked))] else before
  }

  datatype PnLReport = PnLReport(rows: seq<PnLRow>, totalRevenue: int, totalExpense: int, netProfit: int)

  function TotalOf(rows: seq<PnLRow>, kind: AccountType): int {
    if rows == [] then 0
    else TotalOf(rows[..|rows| - 1], kind) + (if rows[|rows| - 1].kind == kind then rows[|rows| - 1].amount else 0)
  }

  function ReportOf(t: Tables, org: Id, from: Date, to: Date): PnLReport {
    var rows := PnLRows(t.accounts, org, PickPosted(t, org, from, to));
    PnLReport(rows, TotalOf(rows, Revenue), TotalOf(rows, Expense), TotalOf(rows, Revenue) - TotalOf(rows, Expense))
  }

  method GetProfitAndLoss(t: Tables, org: Id, from: Date, to: Date) returns (report: PnLReport)
    ensures report == ReportOf(t, org, from, to)
  {
    var rows := PnLRows(t.accounts, org, PickPosted(t, org, from, to));
    var totalRevenue, totalExpense := 0, 0;
    for i := 0 to |rows|
      invariant totalRevenue == TotalOf(rows[..i], Revenue) && totalExpense == TotalOf(rows[..i], Expense)
    {
      assert rows[..i + 1][..i] == rows[..i];
      match rows[i].kind {
        case Revenue => totalRevenue := totalRevenue + rows[i].amount;
        case Expense => totalExpense := totalExpense + rows[i].amount;
        case _ =>
      }
    }
    assert rows[..|rows|] == rows;
    return PnLReport(rows, totalRevenue, totalExpense, totalRevenue - totalExpense);
  }

  /** The report has a row for exactly those revenue and expense accounts of the organization whose balance is not zero,
      with code, type and the amount of the balance; revenue is counted from the credit side. */
  lemma {:induction false} RowsAreAccounts(accounts: seq<Account>, org: Id, picked: seq<Line>, row: PnLRow)
    ensures row in PnLRows(accounts, org, picked) <==>
              row.amount != 0 && exists i :: 0 <= i < |accounts| && IsRowOf(row, accounts[i], org, picked)
  {
    if accounts != [] {
      var n := |accounts| - 1;
      RowsAreAccounts(accounts[..n], org, picked, row);
      if row.amount != 0 && IsRowOf(row, accounts[n], org, picked) {
        assert row in PnLRows(accounts, org, picked);
      }
    }
  }

  predicate IsRowOf(row: PnLRow, a: Account, org: Id, picked: seq<Line>) {
    && a.org == org && row.account == a.id && row.code == a.code && row.kind == a.kind
    && ((a.kind == Expense && row.amount == DebitOf(picked, a.id) - CreditOf(picked, a.id))
        || (a.kind == Revenue && row.amount == CreditOf(picked, a.id) - DebitOf(picked, a.id)))
  }

  // ---------- What every run keeps ----------

  function NetOf(lines: seq<Line>): int {
    if lines == [] then 0 else NetOf(lines[..|lines| - 1]) + lines[|lines| - 1].debit - lines[|lines| - 1].credit
  }

  ghost predicate UniqueAccounts(accounts: seq<Account>) {
    forall i, j :: 0 <= i < j < |accounts| ==> accounts[i].id != accounts[j].id
  }

  ghost predicate AccountsBelow(accounts: seq<Account>, nextId: Id) {
    forall i :: 0 <= i < |accounts| ==> accounts[i].id < nextId
  }

  ghost predicate UniqueTxns(txns: seq<Txn>) {
    forall i, j :: 0 <= i < j < |txns| ==> txns[i].id != txns[j].id
  }

  predicate HasTxn(txns: seq<Txn>, org: Id, id: Id) {
    exists k :: 0 <= k < |txns| && txns[k].id == id && txns[k].org == org
  }

  ghost predicate LinesRooted(t: Tables) {
    forall i :: 0 <= i < |t.lines| ==>
      HasId(t.accounts, t.lines[i].account) && HasTxn(t.txns, t.lines[i].org, t.lines[i].txn)
  }

  /** Whatever whole transactions are selected, an organization's debits equal its credits. */
  ghost predicate BooksBalance(lines: seq<Line>) {
    forall org: Id, ids: set<Id> :: NetOf(Pick(lines, org, ids)) == 0
  }

  ghost predicate Sound(t: Tables) {
    && UniqueAccounts(t.accounts) && AccountsBelow(t.accounts, t.nextId)
    && UniqueTxns(t.txns) && TxnIdsBelow(t.txns, t.nextId)
    && LinesRooted(t) && BooksBalance(t.lines)
  }

  lemma {:induction false} PickAppends(a: seq<Line>, b: seq<Line>, org: Id, ids: set<Id>)
    ensures Pick(a + b, org, ids) == Pick(a, org, ids) + Pick(b, org, ids)
  {
    if b == [] {
      assert a + b == a;
    } else {
      PickAppends(a, b[..|b| - 1], org, ids);
      assert (a + b)[..|a + b| - 1] == a + b[..|b| - 1];
    }
  }

  lemma {:induction false} NetAppends(a: seq<Line>, b: seq<Line>)
    ensures NetOf(a + b) == NetOf(a) + NetOf(b)
  {
    if b == [] {
      assert a + b == a;
    } else {
      NetAppends(a, b[..|b| - 1]);
      assert (a + b)[..|a + b| - 1] == a + b[..|b| - 1];
    }
  }

  /** Lines of one transaction are picked together or not at all. */
  lemma {:induction false} PickOneTxn(lines: seq<Line>, txn: Id, org: Id, o: Id, ids: set<Id>)
    requires forall i :: 0 <= i < |lines| ==> lines[i].txn == txn && lines[i].org == o
    ensures Pick(lines, org, ids) == if o == org && txn in ids then lines else []
  {
    if lines != [] {
      PickOneTxn(lines[..|lines| - 1], txn, org, o, ids);
      assert lines == lines[..|lines| - 1] + [lines[|lines| - 1]];
    }
  }

  lemma {:induction false} NetOfInputs(txn: Id, org: Id, lines: seq<LineInput>)
    ensures NetOf(LinesOf(txn, org, lines)) == Debits(lines) - Credits(lines)
  {
    if lines != [] {
      var n := |lines| - 1;
      NetOfInputs(txn, org, lines[..n]);
      assert LinesOf(txn, org, lines)[..n] == LinesOf(txn, org, lines[..n]);
    }
  }

  lemma EntryKeepsBalance(lines: seq<Line>, txn: Id, org: Id, input: seq<LineInput>)
    requires BooksBalance(lines) && Debits(input) == Credits(input)
    ensures BooksBalance(lines + LinesOf(txn, org, input))
  {
    var added := LinesOf(txn, org, input);
    NetOfInputs(txn, org, input);
    forall o: Id, ids: set<Id> ensures NetOf(Pick(lines + added, o, ids)) == 0 {
      PickAppends(lines, added, o, ids);
      PickOneTxn(added, txn, o, org, ids);
      NetAppends(Pick(lines, o, ids), Pick(added, o, ids));
    }
  }

  /** A new transaction with balanced lines on existing accounts. */
  lemma EntryKeepsSound(t: Tables, org: Id, date: Date, input: seq<LineInput>, posted: bool)
    requires Sound(t) && Debits(input) == Credits(input) && AccountsExist(t, input)
    ensures Sound(Entered(t, org, date, input).(txns := t.txns + [Txn(t.nextId, org, date, posted)]))
  {
    var t' := Entered(t, org, date, input).(txns := t.txns + [Txn(t.nextId, org, date, posted)]);
    EntryKeepsBalance(t.lines, t.nextId, org, input);
    forall i | 0 <= i < |t'.lines|
      ensures HasId(t'.accounts, t'.lines[i].account) && HasTxn(t'.txns, t'.lines[i].org, t'.lines[i].txn)
    {
      if i < |t.lines| {
        assert HasTxn(t.txns, t.lines[i].org, t.lines[i].txn);
        var k :| 0 <= k < |t.txns| && t.txns[k].id == t.lines[i].txn && t.txns[k].org == t.lines[i].org;
        assert t'.txns[k] == t.txns[k];
      } else {
        assert t'.txns[|t.txns|].id == t'.lines[i].txn;
      }
    }
  }

  lemma AutoKeepsSound(t: Tables, org: Id, date: Option<Date>, debitCode: string, creditCode: string, amount: int)
    requires Sound(t)
    ensures Sound(AutoPosted(t, org, date, debitCode, creditCode, amount))
  {
    if AutoRefusal(t, org, date, debitCode, creditCode, amount).None? {
      EntryKeepsSound(t, org, date.value, AutoLines(t, org, debitCode, creditCode, amount), true);
    }
  }

  lemma MoreAccountsKeepSound(t: Tables, more: seq<Account>, nextId: Id)
    requires Sound(t) && t.nextId <= nextId
    requires UniqueAccounts(more) && AccountsBelow(more, nextId)
    requires forall i :: 0 <= i < |more| ==> more[i].id >= t.nextId
    ensures Sound(t.(accounts := t.accounts + more, nextId := nextId))
  {
    forall id | HasId(t.accounts, id) ensures HasId(t.accounts + more, id) {
      var i :| 0 <= i < |t.accounts| && t.accounts[i].id == id;
      assert (t.accounts + more)[i].id == id;
    }
  }

  lemma DeletionKeepsSound(t: Tables, org: Id, account: Id)
    requires Sound(t) && Refusal(t, DeleteAccount(org, account)).None?
    ensures Sound(After(t, DeleteAccount(org, account)))
  {
    var k := FindAccount(t.accounts, org, account);
    var kept := t.accounts[..k] + t.accounts[k + 1..];
    KeptAccounts(t.accounts, k);
    forall i | 0 <= i < |t.lines| ensures HasId(kept, t.lines[i].account) {
      assert HasId(t.accounts, t.lines[i].account) && t.lines[i].account != account;
    }
  }

  lemma KeptAccounts(accounts: seq<Account>, k: nat)
    requires k < |accounts| && UniqueAccounts(accounts)
    ensures UniqueAccounts(accounts[..k] + accounts[k + 1..])
    ensures forall id :: HasId(accounts, id) && id != accounts[k].id ==> HasId(accounts[..k] + accounts[k + 1..], id)
  {
    var kept := accounts[..k] + accounts[k + 1..];
    forall id | HasId(accounts, id) && id != accounts[k].id ensures HasId(kept, id) {
      var i :| 0 <= i < |accounts| && accounts[i].id == id;
      assert kept[if i < k then i else i - 1].id == id;
    }
  }

  lemma PostKeepsSound(t: Tables, org: Id, txn: Id)
    requires Sound(t) && PostRefusal(t, org, txn).None?
    ensures Sound(Posted(t, org, txn))
  {
    var t' := Posted(t, org, txn);
    forall i | 0 <= i < |t'.lines|
      ensures HasTxn(t'.txns, t'.lines[i].org, t'.lines[i].txn)
    {
      assert HasTxn(t.txns, t.lines[i].org, t.lines[i].txn);
      var k :| 0 <= k < |t.txns| && t.txns[k].id == t.lines[i].txn && t.txns[k].org == t.lines[i].org;
      assert t'.txns[k].id == t.txns[k].id && t'.txns[k].org == t.txns[k].org;
    }
  }

  lemma CallKeepsSound(t: Tables, op: Op)
    requires Sound(t)
    ensures Sound(After(t, op))
  {
    if Refusal(t, op).None? {
      match op {
        case SeedDefaultAccounts(org) =>
          MoreAccountsKeepSound(t, Seeded(org, |DEFAULT_ACCOUNTS|, t.nextId), t.nextId + |DEFAULT_ACCOUNTS|);
        case CreateAccount(org, code, _, kind, parent) =>
          MoreAccountsKeepSound(t, [Account(t.nextId, org, code, TypeOf(kind).value, false, parent)], t.nextId + 1);
        case DeleteAccount(org, account) => DeletionKeepsSound(t, org, account);
        case CreateTransaction(org, date, lines) => EntryKeepsSound(t, org, date.value, lines, false);
        case PostTransaction(org, txn) => PostKeepsSound(t, org, txn);
        case CreateAutoTransaction(org, date, d, c, amount) => AutoKeepsSound(t, org, date, d, c, amount);
        case CreateCashOperation(org, kind, amount, code, today) =>
          var recorded := t.(cash := t.cash + [CashOperation(org, kind, amount, Counterpart(code))]);
          AutoKeepsSound(recorded, org, Some(today), CashDebit(kind, code), CashCredit(kind, code), amount);
        case _ =>
      }
    }
  }

  lemma {:induction false} RunKeepsSound(t: Tables, ops: seq<Op>)
    requires Sound(t)
    ensures Sound(Run(t, ops))
  {
    if ops != [] {
      RunKeepsSound(t, ops[..|ops| - 1]);
      CallKeepsSound(Run(t, ops[..|ops| - 1]), ops[|ops| - 1]);
    }
  }

  lemma NothingIsSound()
    ensures Sound(EMPTY_TABLES)
  {
  }

  // ---------- Every line has one side, every transaction a line ----------

  ghost predicate OneSided(lines: seq<Line>) {
    forall i :: 0 <= i < |lines| ==>
      (lines[i].debit > 0 && lines[i].credit == 0) || (lines[i].debit == 0 && lines[i].credit > 0)
  }

  predicate HasLine(lines: seq<Line>, org: Id, txn: Id) {
    exists i :: 0 <= i < |lines| && lines[i].org == org && lines[i].txn == txn
  }

  ghost predicate WellKept(t: Tables) {
    OneSided(t.lines) && forall k :: 0 <= k < |t.txns| ==> HasLine(t.lines, t.txns[k].org, t.txns[k].id)
  }

  lemma EntryStaysWellKept(t: Tables, org: Id, date: Date, input: seq<LineInput>, posted: bool)
    requires WellKept(t) && GoodLines(input) && |input| >= 2
    ensures WellKept(Entered(t, org, date, input).(txns := t.txns + [Txn(t.nextId, org, date, posted)]))
  {
    var t' := Entered(t, org, date, input).(txns := t.txns + [Txn(t.nextId, org, date, posted)]);
    assert forall i :: 0 <= i < |input| ==> GoodLine(input[i]);
    forall k | 0 <= k < |t'.txns| ensures HasLine(t'.lines, t'.txns[k].org, t'.txns[k].id) {
      if k < |t.txns| {
        assert HasLine(t.lines, t.txns[k].org, t.txns[k].id);
        var i :| 0 <= i < |t.lines| && t.lines[i].org == t.txns[k].org && t.lines[i].txn == t.txns[k].id;
        assert t'.lines[i] == t.lines[i];
      } else {
        assert t'.lines[|t.lines|].txn == t.nextId;
      }
    }
  }

  lemma AutoStaysWellKept(t: Tables, org: Id, date: Option<Date>, debitCode: string, creditCode: string, amount: int)
    requires WellKept(t)
    ensures WellKept(AutoPosted(t, org, date, debitCode, creditCode, amount))
  {
    if AutoRefusal(t, org, date, debitCode, creditCode, amount).None? {
      EntryStaysWellKept(t, org, date.value, AutoLines(t, org, debitCode, creditCode, amount), true);
    }
  }

  lemma CallStaysWellKept(t: Tables, op: Op)
    requires WellKept(t)
    ensures WellKept(After(t, op))
  {
    if Refusal(t, op).None? {
      match op {
        case CreateTransaction(org, date, lines) => EntryStaysWellKept(t, org, date.value, lines, false);
        case PostTransaction(org, txn) =>
          var t' := Posted(t, org, txn);
          forall k | 0 <= k < |t'.txns| ensures HasLine(t'.lines, t'.txns[k].org, t'.txns[k].id) {
            assert HasLine(t.lines, t.txns[k].org, t.txns[k].id);
          }
        case CreateAutoTransaction(org, date, d, c, amount) => AutoStaysWellKept(t, org, date, d, c, amount);
        case CreateCashOperation(org, kind, amount, code, today) =>
          var recorded := t.(cash := t.cash + [CashOperation(org, kind, amount, Counterpart(code))]);
          AutoStaysWellKept(recorded, org, Some(today), CashDebit(kind, code), CashCredit(kind, code), amount);
        case _ =>
      }
    }
  }

  lemma {:induction false} RunStaysWellKept(ops: seq<Op>)
    ensures WellKept(Run(EMPTY_TABLES, ops))
  {
    if ops != [] {
      RunStaysWellKept(ops[..|ops| - 1]);
      CallStaysWellKept(Run(EMPTY_TABLES, ops[..|ops| - 1]), ops[|ops| - 1]);
    }
  }

  /** Picking more transactions adds to an account's sums unless none of the further ones has a line on it. */
  lemma {:induction false} PickingMore(lines: seq<Line>, org: Id, ids: set<Id>, more: set<Id>, account: Id)
    requires OneSided(lines) && ids <= more
    ensures var few, many := Pick(lines, org, ids), Pick(lines, org, more);
            && DebitOf(few, account) <= DebitOf(many, account) && CreditOf(few, account) <= CreditOf(many, account)
            && (DebitOf(few, account) == DebitOf(many, account) && CreditOf(few, account) == CreditOf(many, account)
                <==> NoneOn(lines, org, more - ids, account))
  {
    if lines != [] {
      var n := |lines| - 1;
      PickingMore(lines[..n], org, ids, more, account);
      assert lines == lines[..n] + [lines[n]];
      LastPicked(lines, org, ids);
      LastPicked(lines, org, more);
      NoneOnLast(lines, org, more - ids, account);
    }
  }

  ghost predicate NoneOn(lines: seq<Line>, org: Id, ids: set<Id>, account: Id) {
    forall i :: 0 <= i < |lines| && lines[i].org == org && lines[i].account == account ==> lines[i].txn !in ids
  }

  lemma NoneOnLast(lines: seq<Line>, org: Id, ids: set<Id>, account: Id)
    requires lines != []
    ensures var l := lines[|lines| - 1];
            NoneOn(lines, org, ids, account) <==>
              NoneOn(lines[..|lines| - 1], org, ids, account)
              && (l.org == org && l.account == account ==> l.txn !in ids)
  {
    assert forall i :: 0 <= i < |lines| - 1 ==> lines[..|lines| - 1][i] == lines[i];
  }

  lemma LastPicked(lines: seq<Line>, org: Id, ids: set<Id>)
    requires lines != []
    ensures var l := lines[|lines| - 1];
            forall account: Id ::
              && DebitOf(Pick(lines, org, ids), account) == DebitOf(Pick(lines[..|lines| - 1], org, ids), account)
                   + (if l.org == org && l.txn in ids && l.account == account then l.debit else 0)
              && CreditOf(Pick(lines, org, ids), account) == CreditOf(Pick(lines[..|lines| - 1], org, ids), account)
                   + (if l.org == org && l.txn in ids && l.account == account then l.credit else 0)
  {
    var before := Pick(lines[..|lines| - 1], org, ids);
    assert (before + [lines[|lines| - 1]])[..|before|] == before;
  }

  // ---------- Regrouping by account ----------

  predicate Owns(accounts: seq<Account>, org: Id, id: Id) {
    exists i :: 0 <= i < |accounts| && accounts[i].org == org && accounts[i].id == id
  }

  /** The net of lines booked on accounts that are not the organization's own. */
  function ForeignNet(accounts: seq<Account>, org: Id, picked: seq<Line>): int {
    if picked == [] then 0
    else
      var l := picked[|picked| - 1];
      ForeignNet(accounts, org, picked[..|picked| - 1])
      + (if Owns(accounts, org, l.account) then 0 else l.debit - l.credit)
  }

  /** Debits minus credits, summed over the organization's accounts of the given types. */
  function NetOfTypes(accounts: seq<Account>, org: Id, kinds: set<AccountType>, picked: seq<Line>): int {
    if accounts == [] then 0
    else
      var a := accounts[|accounts| - 1];
      NetOfTypes(accounts[..|accounts| - 1], org, kinds, picked)
      + (if a.org == org && a.kind in kinds then DebitOf(picked, a.id) - CreditOf(picked, a.id) else 0)
  }

  const ALL_TYPES: set<AccountType> := {Asset, Liability, Equity, Revenue, Expense}

  const BALANCE_TYPES: set<AccountType> := {Asset, Liability, Equity}

  lemma EveryType(kind: AccountType)
    ensures kind in ALL_TYPES
    ensures kind in BALANCE_TYPES <==> kind != Revenue && kind != Expense
  {
  }

  lemma OneLineOfAccount(picked: seq<Line>, l: Line, account: Id)
    ensures DebitOf(picked + [l], account) - CreditOf(picked + [l], account)
         == DebitOf(picked, account) - CreditOf(picked, account)
            + (if l.account == account then l.debit - l.credit else 0)
  {
    assert (picked + [l])[..|picked|] == picked;
  }

  lemma OwnsLast(accounts: seq<Account>, org: Id, id: Id)
    requires accounts != [] && UniqueAccounts(accounts)
    ensures var n := |accounts| - 1;
            var here := accounts[n].org == org && accounts[n].id == id;
            && (Owns(accounts, org, id) <==> Owns(accounts[..n], org, id) || here)
            && !(Owns(accounts[..n], org, id) && here)
  {
    var n := |accounts| - 1;
    assert forall i :: 0 <= i < n ==> accounts[..n][i] == accounts[i];
  }

  lemma {:induction false} OneLineCounts(accounts: seq<Account>, org: Id, picked: seq<Line>, l: Line)
    requires UniqueAccounts(accounts)
    ensures NetOfTypes(accounts, org, ALL_TYPES, picked + [l])
         == NetOfTypes(accounts, org, ALL_TYPES, picked)
            + (if Owns(accounts, org, l.account) then l.debit - l.credit else 0)
  {
    if accounts != [] {
      var n := |accounts| - 1;
      OneLineCounts(accounts[..n], org, picked, l);
      EveryType(accounts[n].kind);
      OneLineOfAccount(picked, l, accounts[n].id);
      OwnsLast(accounts, org, l.account);
    }
  }

  lemma {:induction false} NoLinesNoNet(accounts: seq<Account>, org: Id, kinds: set<AccountType>)
    ensures NetOfTypes(accounts, org, kinds, []) == 0
  {
    if accounts != [] {
      NoLinesNoNet(accounts[..|accounts| - 1], org, kinds);
    }
  }

  /** Every line is counted at its own account or is foreign. */
  lemma {:induction false} RegroupByAccount(accounts: seq<Account>, org: Id, picked: seq<Line>)
    requires UniqueAccounts(accounts)
    ensures NetOfTypes(accounts, org, ALL_TYPES, picked) + ForeignNet(accounts, org, picked) == NetOf(picked)
  {
    if picked == [] {
      NoLinesNoNet(accounts, org, ALL_TYPES);
    } else {
      var n := |picked| - 1;
      RegroupByAccount(accounts, org, picked[..n]);
      OneLineCounts(accounts, org, picked[..n], picked[n]);
      assert picked == picked[..n] + [picked[n]];
    }
  }

  /** Balance-sheet accounts and result accounts are all there are; dropped zero rows do not matter. */
  lemma {:induction false} SplitByType(accounts: seq<Account>, org: Id, picked: seq<Line>)
    ensures var rows := PnLRows(accounts, org, picked);
            NetOfTypes(accounts, org, ALL_TYPES, picked)
              == NetOfTypes(accounts, org, BALANCE_TYPES, picked) - (TotalOf(rows, Revenue) - TotalOf(rows, Expense))
  {
    if accounts != [] {
      var n := |accounts| - 1;
      SplitByType(accounts[..n], org, picked);
      EveryType(accounts[n].kind);
      var before, rows := PnLRows(accounts[..n], org, picked), PnLRows(accounts, org, picked);
      if OnPnL(accounts[n], org, picked) {
        assert rows[..|before|] == before;
      }
    }
  }

  /** Summed over the report's rows, revenue is what revenue accounts were credited beyond their debits and expense what
      expense accounts were debited beyond their credits. */
  lemma {:induction false} TotalsByType(accounts: seq<Account>, org: Id, picked: seq<Line>)
    ensures var rows := PnLRows(accounts, org, picked);
            && TotalOf(rows, Revenue) == -NetOfTypes(accounts, org, {Revenue}, picked)
            && TotalOf(rows, Expense) == NetOfTypes(accounts, org, {Expense}, picked)
  {
    if accounts != [] {
      var n := |accounts| - 1;
      TotalsByType(accounts[..n], org, picked);
      var before, rows := PnLRows(accounts[..n], org, picked), PnLRows(accounts, org, picked);
      if OnPnL(accounts[n], org, picked) {
        assert rows[..|before|] == before;
      }
    }
  }

  /** The report's two totals, for every organization and range. */
  lemma ReportShowsBothTotals(t: Tables, org: Id, from: Date, to: Date)
    ensures var report, picked := ReportOf(t, org, from, to), PickPosted(t, org, from, to);
            && report.totalRevenue == -NetOfTypes(t.accounts, org, {Revenue}, picked)
            && report.totalExpense == NetOfTypes(t.accounts, org, {Expense}, picked)
            && report.netProfit == report.totalRevenue - report.totalExpense
  {
    TotalsByType(t.accounts, org, PickPosted(t, org, from, to));
  }

  /** The balances the report shows, account by account, over the organization's balance-sheet accounts. */
  function BalanceSheetTotal(accounts: seq<Account>, t: Tables, org: Id, from: Date, to: Date): int {
    if accounts == [] then 0
    else
      var a := accounts[|accounts| - 1];
      BalanceSheetTotal(accounts[..|accounts| - 1], t, org, from, to)
      + (if a.org == org && a.kind in BALANCE_TYPES then GetAccountBalance(t, org, a.id, from, to).balance else 0)
  }

  lemma {:induction false} BalanceSheetIsNet(accounts: seq<Account>, t: Tables, org: Id, from: Date, to: Date)
    ensures BalanceSheetTotal(accounts, t, org, from, to)
         == NetOfTypes(accounts, org, BALANCE_TYPES, PickPosted(t, org, from, to))
  {
    if accounts != [] {
      BalanceSheetIsNet(accounts[..|accounts| - 1], t, org, from, to);
    }
  }

  /** The accounting identity, in every reachable ledger, for every organization and date range: net profit is the sum
      of all asset, liability and equity balances, up to what was booked on accounts of other organizations. */
  lemma AccountingIdentity(ops: seq<Op>, org: Id, from: Date, to: Date)
    ensures var t := Run(EMPTY_TABLES, ops);
            ReportOf(t, org, from, to).netProfit
              == BalanceSheetTotal(t.accounts, t, org, from, to)
                 + ForeignNet(t.accounts, org, PickPosted(t, org, from, to))
  {
    var t := Run(EMPTY_TABLES, ops);
    NothingIsSound();
    RunKeepsSound(EMPTY_TABLES, ops);
    var picked := PickPosted(t, org, from, to);
    assert NetOf(picked) == 0;
    RegroupByAccount(t.accounts, org, picked);
    SplitByType(t.accounts, org, picked);
    BalanceSheetIsNet(t.accounts, t, org, from, to);
  }

  // ---------- When no line is foreign ----------

  /** Every entry names only accounts of its own organization. */
  ghost predicate OwnAccountsOnly(t: Tables, op: Op) {
    op.CreateTransaction? ==> forall i :: 0 <= i < |op.lines| ==> Owns(t.accounts, op.org, op.lines[i].account)
  }

  ghost predicate HomeRun(ops: seq<Op>) {
    ops == [] || (HomeRun(ops[..|ops| - 1]) && OwnAccountsOnly(Run(EMPTY_TABLES, ops[..|ops| - 1]), ops[|ops| - 1]))
  }

  ghost predicate AllHome(t: Tables) {
    forall i :: 0 <= i < |t.lines| ==> Owns(t.accounts, t.lines[i].org, t.lines[i].account)
  }

  lemma MoreAccountsOwnMore(accounts: seq<Account>, more: seq<Account>, org: Id, id: Id)
    requires Owns(accounts, org, id)
    ensures Owns(accounts + more, org, id)
  {
    var i :| 0 <= i < |accounts| && accounts[i].org == org && accounts[i].id == id;
    assert (accounts + more)[i] == accounts[i];
  }

  lemma AutoStaysHome(t: Tables, org: Id, date: Option<Date>, d: string, c: string, amount: int)
    requires AllHome(t)
    ensures AllHome(AutoPosted(t, org, date, d, c, amount))
  {
    var dk, ck := FindByCode(t.accounts, org, d), FindByCode(t.accounts, org, c);
    assert dk < |t.accounts| ==> Owns(t.accounts, org, t.accounts[dk].id);
    assert ck < |t.accounts| ==> Owns(t.accounts, org, t.accounts[ck].id);
  }

  lemma CallStaysHome(t: Tables, op: Op)
    requires AllHome(t) && OwnAccountsOnly(t, op)
    ensures AllHome(After(t, op))
  {
    if Refusal(t, op).None? {
      match op {
        case SeedDefaultAccounts(org) =>
          forall i | 0 <= i < |t.lines| ensures Owns(After(t, op).accounts, t.lines[i].org, t.lines[i].account) {
            MoreAccountsOwnMore(t.accounts, Seeded(org, |DEFAULT_ACCOUNTS|, t.nextId),
                                t.lines[i].org, t.lines[i].account);
          }
        case CreateAccount(org, code, _, kind, parent) =>
          var a := Account(t.nextId, org, code, TypeOf(kind).value, false, parent);
          forall i | 0 <= i < |t.lines| ensures Owns(After(t, op).accounts, t.lines[i].org, t.lines[i].account) {
            MoreAccountsOwnMore(t.accounts, [a], t.lines[i].org, t.lines[i].account);
          }
        case DeleteAccount(org, account) =>
          var k := FindAccount(t.accounts, org, account);
          var kept := t.accounts[..k] + t.accounts[k + 1..];
          forall i | 0 <= i < |t.lines| ensures Owns(kept, t.lines[i].org, t.lines[i].account) {
            var j :| 0 <= j < |t.accounts| && t.accounts[j].org == t.lines[i].org
                     && t.accounts[j].id == t.lines[i].account;
            assert kept[if j < k then j else j - 1] == t.accounts[j];
          }
        case CreateAutoTransaction(org, date, d, c, amount) => AutoStaysHome(t, org, date, d, c, amount);
        case CreateCashOperation(org, kind, amount, code, today) =>
          var recorded := t.(cash := t.cash + [CashOperation(org, kind, amount, Counterpart(code))]);
          AutoStaysHome(recorded, org, Some(today), CashDebit(kind, code), CashCredit(kind, code), amount);
        case _ =>
      }
    }
  }

  lemma {:induction false} HomeRunsStayHome(ops: seq<Op>)
    requires HomeRun(ops)
    ensures AllHome(Run(EMPTY_TABLES, ops))
  {
    if ops != [] {
      HomeRunsStayHome(ops[..|ops| - 1]);
      CallStaysHome(Run(EMPTY_TABLES, ops[..|ops| - 1]), ops[|ops| - 1]);
    }
  }

  lemma {:induction false} NothingForeign(accounts: seq<Account>, org: Id, picked: seq<Line>)
    requires forall i :: 0 <= i < |picked| ==> Owns(accounts, org, picked[i].account)
    ensures ForeignNet(accounts, org, picked) == 0
  {
    if picked != [] {
      NothingForeign(accounts, org, picked[..|picked| - 1]);
    }
  }

  lemma {:induction false} PickedAreLines(lines: seq<Line>, org: Id, ids: set<Id>)
    ensures forall l :: l in Pick(lines, org, ids) ==> l in lines && l.org == org && l.txn in ids
  {
    if lines != [] {
      PickedAreLines(lines[..|lines| - 1], org, ids);
      assert lines == lines[..|lines| - 1] + [lines[|lines| - 1]];
    }
  }

  /** When every entry names only accounts of its own organization, net profit is exactly the sum of the asset,
      liability and equity balances. */
  lemma HomeAccountingIdentity(ops: seq<Op>, org: Id, from: Date, to: Date)
    requires HomeRun(ops)
    ensures var t := Run(EMPTY_TABLES, ops);
            ReportOf(t, org, from, to).netProfit == BalanceSheetTotal(t.accounts, t, org, from, to)
  {
    var t := Run(EMPTY_TABLES, ops);
    AccountingIdentity(ops, org, from, to);
    HomeRunsStayHome(ops);
    var picked := PickPosted(t, org, from, to);
    PickedAreLines(t.lines, org, PostedBetween(t.txns, from, to));
    forall i | 0 <= i < |picked| ensures Owns(t.accounts, org, picked[i].account) {
      assert picked[i] in picked;
    }
    NothingForeign(t.accounts, org, picked);
  }

  /** For any selection of whole transactions, own-account debits and credits differ only by the foreign net. */
  lemma AnySelectionBalances(ops: seq<Op>, org: Id, ids: set<Id>)
    ensures var t := Run(EMPTY_TABLES, ops);
            var picked := Pick(t.lines, org, ids);
            NetOfTypes(t.accounts, org, ALL_TYPES, picked) == -ForeignNet(t.accounts, org, picked)
  {
    NothingIsSound();
    RunKeepsSound(EMPTY_TABLES, ops);
    var t := Run(EMPTY_TABLES, ops);
    RegroupByAccount(t.accounts, org, Pick(t.lines, org, ids));
  }

  // ---------- What an automatic posting does to the balances ----------

  lemma {:induction false} PickSame(lines: seq<Line>, org: Id, a: set<Id>, b: set<Id>)
    requires forall i :: 0 <= i < |lines| && lines[i].org == org ==> (lines[i].txn in a <==> lines[i].txn in b)
    ensures Pick(lines, org, a) == Pick(lines, org, b)
  {
    if lines != [] {
      PickSame(lines[..|lines| - 1], org, a, b);
    }
  }

  predicate CanAutoPost(t: Tables, org: Id, date: Date, debitCode: string, creditCode: string, amount: int) {
    AutoRefusal(t, org, Some(date), debitCode, creditCode, amount).None?
  }

  function IdOfCode(t: Tables, org: Id, code: string): Id
    requires FindByCode(t.accounts, org, code) < |t.accounts|
  {
    t.accounts[FindByCode(t.accounts, org, code)].id
  }

  /** The reports read the two new lines after all earlier ones. */
  lemma AutoPostingPicked(t: Tables, org: Id, date: Date, debitCode: string, creditCode: string, amount: int,
                          from: Date, to: Date)
    requires Sound(t) && CanAutoPost(t, org, date, debitCode, creditCode, amount) && Between(from, date, to)
    ensures PickPosted(AutoPosted(t, org, Some(date), debitCode, creditCode, amount), org, from, to)
         == PickPosted(t, org, from, to) + LinesOf(t.nextId, org, AutoLines(t, org, debitCode, creditCode, amount))
  {
    var t' := AutoPosted(t, org, Some(date), debitCode, creditCode, amount);
    var added := LinesOf(t.nextId, org, AutoLines(t, org, debitCode, creditCode, amount));
    var ids, ids' := PostedBetween(t.txns, from, to), PostedBetween(t'.txns, from, to);
    assert t.nextId in ids' by { assert t'.txns[|t.txns|].id == t.nextId; }
    forall id | id != t.nextId ensures id in ids <==> id in ids' {
      assert forall k :: 0 <= k < |t.txns| ==> t'.txns[k] == t.txns[k];
    }
    forall i | 0 <= i < |t.lines| ensures t.lines[i].txn != t.nextId {
      assert HasTxn(t.txns, t.lines[i].org, t.lines[i].txn);
    }
    PickAppends(t.lines, added, org, ids');
    PickSame(t.lines, org, ids, ids');
    PickOneTxn(added, t.nextId, org, org, ids');
  }

  lemma TwoMoreLines(picked: seq<Line>, l: Line, m: Line, account: Id)
    ensures DebitOf(picked + [l, m], account)
         == DebitOf(picked, account) + (if l.account == account then l.debit else 0)
            + (if m.account == account then m.debit else 0)
    ensures CreditOf(picked + [l, m], account)
         == CreditOf(picked, account) + (if l.account == account then l.credit else 0)
            + (if m.account == account then m.credit else 0)
  {
    assert picked + [l, m] == picked + [l] + [m];
    assert (picked + [l] + [m])[..|picked| + 1] == picked + [l];
    assert (picked + [l])[..|picked|] == picked;
  }

  /** An automatic posting moves its amount from the credited to the debited account, in every range around its date,
      and moves no other balance. */
  lemma AutoPostingMovesAmount(t: Tables, org: Id, date: Date, debitCode: string, creditCode: string, amount: int,
                               from: Date, to: Date, account: Id)
    requires Sound(t) && CanAutoPost(t, org, date, debitCode, creditCode, amount) && Between(from, date, to)
    ensures var t' := AutoPosted(t, org, Some(date), debitCode, creditCode, amount);
            var a, b := GetAccountBalance(t, org, account, from, to), GetAccountBalance(t', org, account, from, to);
            var debited := if account == IdOfCode(t, org, debitCode) then amount else 0;
            var credited := if account == IdOfCode(t, org, creditCode) then amount else 0;
            && b.debitTotal == a.debitTotal + debited && b.creditTotal == a.creditTotal + credited
            && b.balance == a.balance + debited - credited
  {
    AutoPostingPicked(t, org, date, debitCode, creditCode, amount, from, to);
    var d, c := IdOfCode(t, org, debitCode), IdOfCode(t, org, creditCode);
    var l, m := Line(t.nextId, org, d, amount, 0), Line(t.nextId, org, c, 0, amount);
    assert LinesOf(t.nextId, org, AutoLines(t, org, debitCode, creditCode, amount)) == [l, m];
    TwoMoreLines(PickPosted(t, org, from, to), l, m, account);
  }

  /** The account on the other side of a cash operation: the named one, or other income for cash itself. */
  function OtherSide(code: string): string { if code == "" || code == "50" then "91" else code }

  /** A deposit raises the balance of the cash account by its amount and a withdrawal lowers it, against the other side
      and no other account, whenever both accounts exist. */
  lemma CashOperationMovesCash(t: Tables, org: Id, kind: string, amount: int, code: string, today: Date,
                               from: Date, to: Date, account: Id)
    requires Sound(t) && Refusal(t, CreateCashOperation(org, kind, amount, code, today)).None?
             && Between(from, today, to)
    requires HasCode(t.accounts, org, "50") && HasCode(t.accounts, org, OtherSide(code))
    ensures var t' := After(t, CreateCashOperation(org, kind, amount, code, today));
            var moved := if kind == "deposit" then amount else -amount;
            IdOfCode(t, org, "50") != IdOfCode(t, org, OtherSide(code))
            && GetAccountBalance(t', org, account, from, to).balance
               - GetAccountBalance(t, org, account, from, to).balance
               == if account == IdOfCode(t, org, "50") then moved
                  else if account == IdOfCode(t, org, OtherSide(code)) then -moved else 0
  {
    CashSides(kind, code);
    CashIsAutoPosted(t, org, kind, amount, code, today);
    AutoPostingMovesAmount(t, org, today, CashDebit(kind, code), CashCredit(kind, code), amount, from, to, account);
  }

  /** Apart from the cash row, a cash operation is its automatic posting. */
  lemma CashIsAutoPosted(t: Tables, org: Id, kind: string, amount: int, code: string, today: Date)
    requires Refusal(t, CreateCashOperation(org, kind, amount, code, today)).None?
    requires HasCode(t.accounts, org, "50") && HasCode(t.accounts, org, OtherSide(code))
    ensures CanAutoPost(t, org, today, CashDebit(kind, code), CashCredit(kind, code), amount)
    ensures After(t, CreateCashOperation(org, kind, amount, code, today))
         == AutoPosted(t, org, Some(today), CashDebit(kind, code), CashCredit(kind, code), amount).(cash :=
              t.cash + [CashOperation(org, kind, amount, Counterpart(code))])
  {
    CashSides(kind, code);
    AutoLinesAccepted(t, org, today, CashDebit(kind, code), CashCredit(kind, code), amount);
  }

  lemma CashSides(kind: string, code: string)
    ensures kind != "withdrawal" ==> CashDebit(kind, code) == "50" && CashCredit(kind, code) == OtherSide(code)
    ensures kind == "withdrawal" ==> CashDebit(kind, code) == OtherSide(code) && CashCredit(kind, code) == "50"
    ensures OtherSide(code) != "50"
  {
    assert "91"[0] != "50"[0];
  }

  lemma SumsOfTwo(a: LineInput, b: LineInput)
    ensures Debits([a, b]) == a.debit + b.debit && Credits([a, b]) == a.credit + b.credit
  {
    assert [a, b][..1] == [a] && [a][..0] == [];
    assert Debits([a]) == a.debit && Credits([a]) == a.credit;
  }

  lemma AutoLinesAccepted(t: Tables, org: Id, date: Date, debitCode: string, creditCode: string, amount: int)
    requires HasCode(t.accounts, org, debitCode) && HasCode(t.accounts, org, creditCode)
    requires amount > 0 && IsOpen(t, MonthOf(org, date))
    ensures CanAutoPost(t, org, date, debitCode, creditCode, amount)
  {
    var lines := AutoLines(t, org, debitCode, creditCode, amount);
    var d, c := LineInput(IdOfCode(t, org, debitCode), amount, 0), LineInput(IdOfCode(t, org, creditCode), 0, amount);
    assert lines == [d, c];
    SumsOfTwo(d, c);
    assert HasId(t.accounts, lines[0].account) && HasId(t.accounts, lines[1].account);
  }

  // ---------- An entry on another organization's account ----------

  const THE_DAY := Date(2026, 1, 1)

  const SALE := [LineInput(1, 5, 0), LineInput(0, 0, 5)]

  const SALE_LINES := [Line(2, 0, 1, 5, 0), Line(2, 0, 0, 0, 5)]

  /** Organization 0 enters a sale; its cash account belongs to `other`. */
  function SaleOps(other: Id): seq<Op> {
    [CreateAccount(0, "90", "Sales", "revenue", None), CreateAccount(other, "50", "Cash", "asset", None),
     CreateTransaction(0, Some(THE_DAY), SALE)]
  }

  function TwoAccounts(other: Id): Tables {
    EMPTY_TABLES.(accounts := [Account(0, 0, "90", Revenue, false, None), Account(1, other, "50", Asset, false, None)],
                  nextId := 2)
  }

  lemma {:induction false} RunAppends(t: Tables, before: seq<Op>, op: Op)
    ensures Run(t, before + [op]) == After(Run(t, before), op)
  {
    assert (before + [op])[..|before|] == before;
  }

  lemma TwoAccountsCreated(other: Id)
    ensures Run(EMPTY_TABLES, SaleOps(other)[..2]) == TwoAccounts(other)
  {
    var ops := SaleOps(other);
    RunAppends(EMPTY_TABLES, [], ops[0]);
    RunAppends(EMPTY_TABLES, ops[..1], ops[1]);
    assert [] + [ops[0]] == ops[..1] && ops[..1] + [ops[1]] == ops[..2];
    assert "90"[0] != "50"[0];
  }

  lemma SaleAccepted(other: Id)
    ensures TransactionRefusal(TwoAccounts(other), 0, Some(THE_DAY), SALE).None?
    ensures LinesOf(2, 0, SALE) == SALE_LINES
  {
    assert SALE[..1] == [LineInput(1, 5, 0)] && SALE[..1][..0] == [];
    assert Debits(SALE) == 5 && Credits(SALE) == 5;
    assert TwoAccounts(other).accounts[0].id == 0 && TwoAccounts(other).accounts[1].id == 1;
  }

  lemma SaleEntered(other: Id)
    ensures Run(EMPTY_TABLES, SaleOps(other))
         == TwoAccounts(other).(txns := [Txn(2, 0, THE_DAY, false)], lines := SALE_LINES, nextId := 3)
  {
    var ops := SaleOps(other);
    TwoAccountsCreated(other);
    SaleAccepted(other);
    RunAppends(EMPTY_TABLES, ops[..2], ops[2]);
    assert ops[..2] + [ops[2]] == ops;
  }

  lemma ForeignNetOfSale(other: Id)
    requires other != 0
    ensures ForeignNet(TwoAccounts(other).accounts, 0, SALE_LINES) == 5
    ensures Pick(SALE_LINES, 0, {2}) == SALE_LINES
  {
    var accounts, first := TwoAccounts(other).accounts, [Line(2, 0, 1, 5, 0)];
    assert SALE_LINES[..1] == first && first[..0] == [];
    assert Owns(accounts, 0, 0) by {
      assert accounts[0].org == 0 && accounts[0].id == 0;
    }
    assert !Owns(accounts, 0, 1);
    assert ForeignNet(accounts, 0, first) == 5;
    assert Pick(first, 0, {2}) == first;
  }

  /** Only the existence of an account is checked on entry, not whose it is: organization 0 books a sale against an
      account of another organization, and its profit no longer matches its balances. */
  lemma ForeignAccountBreaksIdentity(other: Id)
    requires other != 0
    ensures var t := Run(EMPTY_TABLES, SaleOps(other) + [PostTransaction(0, 2)]);
            ReportOf(t, 0, THE_DAY, THE_DAY).netProfit == BalanceSheetTotal(t.accounts, t, 0, THE_DAY, THE_DAY) + 5
  {
    SaleEntered(other);
    RunAppends(EMPTY_TABLES, SaleOps(other), PostTransaction(0, 2));
    ForeignNetOfSale(other);
    AccountingIdentity(SaleOps(other) + [PostTransaction(0, 2)], 0, THE_DAY, THE_DAY);
    var t := Run(EMPTY_TABLES, SaleOps(other) + [PostTransaction(0, 2)]);
    assert PostedBetween(t.txns, THE_DAY, THE_DAY) == {2} by { assert t.txns[0].posted && t.txns[0].id == 2; }
  }
}
