/** What closing a month fixes until it is reopened. */
module LedgerPeriods {
  import opened Common
  import opened Ledger
  import opened LedgerReports

  // ---------- The books of a month ----------

  predicate InMonth(x: Txn, m: Month) { MonthOf(x.org, x.date) == m }

  function MonthTxns(txns: seq<Txn>, m: Month): seq<Txn> {
    if txns == [] then []
    else
      var before, x := MonthTxns(txns[..|txns| - 1], m), txns[|txns| - 1];
      if InMonth(x, m) then before + [x] else before
  }

  function IdsOf(txns: seq<Txn>): set<Id> { set i | 0 <= i < |txns| :: txns[i].id }

  function MonthLines(t: Tables, m: Month): seq<Line> { Pick(t.lines, m.org, IdsOf(MonthTxns(t.txns, m))) }

  /** The same transactions in the same order; some may have been posted since. */
  ghost predicate SameButPosted(a: seq<Txn>, b: seq<Txn>) {
    |a| == |b| && forall i :: 0 <= i < |a| ==> b[i] == a[i].(posted := b[i].posted) && (a[i].posted ==> b[i].posted)
  }

  ghost predicate AllPosted(txns: seq<Txn>) { forall i :: 0 <= i < |txns| ==> txns[i].posted }

  /** Nothing entered into or lost from the month's books. */
  ghost predicate Kept(t: Tables, t': Tables, m: Month) {
    && SameButPosted(MonthTxns(t.txns, m), MonthTxns(t'.txns, m))
    && MonthLines(t', m) == MonthLines(t, m)
  }

  predicate Reopens(op: Op, m: Month) { op == ReopenPeriod(m.org, m.year, m.month) }

  ghost predicate NeverReopens(ops: seq<Op>, m: Month) { forall k :: 0 <= k < |ops| ==> !Reopens(ops[k], m) }

  // ---------- One call ----------

  lemma EntryElsewhere(t: Tables, x: Txn, input: seq<LineInput>, m: Month)
    requires !InMonth(x, m) && TxnIdsBelow(t.txns, x.id)
    ensures MonthTxns(t.txns + [x], m) == MonthTxns(t.txns, m)
    ensures Pick(t.lines + LinesOf(x.id, x.org, input), m.org, IdsOf(MonthTxns(t.txns, m))) == MonthLines(t, m)
  {
    assert (t.txns + [x])[..|t.txns|] == t.txns;
    var ids, added := IdsOf(MonthTxns(t.txns, m)), LinesOf(x.id, x.org, input);
    MonthTxnsAreTxns(t.txns, m);
    forall y | y in MonthTxns(t.txns, m) ensures y.id != x.id {
      assert y in t.txns;
    }
    PickAppends(t.lines, added, m.org, ids);
    PickOneTxn(added, x.id, m.org, x.org, ids);
  }

  lemma {:induction false} MonthTxnsAreTxns(txns: seq<Txn>, m: Month)
    ensures forall x :: x in MonthTxns(txns, m) <==> x in txns && InMonth(x, m)
  {
    if txns != [] {
      MonthTxnsAreTxns(txns[..|txns| - 1], m);
      assert txns == txns[..|txns| - 1] + [txns[|txns| - 1]];
    }
  }

  lemma {:induction false} PostingKeepsMonth(txns: seq<Txn>, k: nat, m: Month)
    requires k < |txns|
    ensures SameButPosted(MonthTxns(txns, m), MonthTxns(txns[k := txns[k].(posted := true)], m))
  {
    var n := |txns| - 1;
    var after := txns[k := txns[k].(posted := true)];
    if k < n {
      PostingKeepsMonth(txns[..n], k, m);
      assert after[..n] == txns[..n][k := txns[k].(posted := true)];
    } else {
      assert after[..n] == txns[..n];
    }
  }

  lemma AutoKeepsMonth(t: Tables, org: Id, date: Option<Date>, d: string, c: string, amount: int, m: Month)
    requires Sound(t) && !IsOpen(t, m)
    ensures Kept(t, AutoPosted(t, org, date, d, c, amount), m)
  {
    if AutoRefusal(t, org, date, d, c, amount).None? {
      EntryElsewhere(t, Txn(t.nextId, org, date.value, true), AutoLines(t, org, d, c, amount), m);
    }
  }

  lemma CallKeepsClosedMonth(t: Tables, op: Op, m: Month)
    requires Sound(t) && !IsOpen(t, m) && !Reopens(op, m)
    ensures !IsOpen(After(t, op), m) && Kept(t, After(t, op), m)
  {
    if Refusal(t, op).None? {
      match op {
        case CreateTransaction(org, date, lines) =>
          EntryElsewhere(t, Txn(t.nextId, org, date.value, false), lines, m);
        case PostTransaction(org, txn) =>
          PostingKeepsMonth(t.txns, FindTxn(t.txns, org, txn), m);
          assert IdsOf(MonthTxns(t.txns, m)) == IdsOf(MonthTxns(After(t, op).txns, m));
        case CreateAutoTransaction(org, date, d, c, amount) => AutoKeepsMonth(t, org, date, d, c, amount, m);
        case CreateCashOperation(org, kind, amount, code, today) =>
          var recorded := t.(cash := t.cash + [CashOperation(org, kind, amount, Counterpart(code))]);
          AutoKeepsMonth(recorded, org, Some(today), CashDebit(kind, code), CashCredit(kind, code), amount, m);
        case _ =>
      }
    }
  }

  /** While a month stays closed its transactions and lines stay what they are, whatever is called; at most a
      transaction of it gets posted. */
  lemma {:induction false} ClosedMonthKeepsBooks(t: Tables, ops: seq<Op>, m: Month)
    requires Sound(t) && !IsOpen(t, m) && NeverReopens(ops, m)
    ensures !IsOpen(Run(t, ops), m) && Kept(t, Run(t, ops), m)
  {
    if ops != [] {
      var before := ops[..|ops| - 1];
      ClosedMonthKeepsBooks(t, before, m);
      RunKeepsSound(t, before);
      assert !Reopens(ops[|ops| - 1], m);
      CallKeepsClosedMonth(Run(t, before), ops[|ops| - 1], m);
    }
  }

  /** From an accepted close on: the same, for the books as they were at closing. */
  lemma BooksFrozenFromClose(opsBefore: seq<Op>, m: Month, ops: seq<Op>)
    requires Refusal(Run(EMPTY_TABLES, opsBefore), ClosePeriod(m.org, m.year, m.month)).None?
    requires NeverReopens(ops, m)
    ensures var t := Run(EMPTY_TABLES, opsBefore);
            Kept(t, Run(After(t, ClosePeriod(m.org, m.year, m.month)), ops), m)
  {
    var t := Run(EMPTY_TABLES, opsBefore);
    NothingIsSound();
    RunKeepsSound(EMPTY_TABLES, opsBefore);
    CallKeepsSound(t, ClosePeriod(m.org, m.year, m.month));
    ClosedMonthKeepsBooks(After(t, ClosePeriod(m.org, m.year, m.month)), ops, m);
  }

  // ---------- Exactly when the records are frozen ----------

  lemma PostedStays(a: seq<Txn>, b: seq<Txn>)
    requires SameButPosted(a, b) && AllPosted(a)
    ensures a == b
  {
  }

  lemma PostingIsPossible(t: Tables, m: Month, i: nat)
    requires Sound(t) && i < |MonthTxns(t.txns, m)| && !MonthTxns(t.txns, m)[i].posted
    ensures var op := PostTransaction(m.org, MonthTxns(t.txns, m)[i].id);
            MonthTxns(After(t, op).txns, m) != MonthTxns(t.txns, m)
  {
    var x := MonthTxns(t.txns, m)[i];
    MonthTxnsAreTxns(t.txns, m);
    assert x in MonthTxns(t.txns, m);
    var j :| 0 <= j < |t.txns| && t.txns[j] == x;
    var k := FindTxn(t.txns, m.org, x.id);
    assert k == j;
    var op := PostTransaction(m.org, x.id);
    var after := After(t, op).txns;
    MonthTxnsAreTxns(after, m);
    assert after[k] == x.(posted := true) && after[k] in after;
    assert x.(posted := true) !in t.txns;
  }

  /** Posting does not look at the period. The transactions of a closed month therefore keep their whole records under
      all calls short of reopening if and only if all of them are posted. */
  lemma RecordsFrozenIffPosted(t: Tables, m: Month)
    requires Sound(t) && !IsOpen(t, m)
    ensures (forall ops: seq<Op> :: NeverReopens(ops, m) ==> MonthTxns(Run(t, ops).txns, m) == MonthTxns(t.txns, m))
       <==> AllPosted(MonthTxns(t.txns, m))
  {
    if AllPosted(MonthTxns(t.txns, m)) {
      forall ops: seq<Op> | NeverReopens(ops, m) ensures MonthTxns(Run(t, ops).txns, m) == MonthTxns(t.txns, m) {
        ClosedMonthKeepsBooks(t, ops, m);
        PostedStays(MonthTxns(t.txns, m), MonthTxns(Run(t, ops).txns, m));
      }
    } else {
      var i :| 0 <= i < |MonthTxns(t.txns, m)| && !MonthTxns(t.txns, m)[i].posted;
      PostingIsPossible(t, m, i);
      var ops := [PostTransaction(m.org, MonthTxns(t.txns, m)[i].id)];
      assert ops[..0] == [] && Run(t, ops) == After(t, ops[0]);
      assert NeverReopens(ops, m);
    }
  }

  // ---------- Reports on a closed month ----------

  predicate RangeWithin(from: Date, to: Date, m: Month) {
    from.year == m.year && from.month == m.month && to.year == m.year && to.month == m.month
  }

  lemma {:induction false} PickTwice(lines: seq<Line>, org: Id, a: set<Id>, b: set<Id>)
    ensures Pick(Pick(lines, org, a), org, b) == Pick(lines, org, a * b)
  {
    if lines != [] {
      var n := |lines| - 1;
      PickTwice(lines[..n], org, a, b);
      var before := Pick(lines[..n], org, a);
      if lines[n].org == org && lines[n].txn in a {
        assert (before + [lines[n]])[..|before|] == before;
      }
    }
  }

  /** Posted lines in a range inside the month can be read off the month's own books. */
  lemma PostedFromMonth(t: Tables, m: Month, from: Date, to: Date)
    requires Sound(t) && RangeWithin(from, to, m)
    ensures PickPosted(t, m.org, from, to)
         == Pick(MonthLines(t, m), m.org, PostedBetween(MonthTxns(t.txns, m), from, to))
  {
    var month := MonthTxns(t.txns, m);
    MonthTxnsAreTxns(t.txns, m);
    forall i | 0 <= i < |t.lines| && t.lines[i].org == m.org
      ensures t.lines[i].txn in PostedBetween(t.txns, from, to)
         <==> t.lines[i].txn in IdsOf(month) * PostedBetween(month, from, to)
    {
      var id := t.lines[i].txn;
      assert HasTxn(t.txns, m.org, id);
      var k :| 0 <= k < |t.txns| && t.txns[k].id == id && t.txns[k].org == m.org;
      if id in PostedBetween(t.txns, from, to) {
        assert t.txns[k].posted && Between(from, t.txns[k].date, to);
        assert t.txns[k] in month;
        var j :| 0 <= j < |month| && month[j] == t.txns[k];
        assert month[j].id == id;
      }
      if id in PostedBetween(month, from, to) {
        var j :| 0 <= j < |month| && month[j].posted && Between(from, month[j].date, to) && month[j].id == id;
        assert month[j] in month;
        var l :| 0 <= l < |t.txns| && t.txns[l] == month[j];
        assert t.txns[l].posted;
      }
    }
    PickSame(t.lines, m.org, PostedBetween(t.txns, from, to), IdsOf(month) * PostedBetween(month, from, to));
    PickTwice(t.lines, m.org, IdsOf(month), PostedBetween(month, from, to));
  }

  lemma {:induction false} UnusedAccount(picked: seq<Line>, account: Id)
    requires forall i :: 0 <= i < |picked| ==> picked[i].account != account
    ensures DebitOf(picked, account) == 0 && CreditOf(picked, account) == 0
  {
    if picked != [] {
      UnusedAccount(picked[..|picked| - 1], account);
    }
  }

  lemma {:induction false} RowsAppend(a: seq<Account>, b: seq<Account>, org: Id, picked: seq<Line>)
    ensures PnLRows(a + b, org, picked) == PnLRows(a, org, picked) + PnLRows(b, org, picked)
  {
    if b == [] {
      assert a + b == a;
    } else {
      RowsAppend(a, b[..|b| - 1], org, picked);
      assert (a + b)[..|a + b| - 1] == a + b[..|b| - 1];
    }
  }

  lemma {:induction false} UnusedAccountsHaveNoRows(accounts: seq<Account>, org: Id, picked: seq<Line>)
    requires forall i, j :: 0 <= i < |accounts| && 0 <= j < |picked| && accounts[i].org == org ==>
               picked[j].account != accounts[i].id
    ensures PnLRows(accounts, org, picked) == []
  {
    if accounts != [] {
      var n := |accounts| - 1;
      UnusedAccountsHaveNoRows(accounts[..n], org, picked);
      if accounts[n].org == org {
        UnusedAccount(picked, accounts[n].id);
      }
    }
  }

  lemma UnusedAccountHasNoRow(accounts: seq<Account>, k: nat, org: Id, picked: seq<Line>)
    requires k < |accounts|
    requires accounts[k].org == org ==> forall j :: 0 <= j < |picked| ==> picked[j].account != accounts[k].id
    ensures PnLRows(accounts[..k] + accounts[k + 1..], org, picked) == PnLRows(accounts, org, picked)
  {
    var before, at, after := accounts[..k], [accounts[k]], accounts[k + 1..];
    assert accounts == before + at + after;
    UnusedAccountsHaveNoRows(at, org, picked);
    RowsAppend(before, after, org, picked);
    RowsAppend(before, at, org, picked);
    RowsAppend(before + at, after, org, picked);
  }

  /** No call changes the rows that already booked lines give. */
  lemma CallKeepsRows(t: Tables, op: Op, org: Id, picked: seq<Line>)
    requires Sound(t)
    requires forall j :: 0 <= j < |picked| ==> picked[j] in t.lines && picked[j].org == org
    ensures PnLRows(After(t, op).accounts, org, picked) == PnLRows(t.accounts, org, picked)
  {
    forall j | 0 <= j < |picked| ensures picked[j].account < t.nextId {
      var i :| 0 <= i < |t.lines| && t.lines[i] == picked[j];
      assert HasId(t.accounts, t.lines[i].account);
    }
    if Refusal(t, op).None? {
      match op {
        case SeedDefaultAccounts(o) =>
          var more := Seeded(o, |DEFAULT_ACCOUNTS|, t.nextId);
          RowsAppend(t.accounts, more, org, picked);
          UnusedAccountsHaveNoRows(more, org, picked);
        case CreateAccount(o, code, _, kind, parent) =>
          var more := [Account(t.nextId, o, code, TypeOf(kind).value, false, parent)];
          RowsAppend(t.accounts, more, org, picked);
          UnusedAccountsHaveNoRows(more, org, picked);
        case DeleteAccount(o, account) =>
          UnusedAccountHasNoRow(t.accounts, FindAccount(t.accounts, o, account), org, picked);
        case _ =>
      }
    }
  }

  /** If all transactions of the month are posted when it is closed, then until it is reopened every account balance
      and the whole profit and loss report of any range inside the month are frozen. */
  lemma {:induction false} ReportsFrozen(t: Tables, ops: seq<Op>, m: Month, from: Date, to: Date)
    requires Sound(t) && !IsOpen(t, m) && NeverReopens(ops, m)
    requires AllPosted(MonthTxns(t.txns, m)) && RangeWithin(from, to, m)
    ensures PickPosted(Run(t, ops), m.org, from, to) == PickPosted(t, m.org, from, to)
    ensures ReportOf(Run(t, ops), m.org, from, to) == ReportOf(t, m.org, from, to)
    ensures forall a: Id ::
              GetAccountBalance(Run(t, ops), m.org, a, from, to) == GetAccountBalance(t, m.org, a, from, to)
  {
    if ops != [] {
      var before, last := ops[..|ops| - 1], ops[|ops| - 1];
      ReportsFrozen(t, before, m, from, to);
      SamePicked(t, ops, m, from, to);
      RunKeepsSound(t, before);
      var u := Run(t, before);
      var picked := PickPosted(t, m.org, from, to);
      PickedAreLines(u.lines, m.org, PostedBetween(u.txns, from, to));
      forall j | 0 <= j < |picked| ensures picked[j] in u.lines && picked[j].org == m.org {
        assert picked[j] in PickPosted(u, m.org, from, to);
      }
      CallKeepsRows(u, last, m.org, picked);
    }
  }

  lemma SamePicked(t: Tables, ops: seq<Op>, m: Month, from: Date, to: Date)
    requires Sound(t) && !IsOpen(t, m) && NeverReopens(ops, m)
    requires AllPosted(MonthTxns(t.txns, m)) && RangeWithin(from, to, m)
    ensures PickPosted(Run(t, ops), m.org, from, to) == PickPosted(t, m.org, from, to)
  {
    ClosedMonthKeepsBooks(t, ops, m);
    PostedStays(MonthTxns(t.txns, m), MonthTxns(Run(t, ops).txns, m));
    RunKeepsSound(t, ops);
    PostedFromMonth(t, m, from, to);
    PostedFromMonth(Run(t, ops), m, from, to);
  }

  // ---------- Exactly when balances are frozen ----------

  /** No calls short of reopening move a balance of a range inside the month. */
  ghost predicate BalancesFrozen(t: Tables, m: Month) {
    forall ops: seq<Op>, account: Id, from: Date, to: Date :: NeverReopens(ops, m) && RangeWithin(from, to, m) ==>
      GetAccountBalance(Run(t, ops), m.org, account, from, to) == GetAccountBalance(t, m.org, account, from, to)
  }

  /** In every reachable ledger the balances of a closed month are frozen if and only if all its transactions are
      posted. */
  lemma BalancesFrozenIffPosted(opsBefore: seq<Op>, m: Month)
    requires !IsOpen(Run(EMPTY_TABLES, opsBefore), m)
    ensures BalancesFrozen(Run(EMPTY_TABLES, opsBefore), m)
       <==> AllPosted(MonthTxns(Run(EMPTY_TABLES, opsBefore).txns, m))
  {
    var t := Run(EMPTY_TABLES, opsBefore);
    NothingIsSound();
    RunKeepsSound(EMPTY_TABLES, opsBefore);
    if AllPosted(MonthTxns(t.txns, m)) {
      forall ops: seq<Op>, account: Id, from: Date, to: Date | NeverReopens(ops, m) && RangeWithin(from, to, m)
        ensures GetAccountBalance(Run(t, ops), m.org, account, from, to)
             == GetAccountBalance(t, m.org, account, from, to)
      {
        ReportsFrozen(t, ops, m, from, to);
      }
    } else {
      RunStaysWellKept(opsBefore);
      var i :| 0 <= i < |MonthTxns(t.txns, m)| && !MonthTxns(t.txns, m)[i].posted;
      UnpostedMayMove(t, m, MonthTxns(t.txns, m)[i]);
    }
  }

  lemma UnpostedMayMove(t: Tables, m: Month, x: Txn)
    requires Sound(t) && WellKept(t) && x in MonthTxns(t.txns, m) && !x.posted
    ensures !BalancesFrozen(t, m)
  {
    MonthTxnsAreTxns(t.txns, m);
    var account := PostingMovesBalance(t, x);
    var ops := [PostTransaction(m.org, x.id)];
    assert ops[..0] == [] && Run(t, ops) == After(t, ops[0]);
    assert NeverReopens(ops, m) && RangeWithin(x.date, x.date, m);
  }

  /** Posting a transaction moves the debits or credits of some account on its date. */
  lemma PostingMovesBalance(t: Tables, x: Txn) returns (account: Id)
    requires Sound(t) && WellKept(t) && x in t.txns && !x.posted
    ensures var t' := After(t, PostTransaction(x.org, x.id));
            GetAccountBalance(t', x.org, account, x.date, x.date)
              != GetAccountBalance(t, x.org, account, x.date, x.date)
  {
    var k :| 0 <= k < |t.txns| && t.txns[k] == x;
    assert FindTxn(t.txns, x.org, x.id) == k;
    var t' := After(t, PostTransaction(x.org, x.id));
    assert t'.txns == t.txns[k := x.(posted := true)];
    assert HasLine(t.lines, x.org, x.id);
    var i :| 0 <= i < |t.lines| && t.lines[i].org == x.org && t.lines[i].txn == x.id;
    account := t.lines[i].account;
    PostedNow(t.txns, k);
    var ids, more := PostedBetween(t.txns, x.date, x.date), PostedBetween(t'.txns, x.date, x.date);
    PickingMore(t.lines, x.org, ids, more, account);
    assert !NoneOn(t.lines, x.org, more - ids, account);
  }

  lemma PostedNow(txns: seq<Txn>, k: nat)
    requires UniqueTxns(txns) && k < |txns| && !txns[k].posted
    ensures var x, after := txns[k], txns[k := txns[k].(posted := true)];
            && x.id !in PostedBetween(txns, x.date, x.date)
            && PostedBetween(after, x.date, x.date) == PostedBetween(txns, x.date, x.date) + {x.id}
  {
    var x, after := txns[k], txns[k := txns[k].(posted := true)];
    assert after[k].posted && after[k].id == x.id;
    forall i | 0 <= i < |txns| && i != k
      ensures after[i] == txns[i] && txns[i].id != x.id
    {
    }
    var ids, more := PostedBetween(txns, x.date, x.date), PostedBetween(after, x.date, x.date);
    forall id | id in ids ensures id in more {
      var i :| 0 <= i < |txns| && txns[i].posted && Between(x.date, txns[i].date, x.date) && txns[i].id == id;
      assert after[i] == txns[i];
    }
    forall id | id in more && id != x.id ensures id in ids {
      var i :| 0 <= i < |after| && after[i].posted && Between(x.date, after[i].date, x.date) && after[i].id == id;
      assert after[i] == txns[i];
    }
  }
}
