/** Exactly when the profit and loss report of a closed month is frozen. */
module LedgerProfit {
  import opened Common
  import opened Ledger
  import opened LedgerReports
  import opened LedgerPeriods

  function NetOn(picked: seq<Line>, account: Id): int { DebitOf(picked, account) - CreditOf(picked, account) }

  predicate OnReport(a: Account, org: Id) { a.org == org && (a.kind == Revenue || a.kind == Expense) }

  /** The transaction moves no revenue or expense account on balance. */
  ghost predicate Harmless(t: Tables, org: Id, txn: Id) {
    forall k :: 0 <= k < |t.accounts| && OnReport(t.accounts[k], org) ==>
      NetOn(Pick(t.lines, org, {txn}), t.accounts[k].id) == 0
  }

  ghost predicate HarmlessUnposted(t: Tables, m: Month) {
    forall i :: 0 <= i < |MonthTxns(t.txns, m)| && !MonthTxns(t.txns, m)[i].posted ==>
      Harmless(t, m.org, MonthTxns(t.txns, m)[i].id)
  }

  /** No calls short of reopening change the report of a range inside the month. */
  ghost predicate ReportFrozen(t: Tables, m: Month) {
    forall ops: seq<Op>, from: Date, to: Date :: NeverReopens(ops, m) && RangeWithin(from, to, m) ==>
      ReportOf(Run(t, ops), m.org, from, to) == ReportOf(t, m.org, from, to)
  }

  // ---------- Amounts and rows ----------

  lemma {:induction false} PicksAddUp(lines: seq<Line>, org: Id, a: set<Id>, b: set<Id>, account: Id)
    requires a !! b
    ensures NetOn(Pick(lines, org, a + b), account)
         == NetOn(Pick(lines, org, a), account) + NetOn(Pick(lines, org, b), account)
  {
    if lines != [] {
      PicksAddUp(lines[..|lines| - 1], org, a, b, account);
      LastPicked(lines, org, a);
      LastPicked(lines, org, b);
      LastPicked(lines, org, a + b);
    }
  }

  lemma {:induction false} SameAmountsSameRows(accounts: seq<Account>, org: Id, p: seq<Line>, q: seq<Line>)
    requires forall k :: 0 <= k < |accounts| && OnReport(accounts[k], org) ==>
               NetOn(p, accounts[k].id) == NetOn(q, accounts[k].id)
    ensures PnLRows(accounts, org, p) == PnLRows(accounts, org, q)
  {
    if accounts != [] {
      var n := |accounts| - 1;
      assert forall k :: 0 <= k < n ==> accounts[..n][k] == accounts[k];
      SameAmountsSameRows(accounts[..n], org, p, q);
    }
  }

  function AmountIn(rows: seq<PnLRow>, account: Id): int {
    if rows == [] then 0
    else
      AmountIn(rows[..|rows| - 1], account)
      + (if rows[|rows| - 1].account == account then rows[|rows| - 1].amount else 0)
  }

  lemma {:induction false} RowsTellAmount(accounts: seq<Account>, org: Id, picked: seq<Line>, account: Id)
    requires UniqueAccounts(accounts)
    ensures forall k :: 0 <= k < |accounts| && OnReport(accounts[k], org) && accounts[k].id == account ==>
              AmountIn(PnLRows(accounts, org, picked), account) == PnLAmount(accounts[k], picked)
    ensures (forall k :: 0 <= k < |accounts| ==> accounts[k].id != account) ==>
              AmountIn(PnLRows(accounts, org, picked), account) == 0
  {
    if accounts != [] {
      var n := |accounts| - 1;
      RowsTellAmount(accounts[..n], org, picked, account);
      assert forall k :: 0 <= k < n ==> accounts[..n][k] == accounts[k];
      var before, rows := PnLRows(accounts[..n], org, picked), PnLRows(accounts, org, picked);
      if OnPnL(accounts[n], org, picked) {
        assert rows[..|before|] == before;
      }
    }
  }

  // ---------- More postings of the month ----------

  ghost predicate Unlike(txns: seq<Txn>) { forall i, j :: 0 <= i < j < |txns| ==> txns[i].id != txns[j].id }

  lemma PostedUpTo(txns: seq<Txn>, n: nat, from: Date, to: Date)
    requires n < |txns|
    ensures PostedBetween(txns[..n + 1], from, to)
         == PostedBetween(txns[..n], from, to)
            + (if txns[n].posted && Between(from, txns[n].date, to) then {txns[n].id} else {})
  {
    assert txns[..n + 1][..n] == txns[..n] && txns[..n + 1][n] == txns[n];
    forall id | id in PostedBetween(txns[..n], from, to) ensures id in PostedBetween(txns[..n + 1], from, to) {
      var i :| 0 <= i < n && txns[..n][i].posted && Between(from, txns[..n][i].date, to) && txns[..n][i].id == id;
      assert txns[..n + 1][i] == txns[..n][i];
    }
    forall id | id in PostedBetween(txns[..n + 1], from, to) && id != txns[n].id
      ensures id in PostedBetween(txns[..n], from, to)
    {
      var i :| 0 <= i < n + 1 && txns[..n + 1][i].posted && Between(from, txns[..n + 1][i].date, to)
               && txns[..n + 1][i].id == id;
      assert i < n && txns[..n][i] == txns[..n + 1][i];
    }
  }

  /** Posting harmless transactions leaves an account's net where it is. */
  lemma {:induction false} HarmlessPostings(lines: seq<Line>, org: Id, a: seq<Txn>, b: seq<Txn>, n: nat, from: Date,
                                            to: Date, account: Id)
    requires SameButPosted(a, b) && Unlike(a) && n <= |a|
    requires forall i :: 0 <= i < |a| && !a[i].posted ==> NetOn(Pick(lines, org, {a[i].id}), account) == 0
    ensures NetOn(Pick(lines, org, PostedBetween(b[..n], from, to)), account)
         == NetOn(Pick(lines, org, PostedBetween(a[..n], from, to)), account)
  {
    if n > 0 {
      var k := n - 1;
      HarmlessPostings(lines, org, a, b, k, from, to, account);
      PostedUpTo(a, k, from, to);
      PostedUpTo(b, k, from, to);
      assert forall i :: 0 <= i < k ==> a[..k][i] == a[i] && b[..k][i] == b[i];
      assert a[k].id !in PostedBetween(a[..k], from, to) && a[k].id !in PostedBetween(b[..k], from, to);
      PicksAddUp(lines, org, PostedBetween(b[..k], from, to), {a[k].id}, account);
      PicksAddUp(lines, org, PostedBetween(a[..k], from, to), {a[k].id}, account);
      assert PostedBetween(a[..k], from, to) + {} == PostedBetween(a[..k], from, to);
      assert PostedBetween(b[..k], from, to) + {} == PostedBetween(b[..k], from, to);
    }
  }

  lemma {:induction false} MonthTxnsUnlike(txns: seq<Txn>, m: Month)
    requires UniqueTxns(txns)
    ensures Unlike(MonthTxns(txns, m))
  {
    if txns != [] {
      var n := |txns| - 1;
      MonthTxnsUnlike(txns[..n], m);
      MonthTxnsAreTxns(txns[..n], m);
      var before := MonthTxns(txns[..n], m);
      forall i | 0 <= i < |before| ensures before[i].id != txns[n].id {
        assert before[i] in before;
        var k :| 0 <= k < n && txns[..n][k] == before[i];
        assert txns[k].id != txns[n].id;
      }
    }
  }

  // ---------- Accounts along a run ----------

  /** Accounts that are there later were there before or are newer than everything. */
  ghost predicate OldOrNew(t: Tables, t': Tables) {
    && t.nextId <= t'.nextId && t.lines <= t'.lines
    && forall i :: 0 <= i < |t'.accounts| ==> t'.accounts[i] in t.accounts || t'.accounts[i].id >= t.nextId
  }

  lemma CallKeepsOldOrNew(t: Tables, op: Op)
    ensures OldOrNew(t, After(t, op))
  {
    if Refusal(t, op).None? {
      match op {
        case DeleteAccount(org, account) =>
          var k := FindAccount(t.accounts, org, account);
          var kept := t.accounts[..k] + t.accounts[k + 1..];
          forall i | 0 <= i < |kept| ensures kept[i] in t.accounts {
            assert kept[i] == t.accounts[if i < k then i else i + 1];
          }
        case _ =>
      }
    }
  }

  lemma OldOrNewChains(t: Tables, t': Tables, t'': Tables)
    requires OldOrNew(t, t') && OldOrNew(t', t'')
    ensures OldOrNew(t, t'')
  {
    forall i | 0 <= i < |t''.accounts| ensures t''.accounts[i] in t.accounts || t''.accounts[i].id >= t.nextId {
      if t''.accounts[i] in t'.accounts {
        var j :| 0 <= j < |t'.accounts| && t'.accounts[j] == t''.accounts[i];
      }
    }
  }

  lemma {:induction false} RunKeepsOldOrNew(t: Tables, ops: seq<Op>)
    ensures OldOrNew(t, Run(t, ops))
  {
    if ops != [] {
      var before := ops[..|ops| - 1];
      RunKeepsOldOrNew(t, before);
      CallKeepsOldOrNew(Run(t, before), ops[|ops| - 1]);
      OldOrNewChains(t, Run(t, before), Run(t, ops));
    }
  }

  lemma {:induction false} RunKeepsRows(t: Tables, ops: seq<Op>, org: Id, picked: seq<Line>)
    requires Sound(t) && forall j :: 0 <= j < |picked| ==> picked[j] in t.lines && picked[j].org == org
    ensures PnLRows(Run(t, ops).accounts, org, picked) == PnLRows(t.accounts, org, picked)
  {
    if ops != [] {
      var before := ops[..|ops| - 1];
      RunKeepsRows(t, before, org, picked);
      RunKeepsSound(t, before);
      RunKeepsOldOrNew(t, before);
      CallKeepsRows(Run(t, before), ops[|ops| - 1], org, picked);
    }
  }

  // ---------- The theorem ----------

  /** What the report reads after a run nets the same on every account of the report as what it read before. */
  lemma NetsStay(t: Tables, ops: seq<Op>, m: Month, from: Date, to: Date, a: Account)
    requires Sound(t) && !IsOpen(t, m) && NeverReopens(ops, m) && RangeWithin(from, to, m) && HarmlessUnposted(t, m)
    requires a in Run(t, ops).accounts && OnReport(a, m.org)
    ensures NetOn(PickPosted(Run(t, ops), m.org, from, to), a.id) == NetOn(PickPosted(t, m.org, from, to), a.id)
  {
    var t' := Run(t, ops);
    var lines, x, y := MonthLines(t, m), MonthTxns(t.txns, m), MonthTxns(t'.txns, m);
    ClosedMonthKeepsBooks(t, ops, m);
    RunKeepsSound(t, ops);
    PostedFromMonth(t, m, from, to);
    PostedFromMonth(t', m, from, to);
    MonthTxnsUnlike(t.txns, m);
    forall i | 0 <= i < |x| && !x[i].posted ensures NetOn(Pick(lines, m.org, {x[i].id}), a.id) == 0 {
      HarmlessForLater(t, ops, m, i, a);
    }
    HarmlessPostings(lines, m.org, x, y, |x|, from, to, a.id);
    assert x[..|x|] == x && y[..|x|] == y;
  }

  lemma HarmlessForLater(t: Tables, ops: seq<Op>, m: Month, i: nat, a: Account)
    requires Sound(t) && HarmlessUnposted(t, m) && a in Run(t, ops).accounts && OnReport(a, m.org)
    requires i < |MonthTxns(t.txns, m)| && !MonthTxns(t.txns, m)[i].posted
    ensures NetOn(Pick(MonthLines(t, m), m.org, {MonthTxns(t.txns, m)[i].id}), a.id) == 0
  {
    var x := MonthTxns(t.txns, m)[i];
    var picked := Pick(t.lines, m.org, {x.id});
    PickTwice(t.lines, m.org, IdsOf(MonthTxns(t.txns, m)), {x.id});
    assert IdsOf(MonthTxns(t.txns, m)) * {x.id} == {x.id};
    RunKeepsOldOrNew(t, ops);
    if a in t.accounts {
      assert Harmless(t, m.org, x.id);
    } else {
      PickedAreLines(t.lines, m.org, {x.id});
      forall j | 0 <= j < |picked| ensures picked[j].account != a.id {
        assert picked[j] in picked;
        var k :| 0 <= k < |t.lines| && t.lines[k] == picked[j];
        assert HasId(t.accounts, t.lines[k].account);
      }
      UnusedAccount(picked, a.id);
    }
  }

  lemma HarmlessFreezes(t: Tables, ops: seq<Op>, m: Month, from: Date, to: Date)
    requires Sound(t) && !IsOpen(t, m) && NeverReopens(ops, m) && RangeWithin(from, to, m) && HarmlessUnposted(t, m)
    ensures ReportOf(Run(t, ops), m.org, from, to) == ReportOf(t, m.org, from, to)
  {
    var t', picked := Run(t, ops), PickPosted(t, m.org, from, to);
    PickedAreLines(t.lines, m.org, PostedBetween(t.txns, from, to));
    forall j | 0 <= j < |picked| ensures picked[j] in t.lines && picked[j].org == m.org {
      assert picked[j] in picked;
    }
    RunKeepsRows(t, ops, m.org, picked);
    forall k | 0 <= k < |t'.accounts| && OnReport(t'.accounts[k], m.org)
      ensures NetOn(PickPosted(t', m.org, from, to), t'.accounts[k].id) == NetOn(picked, t'.accounts[k].id)
    {
      NetsStay(t, ops, m, from, to, t'.accounts[k]);
    }
    SameAmountsSameRows(t'.accounts, m.org, PickPosted(t', m.org, from, to), picked);
  }

  /** Posting a transaction that moves a revenue or expense account changes the report of its date. */
  lemma PostingMovesReport(t: Tables, x: Txn, k: nat)
    requires Sound(t) && x in t.txns && !x.posted && k < |t.accounts| && OnReport(t.accounts[k], x.org)
    requires NetOn(Pick(t.lines, x.org, {x.id}), t.accounts[k].id) != 0
    ensures var t' := After(t, PostTransaction(x.org, x.id));
            ReportOf(t', x.org, x.date, x.date) != ReportOf(t, x.org, x.date, x.date)
  {
    var j :| 0 <= j < |t.txns| && t.txns[j] == x;
    assert FindTxn(t.txns, x.org, x.id) == j;
    var t' := After(t, PostTransaction(x.org, x.id));
    assert t'.txns == t.txns[j := x.(posted := true)];
    PostedNow(t.txns, j);
    var ids := PostedBetween(t.txns, x.date, x.date);
    PicksAddUp(t.lines, x.org, ids, {x.id}, t.accounts[k].id);
    RowsTellAmount(t.accounts, x.org, PickPosted(t, x.org, x.date, x.date), t.accounts[k].id);
    RowsTellAmount(t.accounts, x.org, PickPosted(t', x.org, x.date, x.date), t.accounts[k].id);
  }

  /** In every reachable ledger the profit and loss report of a closed month is frozen if and only if none of its
      unposted transactions moves a revenue or expense account on balance. */
  lemma ReportFrozenIffHarmless(opsBefore: seq<Op>, m: Month)
    requires !IsOpen(Run(EMPTY_TABLES, opsBefore), m)
    ensures ReportFrozen(Run(EMPTY_TABLES, opsBefore), m) <==> HarmlessUnposted(Run(EMPTY_TABLES, opsBefore), m)
  {
    var t := Run(EMPTY_TABLES, opsBefore);
    NothingIsSound();
    RunKeepsSound(EMPTY_TABLES, opsBefore);
    if HarmlessUnposted(t, m) {
      forall ops: seq<Op>, from: Date, to: Date | NeverReopens(ops, m) && RangeWithin(from, to, m)
        ensures ReportOf(Run(t, ops), m.org, from, to) == ReportOf(t, m.org, from, to)
      {
        HarmlessFreezes(t, ops, m, from, to);
      }
    } else {
      var i :| 0 <= i < |MonthTxns(t.txns, m)| && !MonthTxns(t.txns, m)[i].posted
               && !Harmless(t, m.org, MonthTxns(t.txns, m)[i].id);
      var x := MonthTxns(t.txns, m)[i];
      MonthTxnsAreTxns(t.txns, m);
      assert x in MonthTxns(t.txns, m);
      var k :| 0 <= k < |t.accounts| && OnReport(t.accounts[k], m.org)
               && NetOn(Pick(t.lines, m.org, {x.id}), t.accounts[k].id) != 0;
      PostingMovesReport(t, x, k);
      var ops := [PostTransaction(m.org, x.id)];
      assert ops[..0] == [] && Run(t, ops) == After(t, ops[0]);
      assert NeverReopens(ops, m) && RangeWithin(x.date, x.date, m);
    }
  }

  // ---------- A month closed too early ----------

  const JANUARY := Month(0, 2026, 1)

  function ClosedEarly(): seq<Op> { SaleOps(0) + [ClosePeriod(0, 2026, 1)] }

  /** A sale is entered and its month closed before it is posted: neither records, nor balances, nor the report of the
      closed month are frozen. */
  lemma EarlyCloseFreezesNothing()
    ensures var t := Run(EMPTY_TABLES, ClosedEarly());
            !IsOpen(t, JANUARY) && !AllPosted(MonthTxns(t.txns, JANUARY))
            && !BalancesFrozen(t, JANUARY) && !ReportFrozen(t, JANUARY)
  {
    var t := Run(EMPTY_TABLES, ClosedEarly());
    SaleMonthClosed();
    assert !MonthTxns(t.txns, JANUARY)[0].posted;
    BalancesFrozenIffPosted(ClosedEarly(), JANUARY);
    SaleNet();
    assert OnReport(t.accounts[0], 0) && !Harmless(t, 0, 2);
    ReportFrozenIffHarmless(ClosedEarly(), JANUARY);
  }

  lemma SaleMonthClosed()
    ensures var t := Run(EMPTY_TABLES, ClosedEarly());
            && !IsOpen(t, JANUARY) && MonthTxns(t.txns, JANUARY) == [Txn(2, 0, THE_DAY, false)]
            && t.accounts == TwoAccounts(0).accounts && t.lines == SALE_LINES
  {
    var t, x := Run(EMPTY_TABLES, ClosedEarly()), Txn(2, 0, THE_DAY, false);
    SaleEntered(0);
    RunAppends(EMPTY_TABLES, SaleOps(0), ClosePeriod(0, 2026, 1));
    assert t.txns == [x] && [x][..0] == [];
  }

  lemma SaleNet()
    ensures NetOn(Pick(SALE_LINES, 0, {2}), 0) == -5
  {
    var first := [Line(2, 0, 1, 5, 0)];
    LastPicked(SALE_LINES, 0, {2});
    assert SALE_LINES[..1] == first;
    LastPicked(first, 0, {2});
    assert first[..0] == [];
  }

}
