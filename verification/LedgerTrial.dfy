/** The trial balance: what its query returns, that it balances, and exactly when its rows are right. */
module LedgerTrial {
  import opened Common
  import opened Ledger
  import opened LedgerReports

  // ---------- The query ----------

  datatype TrialBalanceRow = TrialBalanceRow(account: Id, code: string, debit: int, credit: int)

  datatype JoinedRow = JoinedRow(line: Line, txn: Option<Txn>)

  /** The transactions a line joins with: its own one, if posted and dated up to the date. */
  function Joining(txns: seq<Txn>, l: Line, date: Date): seq<Txn> {
    if txns == [] then []
    else
      var before, x := Joining(txns[..|txns| - 1], l, date), txns[|txns| - 1];
      if x.id == l.txn && x.posted && AtMost(x.date, date) then before + [x] else before
  }

  /** A line that joins with nothing stays, once. */
  function LeftJoin(lines: seq<Line>, txns: seq<Txn>, date: Date): seq<JoinedRow> {
    if lines == [] then []
    else
      var before, l := LeftJoin(lines[..|lines| - 1], txns, date), lines[|lines| - 1];
      var joining := Joining(txns, l, date);
      before + (if joining == [] then [JoinedRow(l, None)]
                else seq(|joining|, i requires 0 <= i < |joining| => JoinedRow(l, Some(joining[i]))))
  }

  function LinesOfRows(rows: seq<JoinedRow>): seq<Line> {
    seq(|rows|, i requires 0 <= i < |rows| => rows[i].line)
  }

  function OrgLines(lines: seq<Line>, org: Id): seq<Line> {
    if lines == [] then []
    else
      var before, l := OrgLines(lines[..|lines| - 1], org), lines[|lines| - 1];
      if l.org == org then before + [l] else before
  }

  /** The sums over the joined lines of one account. */
  function RowOf(a: Account, lines: seq<Line>, org: Id): TrialBalanceRow {
    TrialBalanceRow(a.id, a.code, DebitOf(OrgLines(lines, org), a.id), CreditOf(OrgLines(lines, org), a.id))
  }

  /** One row per account of the organization. */
  function RowsOf(accounts: seq<Account>, lines: seq<Line>, org: Id): seq<TrialBalanceRow> {
    if accounts == [] then []
    else
      var before, a := RowsOf(accounts[..|accounts| - 1], lines, org), accounts[|accounts| - 1];
      if a.org == org then before + [RowOf(a, lines, org)] else before
  }

  function GetTrialBalance(t: Tables, org: Id, date: Date): seq<TrialBalanceRow> {
    RowsOf(t.accounts, LinesOfRows(LeftJoin(t.lines, t.txns, date)), org)
  }

  // ---------- The join drops nothing ----------

  lemma {:induction false} AtMostOneJoins(txns: seq<Txn>, l: Line, date: Date)
    requires UniqueTxns(txns)
    ensures |Joining(txns, l, date)| <= 1
    ensures (forall k :: 0 <= k < |txns| ==> txns[k].id != l.txn) ==> Joining(txns, l, date) == []
  {
    if txns != [] {
      AtMostOneJoins(txns[..|txns| - 1], l, date);
    }
  }

  /** As the join is to the left, with at most one transaction per line, it returns every line once, whatever the date
      and whatever is posted. */
  lemma {:induction false} JoinKeepsEveryLine(lines: seq<Line>, txns: seq<Txn>, date: Date)
    requires UniqueTxns(txns)
    ensures LinesOfRows(LeftJoin(lines, txns, date)) == lines
  {
    if lines != [] {
      var n := |lines| - 1;
      JoinKeepsEveryLine(lines[..n], txns, date);
      AtMostOneJoins(txns, lines[n], date);
      var before, rows := LeftJoin(lines[..n], txns, date), LeftJoin(lines, txns, date);
      assert |rows| == |before| + 1 && rows[..|before|] == before && rows[|before|].line == lines[n];
      assert LinesOfRows(rows) == LinesOfRows(before) + [lines[n]];
    }
  }

  // ---------- It balances ----------

  function TrialDebit(rows: seq<TrialBalanceRow>): int {
    if rows == [] then 0 else TrialDebit(rows[..|rows| - 1]) + rows[|rows| - 1].debit
  }

  function TrialCredit(rows: seq<TrialBalanceRow>): int {
    if rows == [] then 0 else TrialCredit(rows[..|rows| - 1]) + rows[|rows| - 1].credit
  }

  lemma {:induction false} TrialIsNet(accounts: seq<Account>, lines: seq<Line>, org: Id)
    ensures var rows := RowsOf(accounts, lines, org);
            TrialDebit(rows) - TrialCredit(rows) == NetOfTypes(accounts, org, ALL_TYPES, OrgLines(lines, org))
  {
    if accounts != [] {
      var n := |accounts| - 1;
      TrialIsNet(accounts[..n], lines, org);
      EveryType(accounts[n].kind);
      var before, rows := RowsOf(accounts[..n], lines, org), RowsOf(accounts, lines, org);
      if accounts[n].org == org {
        assert rows[..|before|] == before;
      }
    }
  }

  lemma {:induction false} OrgLinesArePicked(lines: seq<Line>, org: Id, ids: set<Id>)
    requires forall i :: 0 <= i < |lines| ==> lines[i].txn in ids
    ensures OrgLines(lines, org) == Pick(lines, org, ids)
  {
    if lines != [] {
      OrgLinesArePicked(lines[..|lines| - 1], org, ids);
    }
  }

  /** In every reachable ledger the trial balance's debits exceed its credits by exactly minus the foreign net, so they
      are equal when all entries stay on own accounts, whatever the date. */
  lemma TrialBalanceBalances(ops: seq<Op>, org: Id, date: Date)
    ensures var t := Run(EMPTY_TABLES, ops);
            var rows := GetTrialBalance(t, org, date);
            && TrialDebit(rows) - TrialCredit(rows) == -ForeignNet(t.accounts, org, OrgLines(t.lines, org))
            && (HomeRun(ops) ==> TrialDebit(rows) == TrialCredit(rows))
  {
    var t := Run(EMPTY_TABLES, ops);
    NothingIsSound();
    RunKeepsSound(EMPTY_TABLES, ops);
    JoinKeepsEveryLine(t.lines, t.txns, date);
    var ids := set i | 0 <= i < |t.lines| :: t.lines[i].txn;
    var picked := OrgLines(t.lines, org);
    OrgLinesArePicked(t.lines, org, ids);
    assert NetOf(Pick(t.lines, org, ids)) == 0;
    TrialIsNet(t.accounts, t.lines, org);
    RegroupByAccount(t.accounts, org, picked);
    if HomeRun(ops) {
      HomeRunsStayHome(ops);
      PickedAreLines(t.lines, org, ids);
      forall i | 0 <= i < |picked| ensures Owns(t.accounts, org, picked[i].account) {
        assert picked[i] in picked;
      }
      NothingForeign(t.accounts, org, picked);
    }
  }

  // ---------- Exactly when a row is right ----------

  /** The transactions a trial balance at the date should cover. */
  function PostedUpTo(txns: seq<Txn>, date: Date): set<Id> {
    set i | 0 <= i < |txns| && txns[i].posted && AtMost(txns[i].date, date) :: txns[i].id
  }

  lemma {:induction false} RowIsThere(accounts: seq<Account>, lines: seq<Line>, org: Id, k: nat)
    requires k < |accounts| && accounts[k].org == org
    ensures RowOf(accounts[k], lines, org) in RowsOf(accounts, lines, org)
  {
    if k < |accounts| - 1 {
      RowIsThere(accounts[..|accounts| - 1], lines, org, k);
    }
  }

  /** In every reachable ledger an account's row shows the posted debits and credits up to the date if and only if no
      line of the organization on that account belongs to an unposted or later transaction. */
  lemma RowIsRight(ops: seq<Op>, org: Id, date: Date, k: nat)
    requires k < |Run(EMPTY_TABLES, ops).accounts| && Run(EMPTY_TABLES, ops).accounts[k].org == org
    ensures var t := Run(EMPTY_TABLES, ops);
            var a, picked := t.accounts[k], Pick(t.lines, org, PostedUpTo(t.txns, date));
            var row := RowOf(a, t.lines, org);
            && row in GetTrialBalance(t, org, date)
            && (row == TrialBalanceRow(a.id, a.code, DebitOf(picked, a.id), CreditOf(picked, a.id)) <==>
                  forall i, j :: 0 <= i < |t.lines| && t.lines[i].org == org && t.lines[i].account == a.id
                                 && 0 <= j < |t.txns| && t.txns[j].id == t.lines[i].txn ==>
                    t.txns[j].posted && AtMost(t.txns[j].date, date))
  {
    var t := Run(EMPTY_TABLES, ops);
    NothingIsSound();
    RunKeepsSound(EMPTY_TABLES, ops);
    RunStaysWellKept(ops);
    JoinKeepsEveryLine(t.lines, t.txns, date);
    RowIsThere(t.accounts, t.lines, org, k);
    RowEqualsPicked(t.lines, org, t.accounts[k], PostedUpTo(t.txns, date));
    NoneOnMeansCovered(t, org, date, t.accounts[k].id, AllTxns(t.lines) - PostedUpTo(t.txns, date));
  }

  function AllTxns(lines: seq<Line>): set<Id> { set i | 0 <= i < |lines| :: lines[i].txn }

  lemma RowEqualsPicked(lines: seq<Line>, org: Id, a: Account, ids: set<Id>)
    requires OneSided(lines)
    ensures var picked := Pick(lines, org, ids);
            RowOf(a, lines, org) == TrialBalanceRow(a.id, a.code, DebitOf(picked, a.id), CreditOf(picked, a.id)) <==>
              NoneOn(lines, org, AllTxns(lines) - ids, a.id)
  {
    var all := ids + AllTxns(lines);
    OrgLinesArePicked(lines, org, all);
    PickingMore(lines, org, ids, all, a.id);
    assert all - ids == AllTxns(lines) - ids;
  }

  lemma NoneOnMeansCovered(t: Tables, org: Id, date: Date, account: Id, others: set<Id>)
    requires UniqueTxns(t.txns) && LinesRooted(t)
    requires forall i :: 0 <= i < |t.lines| ==>
               (t.lines[i].txn in others <==> t.lines[i].txn !in PostedUpTo(t.txns, date))
    ensures NoneOn(t.lines, org, others, account) <==>
              forall i, j :: 0 <= i < |t.lines| && t.lines[i].org == org && t.lines[i].account == account
                             && 0 <= j < |t.txns| && t.txns[j].id == t.lines[i].txn ==>
                t.txns[j].posted && AtMost(t.txns[j].date, date)
  {
    forall i | 0 <= i < |t.lines| ensures HasTxn(t.txns, t.lines[i].org, t.lines[i].txn) {
    }
    forall i, j | 0 <= i < |t.lines| && 0 <= j < |t.txns| && t.txns[j].id == t.lines[i].txn
      ensures t.lines[i].txn in PostedUpTo(t.txns, date) <==> t.txns[j].posted && AtMost(t.txns[j].date, date)
    {
    }
  }

  /** A sale entered and not posted: the trial balance shows it although nothing is posted at all. */
  lemma UnpostedSaleShows()
    ensures var t := Run(EMPTY_TABLES, SaleOps(0));
            && TrialBalanceRow(0, "90", 0, 5) in GetTrialBalance(t, 0, THE_DAY)
            && PostedUpTo(t.txns, THE_DAY) == {}
  {
    var t := Run(EMPTY_TABLES, SaleOps(0));
    SaleEntered(0);
    JoinKeepsEveryLine(t.lines, t.txns, THE_DAY);
    RowIsThere(t.accounts, t.lines, 0, 0);
    assert SALE_LINES[..1] == [Line(2, 0, 1, 5, 0)] && SALE_LINES[..1][..0] == [];
    assert OrgLines(SALE_LINES, 0) == SALE_LINES;
    assert DebitOf(SALE_LINES, 0) == 0 && CreditOf(SALE_LINES, 0) == 5;
  }
}
