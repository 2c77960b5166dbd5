/** The chart of accounts in every run, when entries are accepted, and what closing and reopening do to that. */
module LedgerChart {
  import opened Common
  import opened Ledger
  import opened LedgerReports

  // ---------- Account types ----------

  function NameOf(kind: AccountType): string {
    match kind
    case Asset => "asset"
    case Liability => "liability"
    case Equity => "equity"
    case Revenue => "revenue"
    case Expense => "expense"
  }

  lemma TypeNamesRoundTrip(kind: AccountType, name: string)
    ensures TypeOf(NameOf(kind)) == Some(kind)
    ensures TypeOf(name).Some? ==> NameOf(TypeOf(name).value) == name
  {
  }

  /** The accounts a new organization gets, by type. */
  lemma DefaultChart(org: Id, k: nat)
    ensures k < |DEFAULT_ACCOUNTS| ==>
              var t := After(EMPTY_TABLES, SeedDefaultAccounts(org));
              && |t.accounts| == |DEFAULT_ACCOUNTS| == 11
              && var a := t.accounts[k];
                 && a.org == org && a.isSystem && a.parent.None?
                 && a.code == ["10", "41", "44", "50", "51", "60", "62", "70", "90", "91", "99"][k]
                 && (a.kind == Asset <==> a.code in {"10", "41", "50", "51", "62"})
                 && (a.kind == Liability <==> a.code in {"60", "70"})
                 && (a.kind == Revenue <==> a.code in {"90", "91"})
                 && (a.kind == Expense <==> a.code == "44")
                 && (a.kind == Equity <==> a.code == "99")
  {
  }

  // ---------- The chart in every run ----------

  ghost predicate CodesUnique(accounts: seq<Account>) {
    forall i, j :: 0 <= i < j < |accounts| && accounts[i].org == accounts[j].org ==>
      accounts[i].code != accounts[j].code
  }

  ghost predicate ParentsThere(accounts: seq<Account>) {
    forall i :: 0 <= i < |accounts| && accounts[i].parent.Some? ==> HasId(accounts, accounts[i].parent.value)
  }

  ghost predicate ChartInOrder(t: Tables) { CodesUnique(t.accounts) && ParentsThere(t.accounts) }

  lemma AddedStayInOrder(accounts: seq<Account>, more: seq<Account>)
    requires CodesUnique(accounts) && ParentsThere(accounts) && CodesUnique(more)
    requires forall i :: 0 <= i < |more| ==> !HasCode(accounts, more[i].org, more[i].code)
    requires forall i :: 0 <= i < |more| && more[i].parent.Some? ==> HasId(accounts, more[i].parent.value)
    ensures CodesUnique(accounts + more) && ParentsThere(accounts + more)
  {
    var all := accounts + more;
    forall i | 0 <= i < |all| && all[i].parent.Some? ensures HasId(all, all[i].parent.value) {
      var p := all[i].parent.value;
      assert HasId(accounts, p);
      var k :| 0 <= k < |accounts| && accounts[k].id == p;
      assert all[k].id == p;
    }
  }

  lemma RemovedStaysInOrder(t: Tables, k: nat)
    requires ChartInOrder(t) && k < |t.accounts| && !Referenced(t, t.accounts[k].id)
    ensures CodesUnique(t.accounts[..k] + t.accounts[k + 1..]) && ParentsThere(t.accounts[..k] + t.accounts[k + 1..])
  {
    var kept := t.accounts[..k] + t.accounts[k + 1..];
    assert forall i :: 0 <= i < |kept| ==> kept[i] == t.accounts[if i < k then i else i + 1];
    forall i | 0 <= i < |kept| && kept[i].parent.Some? ensures HasId(kept, kept[i].parent.value) {
      var p := kept[i].parent.value;
      assert HasId(t.accounts, p);
      var j :| 0 <= j < |t.accounts| && t.accounts[j].id == p;
      assert j != k;
      assert kept[if j < k then j else j - 1].id == p;
    }
  }

  lemma CallKeepsChart(t: Tables, op: Op)
    requires ChartInOrder(t)
    ensures ChartInOrder(After(t, op))
  {
    if Refusal(t, op).None? {
      match op {
        case SeedDefaultAccounts(org) =>
          DefaultCodesDiffer();
          AddedStayInOrder(t.accounts, Seeded(org, |DEFAULT_ACCOUNTS|, t.nextId));
        case CreateAccount(org, code, _, kind, parent) =>
          AddedStayInOrder(t.accounts, [Account(t.nextId, org, code, TypeOf(kind).value, false, parent)]);
        case DeleteAccount(org, account) => RemovedStaysInOrder(t, FindAccount(t.accounts, org, account));
        case _ =>
      }
    }
  }

  /** In every run codes are unique within an organization and every parent account is there. */
  lemma {:induction false} RunKeepsChart(ops: seq<Op>)
    ensures ChartInOrder(Run(EMPTY_TABLES, ops))
  {
    if ops != [] {
      RunKeepsChart(ops[..|ops| - 1]);
      CallKeepsChart(Run(EMPTY_TABLES, ops[..|ops| - 1]), ops[|ops| - 1]);
    }
  }

  /** A system account is never lost. */
  lemma {:induction false} SystemAccountsStay(t: Tables, ops: seq<Op>, a: Account)
    requires a in t.accounts && a.isSystem
    ensures a in Run(t, ops).accounts
  {
    if ops != [] {
      SystemAccountsStay(t, ops[..|ops| - 1], a);
      SystemAccountStays(Run(t, ops[..|ops| - 1]), ops[|ops| - 1], a);
    }
  }

  lemma SystemAccountStays(t: Tables, op: Op, a: Account)
    requires a in t.accounts && a.isSystem
    ensures a in After(t, op).accounts
  {
    if op.DeleteAccount? && Refusal(t, op).None? {
      var i, k :| 0 <= i < |t.accounts| && t.accounts[i] == a && k == FindAccount(t.accounts, op.org, op.account);
      assert (t.accounts[..k] + t.accounts[k + 1..])[if i < k then i else i - 1] == a;
    }
  }

  // ---------- Account and cash calls ----------

  /** An account is accepted if and only if it has a code not yet taken in its organization, a name, one of the five
      types and, if any, an existing parent; it is then added as given. Deletion is accepted if and only if the account
      is the organization's, no system account, and neither lines nor other accounts refer to it; then it alone
      goes. */
  lemma AccountCalls(t: Tables, op: Op, a: Account)
    ensures op.CreateAccount? ==>
              (Refusal(t, op).None? <==>
                 && op.code != "" && op.name != "" && (exists kind :: NameOf(kind) == op.kind)
                 && (forall b :: b in t.accounts && b.org == op.org ==> b.code != op.code)
                 && (op.parent.Some? ==> exists b :: b in t.accounts && b.id == op.parent.value))
    ensures op.CreateAccount? && Refusal(t, op).None? ==>
              (a in After(t, op).accounts <==>
                 || a in t.accounts
                 || (a.id == t.nextId && a.org == op.org && a.code == op.code && NameOf(a.kind) == op.kind
                     && !a.isSystem && a.parent == op.parent))
    ensures Sound(t) && op.DeleteAccount? ==>
              (Refusal(t, op).None? <==>
                 && (exists b :: b in t.accounts && b.org == op.org && b.id == op.account && !b.isSystem)
                 && (forall l :: l in t.lines ==> l.account != op.account)
                 && (forall b :: b in t.accounts ==> b.parent != Some(op.account)))
    ensures Sound(t) && op.DeleteAccount? && Refusal(t, op).None? ==>
              (a in After(t, op).accounts <==> a in t.accounts && a.id != op.account)
    ensures op.DeleteAccount? ==>
              && (Refusal(t, op) == Some(NotFound) <==>
                    forall b :: b in t.accounts ==> b.org != op.org || b.id != op.account)
              && (Refusal(t, op) == Some(Conflict) ==>
                    || (exists b :: b in t.accounts && b.id == op.account && b.isSystem)
                    || (exists l :: l in t.lines && l.org == op.org && l.account == op.account))
    ensures op.CreateAccount? ==>
              (Refusal(t, op) == Some(BadRequest) <==>
                 op.code == "" || op.name == "" || forall kind :: NameOf(kind) != op.kind)
  {
    if op.CreateAccount? {
      if TypeOf(op.kind).Some? {
        TypeNamesRoundTrip(TypeOf(op.kind).value, op.kind);
      }
      TypeNamesRoundTrip(a.kind, op.kind);
    }
  }

  // ---------- When an entry is accepted ----------

  /** Exactly one side is positive and the other is zero. */
  predicate OneSide(l: LineInput) { (l.debit > 0 && l.credit == 0) || (l.debit == 0 && l.credit > 0) }

  predicate ClosedNow(t: Tables, m: Month) { m in t.closed && t.closed[m] }

  /** An entry is accepted if and only if it has a date in a month not closed and at least two lines, each with exactly
      one positive side, on accounts that exist, debits and credits adding up to the same. */
  lemma EntryAcceptedExactly(t: Tables, org: Id, date: Option<Date>, lines: seq<LineInput>)
    ensures Refusal(t, CreateTransaction(org, date, lines)).None? <==>
              && date.Some? && !ClosedNow(t, Month(org, date.value.year, date.value.month))
              && |lines| >= 2 && (forall i :: 0 <= i < |lines| ==> OneSide(lines[i]))
              && (forall i :: 0 <= i < |lines| ==>
                    exists k :: 0 <= k < |t.accounts| && t.accounts[k].id == lines[i].account)
              && Debits(lines) == Credits(lines)
    ensures Refusal(t, CreateTransaction(org, date, lines)) == Some(Conflict) <==>
              |lines| >= 2 && date.Some? && ClosedNow(t, Month(org, date.value.year, date.value.month))
    ensures Refusal(t, CreateTransaction(org, date, lines)) == Some(StorageError) ==>
              exists i :: 0 <= i < |lines| && !HasId(t.accounts, lines[i].account)
  {
    assert forall i :: 0 <= i < |lines| ==> (GoodLine(lines[i]) <==> OneSide(lines[i]));
    forall i | 0 <= i < |lines|
      ensures HasId(t.accounts, lines[i].account) <==>
                exists k :: 0 <= k < |t.accounts| && t.accounts[k].id == lines[i].account
    {
    }
  }

  /** Closing is accepted for months 1 to 12 not closed and closes that month alone; reopening is accepted for a closed
      month and opens it alone. */
  lemma PeriodCalls(t: Tables, op: Op, m: Month)
    ensures op.ClosePeriod? ==>
              var it := Month(op.org, op.year, op.month);
              && (Refusal(t, op).None? <==> 1 <= op.month <= 12 && !ClosedNow(t, it))
              && (Refusal(t, op) == Some(Conflict) <==> 1 <= op.month <= 12 && ClosedNow(t, it))
              && (Refusal(t, op).None? ==> (ClosedNow(After(t, op), m) <==> m == it || ClosedNow(t, m)))
    ensures op.ReopenPeriod? ==>
              var it := Month(op.org, op.year, op.month);
              && (Refusal(t, op).None? <==> ClosedNow(t, it))
              && (Refusal(t, op) == Some(NotFound) <==> it !in t.closed)
              && (Refusal(t, op).None? ==> (ClosedNow(After(t, op), m) <==> m != it && ClosedNow(t, m)))
  {
  }

  /** A cash operation is accepted if and only if it is a deposit or withdrawal of a positive amount in a month not
      closed, and then kept with its counterpart, which is account 50 if none is named; no other call touches cash
      operations. */
  lemma CashCalls(t: Tables, op: Op)
    ensures op.CreateCashOperation? ==>
              && (Refusal(t, op).None? <==>
                    (op.kind == "deposit" || op.kind == "withdrawal") && op.amount > 0
                    && !ClosedNow(t, Month(op.org, op.today.year, op.today.month)))
              && (Refusal(t, op) == Some(Conflict) ==>
                    op.amount > 0 && ClosedNow(t, Month(op.org, op.today.year, op.today.month)))
              && (Refusal(t, op).None? ==>
                    && |After(t, op).cash| == |t.cash| + 1 && t.cash <= After(t, op).cash
                    && var row := After(t, op).cash[|t.cash|];
                       && row.org == op.org && row.kind == op.kind && row.amount == op.amount
                       && row.code == (if op.code == "" then "50" else op.code))
    ensures !op.CreateCashOperation? ==> After(t, op).cash == t.cash
  {
  }

  /** After an accepted reopening exactly those entries of the month are accepted that were refused for the period
      alone. */
  lemma ReopenedMonthAccepts(t: Tables, m: Month, date: Date, lines: seq<LineInput>)
    ensures Refusal(t, ReopenPeriod(m.org, m.year, m.month)).None? && date.year == m.year && date.month == m.month ==>
              var entry := CreateTransaction(m.org, Some(date), lines);
              var t' := After(t, ReopenPeriod(m.org, m.year, m.month));
              && Refusal(t, entry).Some?
              && (Refusal(t', entry).None? <==>
                    Refusal(t.(closed := t.closed - {m}), entry).None?)
              && (Refusal(t', entry).None? ==> Refusal(t, entry) == Some(Conflict))
  {
  }
}
