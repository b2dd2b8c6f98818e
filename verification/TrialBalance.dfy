/** Reading the ledger: sums per account, the trial balance, and why it always balances. */
module TrialBalance {
  import opened Common
  import opened JournalBalance
  import opened Ledger

  /** The optional as-of date and branch of a read. */
  datatype Filter = Filter(asOf: Option<int>, branch: Option<string>)

  datatype Totals = Totals(debit: int, credit: int)

  datatype Row = Row(accountId: AccountId, code: string, name: string, kind: AccountType, balanceKobo: int)

  datatype Report = Report(rows: seq<Row>, totalDebitKobo: int, totalCreditKobo: int, balanced: bool)

  predicate Visible(e: Entry, filter: Filter) {
    && (filter.asOf.Some? ==> e.date <= filter.asOf.value)
    && (filter.branch.Some? ==> e.branchId == filter.branch.value)
  }

  function OnAccount(side: Line -> int, a: AccountId): Line -> int {
    (l: Line) => if l.accountId == a then side(l) else 0
  }

  /** The visible entry's lines summed, unwound as the aggregation does. */
  function EntryAmount(amount: Line -> int, filter: Filter, e: Entry): int {
    if Visible(e, filter) then Sum(amount, e.lines) else 0
  }

  function InEntry(amount: Line -> int, filter: Filter): Entry -> int {
    (e: Entry) => EntryAmount(amount, filter, e)
  }

  /** One side of one account: the sum over every visible entry of its lines on that account. */
  function SideTotal(side: Line -> int, entries: seq<Entry>, a: AccountId, filter: Filter): int {
    Sum(InEntry(OnAccount(side, a), filter), entries)
  }

  function SumLinesForAccount(entries: seq<Entry>, a: AccountId, filter: Filter): Totals {
    Totals(SideTotal(Debit(), entries, a, filter), SideTotal(Credit(), entries, a, filter))
  }

  predicate NormalDebit(kind: AccountType) {
    kind == Asset || kind == Expense
  }

  function Signed(kind: AccountType, t: Totals): int {
    if NormalDebit(kind) then t.debit - t.credit else t.credit - t.debit
  }

  function RowFor(entries: seq<Entry>, account: Account, filter: Filter): Row {
    Row(account.id, account.code, account.name, account.kind,
        Signed(account.kind, SumLinesForAccount(entries, account.id, filter)))
  }

  function GetAccountBalance(l: Books, a: AccountId, asOf: Option<int>): Option<int> {
    if a >= |l.accounts| then None
    else Some(Signed(l.accounts[a].kind, SumLinesForAccount(l.entries, a, Filter(asOf, None))))
  }

  // ---------------------------------------------------------------- listing by code

  predicate CodeAtMost(a: string, b: string) {
    if a == "" then true
    else if b == "" then false
    else if a[0] != b[0] then a[0] < b[0]
    else CodeAtMost(a[1..], b[1..])
  }

  function ByCode(): (Account, Account) -> bool {
    (a: Account, b: Account) => CodeAtMost(a.code, b.code)
  }

  function AccountSide(side: Line -> int, entries: seq<Entry>, filter: Filter): Account -> int {
    (account: Account) => SideTotal(side, entries, account.id, filter)
  }

  /** One side added up account by account, as the trial balance does. */
  function LedgerTotal(side: Line -> int, l: Books, filter: Filter): int {
    Sum(AccountSide(side, l.entries, filter), l.accounts)
  }

  /** One aggregation per account, accumulated in the order given. */
  method Accumulate(accounts: seq<Account>, entries: seq<Entry>, filter: Filter)
    returns (rows: seq<Row>, totalDebitKobo: int, totalCreditKobo: int)
    ensures totalDebitKobo == Sum(AccountSide(Debit(), entries, filter), accounts)
    ensures totalCreditKobo == Sum(AccountSide(Credit(), entries, filter), accounts)
    ensures |rows| == |accounts|
    ensures forall i :: 0 <= i < |accounts| ==> rows[i] == RowFor(entries, accounts[i], filter)
  {
    rows, totalDebitKobo, totalCreditKobo := [], 0, 0;
    for i := 0 to |accounts|
      invariant totalDebitKobo == Sum(AccountSide(Debit(), entries, filter), accounts[..i])
      invariant totalCreditKobo == Sum(AccountSide(Credit(), entries, filter), accounts[..i])
      invariant |rows| == i
      invariant forall k :: 0 <= k < i ==> rows[k] == RowFor(entries, accounts[k], filter)
    {
      var account := accounts[i];
      var sums := SumLinesForAccount(entries, account.id, filter);
      assert accounts[..i + 1] == accounts[..i] + [account];
      SumSnoc(AccountSide(Debit(), entries, filter), accounts[..i], account);
      SumSnoc(AccountSide(Credit(), entries, filter), accounts[..i], account);
      totalDebitKobo := totalDebitKobo + sums.debit;
      totalCreditKobo := totalCreditKobo + sums.credit;
      rows := rows + [Row(account.id, account.code, account.name, account.kind, Signed(account.kind, sums))];
    }
    assert accounts[..|accounts|] == accounts;
  }

  /** The accounts in code order, with the totals of both sides. */
  method GetTrialBalance(l: Books, filter: Filter) returns (report: Report)
    ensures report.totalDebitKobo == LedgerTotal(Debit(), l, filter)
    ensures report.totalCreditKobo == LedgerTotal(Credit(), l, filter)
    ensures report.balanced <==> report.totalDebitKobo == report.totalCreditKobo
    ensures |report.rows| == |l.accounts| == |Sort(ByCode(), l.accounts)|
    ensures forall i :: 0 <= i < |l.accounts| ==>
              report.rows[i] == RowFor(l.entries, Sort(ByCode(), l.accounts)[i], filter)
  {
    SortMultiset(ByCode(), l.accounts);
    SumSort(AccountSide(Debit(), l.entries, filter), ByCode(), l.accounts);
    SumSort(AccountSide(Credit(), l.entries, filter), ByCode(), l.accounts);
    var rows, totalDebitKobo, totalCreditKobo := Accumulate(Sort(ByCode(), l.accounts), l.entries, filter);
    return Report(rows, totalDebitKobo, totalCreditKobo, totalDebitKobo == totalCreditKobo);
  }

  // ---------------------------------------------------------------- sum exchange

  /** A line's amount if its account exists, zero otherwise. */
  function Known(side: Line -> int, accountCount: nat): Line -> int {
    (l: Line) => if l.accountId < accountCount then side(l) else 0
  }

  function OnLine(side: Line -> int): (Account, Line) -> int {
    (account: Account, l: Line) => if l.accountId == account.id then side(l) else 0
  }

  function OnEntry(side: Line -> int, filter: Filter): (Account, Entry) -> int {
    (account: Account, e: Entry) => EntryAmount(OnAccount(side, account.id), filter, e)
  }

  function EntrySide(side: Line -> int, lines: seq<Line>): Account -> int {
    (account: Account) => Sum(OnAccount(side, account.id), lines)
  }

  lemma LineAcrossAccounts(side: Line -> int, accounts: seq<Account>, l: Line)
    requires forall i :: 0 <= i < |accounts| ==> accounts[i].id == i
    ensures OverFirst(OnLine(side), accounts)(l) == Known(side, |accounts|)(l)
  {
    var f := FixSecond(OnLine(side), l);
    if l.accountId < |accounts| {
      SumPick(f, accounts, l.accountId);
    } else {
      SumZero(f, accounts);
    }
  }

  lemma AccountAcrossLines(side: Line -> int, account: Account, lines: seq<Line>)
    ensures OverSecond(OnLine(side), lines)(account) == EntrySide(side, lines)(account)
  {
    SumEqual(FixFirst(OnLine(side), account), lines, OnAccount(side, account.id), lines);
  }

  /** Within one entry, adding up account by account counts each line with a known account once. */
  lemma AccountsCoverLines(side: Line -> int, accounts: seq<Account>, lines: seq<Line>)
    requires forall i :: 0 <= i < |accounts| ==> accounts[i].id == i
    ensures Sum(EntrySide(side, lines), accounts) == Sum(Known(side, |accounts|), lines)
  {
    var k := OnLine(side);
    forall i | 0 <= i < |accounts|
      ensures OverSecond(k, lines)(accounts[i]) == EntrySide(side, lines)(accounts[i])
    {
      AccountAcrossLines(side, accounts[i], lines);
    }
    SumEqual(OverSecond(k, lines), accounts, EntrySide(side, lines), accounts);
    SumExchange(k, accounts, lines);
    forall j | 0 <= j < |lines|
      ensures OverFirst(k, accounts)(lines[j]) == Known(side, |accounts|)(lines[j])
    {
      LineAcrossAccounts(side, accounts, lines[j]);
    }
    SumEqual(OverFirst(k, accounts), lines, Known(side, |accounts|), lines);
  }

  lemma EntryAcrossAccounts(side: Line -> int, accounts: seq<Account>, e: Entry, filter: Filter)
    requires forall i :: 0 <= i < |accounts| ==> accounts[i].id == i
    ensures OverFirst(OnEntry(side, filter), accounts)(e) == InEntry(Known(side, |accounts|), filter)(e)
  {
    var f := FixSecond(OnEntry(side, filter), e);
    if Visible(e, filter) {
      SumEqual(f, accounts, EntrySide(side, e.lines), accounts);
      AccountsCoverLines(side, accounts, e.lines);
    } else {
      SumZero(f, accounts);
    }
  }

  /** Account-by-account totals are entry-by-entry totals of the lines whose account exists. */
  lemma TotalsByEntry(side: Line -> int, l: Books, filter: Filter)
    requires AccountsSound(l.accounts)
    ensures LedgerTotal(side, l, filter) == Sum(InEntry(Known(side, |l.accounts|), filter), l.entries)
  {
    var k := OnEntry(side, filter);
    forall i | 0 <= i < |l.accounts|
      ensures OverSecond(k, l.entries)(l.accounts[i]) == AccountSide(side, l.entries, filter)(l.accounts[i])
    {
      SumEqual(FixFirst(k, l.accounts[i]), l.entries, InEntry(OnAccount(side, l.accounts[i].id), filter), l.entries);
    }
    SumEqual(OverSecond(k, l.entries), l.accounts, AccountSide(side, l.entries, filter), l.accounts);
    SumExchange(k, l.accounts, l.entries);
    forall j | 0 <= j < |l.entries|
      ensures OverFirst(k, l.accounts)(l.entries[j]) == InEntry(Known(side, |l.accounts|), filter)(l.entries[j])
    {
      EntryAcrossAccounts(side, l.accounts, l.entries[j], filter);
    }
    SumEqual(OverFirst(k, l.accounts), l.entries, InEntry(Known(side, |l.accounts|), filter), l.entries);
  }

  /** What one entry adds to debits over credits, counting only lines whose account exists. */
  function Imbalance(lines: seq<Line>, accountCount: nat): int {
    Sum(Known(Debit(), accountCount), lines) - Sum(Known(Credit(), accountCount), lines)
  }

  function EntryImbalance(accountCount: nat, filter: Filter): Entry -> int {
    (e: Entry) => if Visible(e, filter) then Imbalance(e.lines, accountCount) else 0
  }

  /** The trial balance's two totals differ by exactly the imbalances of the visible entries. */
  lemma TotalsDifferByImbalance(l: Books, filter: Filter)
    requires AccountsSound(l.accounts)
    ensures LedgerTotal(Debit(), l, filter) - LedgerTotal(Credit(), l, filter)
            == Sum(EntryImbalance(|l.accounts|, filter), l.entries)
  {
    var n := |l.accounts|;
    TotalsByEntry(Debit(), l, filter);
    TotalsByEntry(Credit(), l, filter);
    SumMinus(InEntry(Known(Debit(), n), filter), InEntry(Known(Credit(), n), filter),
             EntryImbalance(n, filter), l.entries);
  }

  lemma SoundLinesBalance(lines: seq<Line>, accountCount: nat)
    requires LinesSound(lines, accountCount)
    ensures Imbalance(lines, accountCount) == 0
  {
    SumEqual(Known(Debit(), accountCount), lines, Debit(), lines);
    SumEqual(Known(Credit(), accountCount), lines, Credit(), lines);
  }

  // ---------------------------------------------------------------- main results

  ghost predicate Balances(l: Books, filter: Filter) {
    LedgerTotal(Debit(), l, filter) == LedgerTotal(Credit(), l, filter)
  }

  lemma SoundLedgerBalances(l: Books, filter: Filter)
    requires Sound(l)
    ensures Balances(l, filter)
  {
    TotalsDifferByImbalance(l, filter);
    forall i | 0 <= i < |l.entries|
      ensures EntryImbalance(|l.accounts|, filter)(l.entries[i]) == 0
    {
      assert EntrySound(l.entries[i], |l.accounts|);
      SoundLinesBalance(l.entries[i].lines, |l.accounts|);
    }
    SumZero(EntryImbalance(|l.accounts|, filter), l.entries);
  }

  /** In every ledger a deployment can reach, the trial balance balances for every date and branch. */
  lemma TrialBalanceAlwaysBalances(l: Books, filter: Filter)
    requires Reachable(l)
    ensures Balances(l, filter)
  {
    ReachableSound(l);
    SoundLedgerBalances(l, filter);
  }

  lemma BalancesAfterManualIff(l: Books, p: Proposal, filter: Filter)
    requires Sound(l) && FindRef(l.entries, ManualRef(p.requestId)).None?
    ensures Balances(PostManual(l, p), filter)
            <==> !Visible(ManualEntry(p), filter) || Imbalance(p.lines, |l.accounts|) == 0
  {
    SoundLedgerBalances(l, filter);
    TotalsDifferByImbalance(l, filter);
    TotalsDifferByImbalance(PostManual(l, p), filter);
    SumSnoc(EntryImbalance(|l.accounts|, filter), l.entries, ManualEntry(p));
  }

  /**
   * Approval writes whatever payload it is handed, without the line check. From a sound ledger the trial
   * balance stays balanced for every filter exactly when the payload's lines on existing accounts carry
   * equal debits and credits (or the request was already posted).
   */
  lemma UncheckedManualEntryBalancesIff(l: Books, p: Proposal)
    requires Sound(l)
    ensures (forall filter :: Balances(PostManual(l, p), filter))
            <==> FindRef(l.entries, ManualRef(p.requestId)).Some? || Imbalance(p.lines, |l.accounts|) == 0
  {
    if FindRef(l.entries, ManualRef(p.requestId)).Some? {
      forall filter: Filter
        ensures Balances(l, filter)
      {
        SoundLedgerBalances(l, filter);
      }
    } else {
      var all := Filter(None, None);
      BalancesAfterManualIff(l, p, all);
      forall filter: Filter
        ensures Imbalance(p.lines, |l.accounts|) == 0 ==> Balances(PostManual(l, p), filter)
      {
        BalancesAfterManualIff(l, p, filter);
      }
    }
  }

  /** A one-line payload, which the line check rejects, leaves the books a kobo apart once approved. */
  lemma UnbalancedPayloadExample(l: Books, requestId: string)
    requires Sound(l) && |l.accounts| > 0 && FindRef(l.entries, ManualRef(requestId)).None?
    ensures !Balances(PostManual(l, Proposal(requestId, "b", 0, [Line(0, Some(1), None)], "s")), Filter(None, None))
  {
    var p := Proposal(requestId, "b", 0, [Line(0, Some(1), None)], "s");
    var n, all := |l.accounts|, Filter(None, None);
    SumOne(Known(Debit(), n), p.lines[0]);
    SumOne(Known(Credit(), n), p.lines[0]);
    SoundLedgerBalances(l, all);
    TotalsDifferByImbalance(l, all);
    TotalsDifferByImbalance(PostManual(l, p), all);
    SumSnoc(EntryImbalance(n, all), l.entries, ManualEntry(p));
  }

  function DebitSideBalance(entries: seq<Entry>, filter: Filter): Account -> int {
    (a: Account) => if NormalDebit(a.kind) then RowFor(entries, a, filter).balanceKobo else 0
  }

  function CreditSideBalance(entries: seq<Entry>, filter: Filter): Account -> int {
    (a: Account) => if NormalDebit(a.kind) then 0 else RowFor(entries, a, filter).balanceKobo
  }

  /** The accounting equation: asset and expense rows add up to liability, equity and income rows. */
  lemma AccountingEquation(l: Books, filter: Filter)
    requires Reachable(l)
    ensures Sum(DebitSideBalance(l.entries, filter), l.accounts) == Sum(CreditSideBalance(l.entries, filter), l.accounts)
  {
    TrialBalanceAlwaysBalances(l, filter);
    var net := (a: Account) =>
        AccountSide(Debit(), l.entries, filter)(a) - AccountSide(Credit(), l.entries, filter)(a);
    SumMinus(AccountSide(Debit(), l.entries, filter), AccountSide(Credit(), l.entries, filter), net, l.accounts);
    SumMinus(DebitSideBalance(l.entries, filter), CreditSideBalance(l.entries, filter), net, l.accounts);
  }

  /** A trial balance row without a branch filter is the account's balance read on its own. */
  lemma RowsAgreeWithAccountBalance(l: Books, a: AccountId, asOf: Option<int>)
    requires Reachable(l)
    ensures GetAccountBalance(l, a, asOf)
            == if a < |l.accounts| then Some(RowFor(l.entries, l.accounts[a], Filter(asOf, None)).balanceKobo) else None
  {
    ReachableSound(l);
  }

  // ---------------------------------------------------------------- what a row is

  /** The lines of an entry on one account, whenever and for whatever branch it was posted. */
  function OwnLines(side: Line -> int, a: AccountId): Entry -> int {
    (e: Entry) => Sum(OnAccount(side, a), e.lines)
  }

  /** Debits less credits for assets and expenses, credits less debits for liabilities, equity and income. */
  function NaturalBalance(kind: AccountType, debit: int, credit: int): int {
    match kind
    case Asset | Expense => debit - credit
    case Liability | Equity | Income => credit - debit
  }

  lemma SideCounts(side: Line -> int, entries: seq<Entry>, a: AccountId, asOf: Option<int>, branch: Option<string>)
    ensures SideTotal(side, entries, a, Filter(asOf, branch))
            == Sum(OwnLines(side, a),
                   Common.Filter((e: Entry) => (asOf.Some? ==> e.date <= asOf.value) && (branch.Some? ==> e.branchId == branch.value), entries))
  {
    SumFiltered((e: Entry) => (asOf.Some? ==> e.date <= asOf.value) && (branch.Some? ==> e.branchId == branch.value),
                InEntry(OnAccount(side, a), Filter(asOf, branch)), OwnLines(side, a), entries);
  }

  /**
   * A row is the account with the signed sum of its lines in exactly the entries dated the as-of date or
   * earlier, if there is one, and in the branch asked for, if there is one.
   */
  lemma RowCounts(entries: seq<Entry>, account: Account, asOf: Option<int>, branch: Option<string>)
    ensures var counted := Common.Filter((e: Entry) => (asOf.Some? ==> e.date <= asOf.value) && (branch.Some? ==> e.branchId == branch.value), entries);
            RowFor(entries, account, Filter(asOf, branch))
            == Row(account.id, account.code, account.name, account.kind,
                   NaturalBalance(account.kind, Sum(OwnLines(Debit(), account.id), counted), Sum(OwnLines(Credit(), account.id), counted)))
  {
    SideCounts(Debit(), entries, account.id, asOf, branch);
    SideCounts(Credit(), entries, account.id, asOf, branch);
  }

  /** The ledger that keeps just the entries dated `day` or earlier. */
  function UpTo(l: Books, day: int): Books {
    l.(entries := Common.Filter((e: Entry) => e.date <= day, l.entries))
  }

  lemma SideUpTo(side: Line -> int, l: Books, a: AccountId, day: int, branch: Option<string>)
    ensures SideTotal(side, l.entries, a, Filter(Some(day), branch)) == SideTotal(side, UpTo(l, day).entries, a, Filter(None, branch))
  {
    SumFiltered((e: Entry) => e.date <= day, InEntry(OnAccount(side, a), Filter(Some(day), branch)),
                InEntry(OnAccount(side, a), Filter(None, branch)), l.entries);
  }

  /** The report as of a day is the undated report of the ledger as it stood on that day. */
  lemma {:induction false} AsOfIsPast(l: Books, day: int, branch: Option<string>)
    ensures forall i :: 0 <= i < |l.accounts| ==>
              RowFor(l.entries, l.accounts[i], Filter(Some(day), branch)) == RowFor(UpTo(l, day).entries, l.accounts[i], Filter(None, branch))
    ensures LedgerTotal(Debit(), l, Filter(Some(day), branch)) == LedgerTotal(Debit(), UpTo(l, day), Filter(None, branch))
    ensures LedgerTotal(Credit(), l, Filter(Some(day), branch)) == LedgerTotal(Credit(), UpTo(l, day), Filter(None, branch))
    ensures forall a: AccountId :: GetAccountBalance(l, a, Some(day)) == GetAccountBalance(UpTo(l, day), a, None)
  {
    forall a: AccountId
      ensures SideTotal(Debit(), l.entries, a, Filter(Some(day), branch)) == SideTotal(Debit(), UpTo(l, day).entries, a, Filter(None, branch))
      ensures SideTotal(Credit(), l.entries, a, Filter(Some(day), branch)) == SideTotal(Credit(), UpTo(l, day).entries, a, Filter(None, branch))
      ensures SideTotal(Debit(), l.entries, a, Filter(Some(day), None)) == SideTotal(Debit(), UpTo(l, day).entries, a, Filter(None, None))
      ensures SideTotal(Credit(), l.entries, a, Filter(Some(day), None)) == SideTotal(Credit(), UpTo(l, day).entries, a, Filter(None, None))
    {
      SideUpTo(Debit(), l, a, day, branch);
      SideUpTo(Credit(), l, a, day, branch);
      SideUpTo(Debit(), l, a, day, None);
      SideUpTo(Credit(), l, a, day, None);
    }
    SumEqual(AccountSide(Debit(), l.entries, Filter(Some(day), branch)), l.accounts,
             AccountSide(Debit(), UpTo(l, day).entries, Filter(None, branch)), l.accounts);
    SumEqual(AccountSide(Credit(), l.entries, Filter(Some(day), branch)), l.accounts,
             AccountSide(Credit(), UpTo(l, day).entries, Filter(None, branch)), l.accounts);
  }

  /**
   * A new entry moves a row by its own lines on that account if it is dated the as-of date or earlier and in
   * the branch asked for, and otherwise not at all.
   */
  lemma EntryMovesRow(entries: seq<Entry>, e: Entry, account: Account, filter: Filter)
    ensures RowFor(entries + [e], account, filter).balanceKobo - RowFor(entries, account, filter).balanceKobo
            == if (filter.asOf.Some? && e.date > filter.asOf.value) || (filter.branch.Some? && e.branchId != filter.branch.value) then 0
               else NaturalBalance(account.kind, OwnLines(Debit(), account.id)(e), OwnLines(Credit(), account.id)(e))
  {
    SumSnoc(InEntry(OnAccount(Debit(), account.id), filter), entries, e);
    SumSnoc(InEntry(OnAccount(Credit(), account.id), filter), entries, e);
  }

  function KindBalance(kind: AccountType, entries: seq<Entry>, filter: Filter): Account -> int {
    (a: Account) => if a.kind == kind then RowFor(entries, a, filter).balanceKobo else 0
  }

  /** All rows of one type of account. */
  function KindTotal(kind: AccountType, l: Books, filter: Filter): int {
    Sum(KindBalance(kind, l.entries, filter), l.accounts)
  }

  /** Type by type: assets and expenses equal liabilities, equity and income. */
  lemma AccountingEquationByKind(l: Books, filter: Filter)
    requires Reachable(l)
    ensures KindTotal(Asset, l, filter) + KindTotal(Expense, l, filter)
            == KindTotal(Liability, l, filter) + KindTotal(Equity, l, filter) + KindTotal(Income, l, filter)
  {
    hide RowFor, Reachable;
    AccountingEquation(l, filter);
    var owed := (a: Account) => KindBalance(Liability, l.entries, filter)(a) + KindBalance(Equity, l.entries, filter)(a);
    SumPlus(KindBalance(Asset, l.entries, filter), KindBalance(Expense, l.entries, filter), DebitSideBalance(l.entries, filter), l.accounts);
    SumPlus(KindBalance(Liability, l.entries, filter), KindBalance(Equity, l.entries, filter), owed, l.accounts);
    SumPlus(owed, KindBalance(Income, l.entries, filter), CreditSideBalance(l.entries, filter), l.accounts);
  }

  /** `a` is a prefix of `b`, or smaller at the first character in which they differ. */
  ghost predicate Precedes(a: string, b: string) {
    exists n: nat :: n <= |a| && n <= |b| && a[..n] == b[..n] && (n == |a| || (n < |b| && a[n] < b[n]))
  }

  lemma {:induction false} CodeOrderTotal(a: string, b: string)
    ensures CodeAtMost(a, b) || CodeAtMost(b, a)
    ensures CodeAtMost(a, b) ==> Precedes(a, b)
  {
    if a == "" {
      assert a[..0] == b[..0];
    } else if b != "" {
      if a[0] != b[0] {
        assert a[..0] == b[..0];
      } else {
        CodeOrderTotal(a[1..], b[1..]);
        if CodeAtMost(a, b) {
          var n: nat :| n <= |a[1..]| && n <= |b[1..]| && a[1..][..n] == b[1..][..n] &&
                        (n == |a[1..]| || (n < |b[1..]| && a[1..][n] < b[1..][n]));
          assert a[..n + 1] == [a[0]] + a[1..][..n] && b[..n + 1] == [b[0]] + b[1..][..n];
        }
      }
    }
  }

  lemma {:induction false} CodeOrderTransitive(a: string, b: string, c: string)
    requires CodeAtMost(a, b) && CodeAtMost(b, c)
    ensures CodeAtMost(a, c)
  {
    if a != "" && a[0] == b[0] == c[0] {
      CodeOrderTransitive(a[1..], b[1..], c[1..]);
    }
  }

  /** The listing the rows follow has every account once, in the order of their codes. */
  lemma ListedByCode(accounts: seq<Account>, i: nat, j: nat)
    requires i < j < |accounts|
    ensures var listing := Sort(ByCode(), accounts);
            |listing| == |accounts| && multiset(listing) == multiset(accounts) && Precedes(listing[i].code, listing[j].code)
  {
    var le := ByCode();
    forall x, y
      ensures le(x, y) || le(y, x)
    {
      CodeOrderTotal(x.code, y.code);
    }
    forall x, y, z | le(x, y) && le(y, z)
      ensures le(x, z)
    {
      CodeOrderTransitive(x.code, y.code, z.code);
    }
    SortOrdered(le, accounts);
    SortMultiset(le, accounts);
    var listing := Sort(le, accounts);
    assert le(listing[i], listing[j]);
    CodeOrderTotal(listing[i].code, listing[j].code);
  }

  // ---------------------------------------------------------------- branches

  function InBranch(amount: Line -> int, asOf: Option<int>): (string, Entry) -> int {
    (b: string, e: Entry) => EntryAmount(amount, Filter(asOf, Some(b)), e)
  }

  function BranchSide(side: Line -> int, l: Books, asOf: Option<int>): string -> int {
    (b: string) => LedgerTotal(side, l, Filter(asOf, Some(b)))
  }

  lemma BranchesCoverEntry(amount: Line -> int, asOf: Option<int>, branches: seq<string>, e: Entry)
    requires forall i, j :: 0 <= i < j < |branches| ==> branches[i] != branches[j]
    requires e.branchId in branches
    ensures OverFirst(InBranch(amount, asOf), branches)(e) == InEntry(amount, Filter(asOf, None))(e)
  {
    var i :| 0 <= i < |branches| && branches[i] == e.branchId;
    var f := FixSecond(InBranch(amount, asOf), e);
    SumPick(f, branches, i);
  }

  /** If every entry's branch is listed once, the branches' totals add up to the whole ledger's. */
  lemma BranchTotalsPartition(side: Line -> int, l: Books, asOf: Option<int>, branches: seq<string>)
    requires Reachable(l)
    requires forall i, j :: 0 <= i < j < |branches| ==> branches[i] != branches[j]
    requires forall e :: e in l.entries ==> e.branchId in branches
    ensures Sum(BranchSide(side, l, asOf), branches) == LedgerTotal(side, l, Filter(asOf, None))
  {
    ReachableSound(l);
    var amount := Known(side, |l.accounts|);
    var k := InBranch(amount, asOf);
    forall i | 0 <= i < |branches|
      ensures OverSecond(k, l.entries)(branches[i]) == BranchSide(side, l, asOf)(branches[i])
    {
      TotalsByEntry(side, l, Filter(asOf, Some(branches[i])));
      SumEqual(FixFirst(k, branches[i]), l.entries, InEntry(amount, Filter(asOf, Some(branches[i]))), l.entries);
    }
    SumEqual(OverSecond(k, l.entries), branches, BranchSide(side, l, asOf), branches);
    SumExchange(k, branches, l.entries);
    forall j | 0 <= j < |l.entries|
      ensures OverFirst(k, branches)(l.entries[j]) == InEntry(amount, Filter(asOf, None))(l.entries[j])
    {
      assert l.entries[j] in l.entries;
      BranchesCoverEntry(amount, asOf, branches, l.entries[j]);
    }
    SumEqual(OverFirst(k, branches), l.entries, InEntry(amount, Filter(asOf, None)), l.entries);
    TotalsByEntry(side, l, Filter(asOf, None));
  }

  // ---------------------------------------------------------------- accounts read one after the other

  /** One aggregation of the report: an account, and the entries there were when its lines were summed. */
  datatype View = View(account: Account, entries: seq<Entry>)

  function ReadSide(side: Line -> int, filter: Filter): View -> int {
    (r: View) => SideTotal(side, r.entries, r.account.id, filter)
  }

  /** The part of a read that comes from entries beyond the first `known`. */
  function LateSide(side: Line -> int, filter: Filter, known: nat): View -> int {
    (r: View) => if known <= |r.entries| then SideTotal(side, r.entries[known..], r.account.id, filter) else 0
  }

  /** What entries added before the account's own read contribute to debits over credits. */
  function LateNet(filter: Filter, known: nat): View -> int {
    (r: View) => LateSide(Debit(), filter, known)(r) - LateSide(Credit(), filter, known)(r)
  }

  /** Reads of the listed accounts, none before the ledger held `entries`. */
  ghost predicate ViewsOf(views: seq<View>, listing: seq<Account>, entries: seq<Entry>) {
    && |views| == |listing|
    && forall i :: 0 <= i < |views| ==> views[i].account == listing[i] && entries <= views[i].entries
  }

  lemma ReadSplits(side: Line -> int, filter: Filter, entries: seq<Entry>, r: View)
    requires entries <= r.entries
    ensures ReadSide(side, filter)(r)
            == AccountSide(side, entries, filter)(r.account) + LateSide(side, filter, |entries|)(r)
  {
    assert r.entries == entries + r.entries[|entries|..];
    SumAppend(InEntry(OnAccount(side, r.account.id), filter), entries, r.entries[|entries|..]);
  }

  lemma {:induction false} ReadsSplit(side: Line -> int, filter: Filter, entries: seq<Entry>, views: seq<View>, listing: seq<Account>)
    requires ViewsOf(views, listing, entries)
    ensures Sum(ReadSide(side, filter), views)
            == Sum(AccountSide(side, entries, filter), listing) + Sum(LateSide(side, filter, |entries|), views)
  {
    if views != [] {
      ReadsSplit(side, filter, entries, views[..|views| - 1], listing[..|listing| - 1]);
      ReadSplits(side, filter, entries, views[|views| - 1]);
    }
  }

  /**
   * Read account by account while entries are posted, the two totals of a sound ledger differ by exactly the
   * lines of the entries added between the listing and the reads of their accounts.
   */
  lemma {:induction false} TornTotalsDiffer(l: Books, filter: Filter, views: seq<View>)
    requires Sound(l) && ViewsOf(views, Sort(ByCode(), l.accounts), l.entries)
    ensures Sum(ReadSide(Debit(), filter), views) - Sum(ReadSide(Credit(), filter), views)
            == Sum(LateNet(filter, |l.entries|), views)
  {
    var listing := Sort(ByCode(), l.accounts);
    ReadsSplit(Debit(), filter, l.entries, views, listing);
    ReadsSplit(Credit(), filter, l.entries, views, listing);
    SumSort(AccountSide(Debit(), l.entries, filter), ByCode(), l.accounts);
    SumSort(AccountSide(Credit(), l.entries, filter), ByCode(), l.accounts);
    SoundLedgerBalances(l, filter);
    SumMinus(LateSide(Debit(), filter, |l.entries|), LateSide(Credit(), filter, |l.entries|),
             LateNet(filter, |l.entries|), views);
  }

  lemma LateNetIs(filter: Filter, known: nat, r: View)
    requires known <= |r.entries|
    ensures LateNet(filter, known)(r)
            == SideTotal(Debit(), r.entries[known..], r.account.id, filter) - SideTotal(Credit(), r.entries[known..], r.account.id, filter)
  {
    assert LateSide(Debit(), filter, known)(r) == SideTotal(Debit(), r.entries[known..], r.account.id, filter);
    assert LateSide(Credit(), filter, known)(r) == SideTotal(Credit(), r.entries[known..], r.account.id, filter);
  }

  lemma NothingLate(side: Line -> int, filter: Filter, late: seq<Entry>, a: AccountId)
    requires late == []
    ensures SideTotal(side, late, a, filter) == 0
  {
  }

  /** If nothing is posted meanwhile, the report is that of the ledger as it was listed. */
  lemma {:induction false} QuietViews(l: Books, filter: Filter, views: seq<View>)
    requires Sound(l) && ViewsOf(views, Sort(ByCode(), l.accounts), l.entries)
    requires forall i :: 0 <= i < |views| ==> views[i].entries == l.entries
    ensures Sum(ReadSide(Debit(), filter), views) == LedgerTotal(Debit(), l, filter)
    ensures Sum(LateNet(filter, |l.entries|), views) == 0
  {
    var listing := Sort(ByCode(), l.accounts);
    SumEqual(ReadSide(Debit(), filter), views, AccountSide(Debit(), l.entries, filter), listing);
    SumSort(AccountSide(Debit(), l.entries, filter), ByCode(), l.accounts);
    forall i | 0 <= i < |views|
      ensures LateNet(filter, |l.entries|)(views[i]) == 0
    {
      LateNetIs(filter, |l.entries|, views[i]);
      NothingLate(Debit(), filter, views[i].entries[|l.entries|..], views[i].account.id);
      NothingLate(Credit(), filter, views[i].entries[|l.entries|..], views[i].account.id);
    }
    SumZero(LateNet(filter, |l.entries|), views);
  }

  /** `e` is posted after the first `cut` accounts are read and before the others. */
  function OnePosted(l: Books, e: Entry, cut: nat): seq<View> {
    var listing := Sort(ByCode(), l.accounts);
    seq(|listing|, i requires 0 <= i < |listing| => View(listing[i], if i < cut then l.entries else l.entries + [e]))
  }

  /** Debits over credits of `e` on one account. */
  function NetOf(filter: Filter, e: Entry): Account -> int {
    (a: Account) => EntryAmount(OnAccount(Debit(), a.id), filter, e) - EntryAmount(OnAccount(Credit(), a.id), filter, e)
  }

  lemma {:induction false} LateNetOne(l: Books, filter: Filter, e: Entry, r: View)
    requires r.entries == l.entries || r.entries == l.entries + [e]
    ensures LateNet(filter, |l.entries|)(r) == if r.entries == l.entries then 0 else NetOf(filter, e)(r.account)
  {
    var late := r.entries[|l.entries|..];
    LateNetIs(filter, |l.entries|, r);
    if r.entries == l.entries {
      NothingLate(Debit(), filter, late, r.account.id);
      NothingLate(Credit(), filter, late, r.account.id);
    } else {
      assert late == [e];
      SumOne(InEntry(OnAccount(Debit(), r.account.id), filter), e);
      SumOne(InEntry(OnAccount(Credit(), r.account.id), filter), e);
    }
  }

  /**
   * One posting in the middle of the report: it comes out unbalanced unless the lines of that posting on the
   * accounts read afterwards cancel out.
   */
  lemma {:induction false} PostingDuringReportBalancesIff(l: Books, filter: Filter, e: Entry, cut: nat)
    requires Sound(l) && cut <= |Sort(ByCode(), l.accounts)|
    ensures var views := OnePosted(l, e, cut);
            Sum(ReadSide(Debit(), filter), views) == Sum(ReadSide(Credit(), filter), views)
            <==> Sum(NetOf(filter, e), Sort(ByCode(), l.accounts)[cut..]) == 0
  {
    hide Sound, Sort, LateNet, NetOf, ReadSide;
    var listing, views, f := Sort(ByCode(), l.accounts), OnePosted(l, e, cut), LateNet(filter, |l.entries|);
    TornTotalsDiffer(l, filter, views);
    forall i | 0 <= i < |views|
      ensures f(views[i]) == if i < cut then 0 else NetOf(filter, e)(listing[i])
    {
      EntryIsLate(l, e, cut, i);
      LateNetOne(l, filter, e, views[i]);
    }
    SumTail(f, views, NetOf(filter, e), listing, cut);
  }

  lemma EntryIsLate(l: Books, e: Entry, cut: nat, i: nat)
    requires i < |OnePosted(l, e, cut)|
    ensures OnePosted(l, e, cut)[i].entries == if i < cut then l.entries else l.entries + [e]
    ensures l.entries != l.entries + [e]
  {
    assert |l.entries + [e]| == |l.entries| + 1;
  }
}
