/** Double-entry lines and the one check every journal entry passes. */
module JournalBalance {
  import opened Common

  type AccountId = nat

  datatype Line = Line(accountId: AccountId, debitKobo: Option<int>, creditKobo: Option<int>)

  datatype BalanceError =
    | NoLines
    | NotExactlyOneSide(accountId: AccountId)
    | Unbalanced(totalDebit: int, totalCredit: int)

  function Debit(): Line -> int { (l: Line) => l.debitKobo.GetOr(0) }
  function Credit(): Line -> int { (l: Line) => l.creditKobo.GetOr(0) }

  predicate OneSided(line: Line) {
    line.debitKobo.Some? != line.creditKobo.Some?
  }

  /** What the bookkeeping promises of an entry: some lines, each one-sided, equal totals. */
  predicate Balanced(lines: seq<Line>) {
    && lines != []
    && (forall i :: 0 <= i < |lines| ==> OneSided(lines[i]))
    && Sum(Debit(), lines) == Sum(Credit(), lines)
  }

  /** The first line, if any, that sets both sides or neither. */
  ghost predicate FirstBadLine(lines: seq<Line>, i: int) {
    && 0 <= i < |lines|
    && !OneSided(lines[i])
    && forall j :: 0 <= j < i ==> OneSided(lines[j])
  }

  /** Accepts exactly the balanced line lists; otherwise reports which of the three rules broke first. */
  method AssertJournalLinesBalanced(lines: seq<Line>) returns (error: Option<BalanceError>)
    ensures error.None? <==> Balanced(lines)
    ensures error.None? <==>
              && lines != [] && Sum(Debit(), lines) == Sum(Credit(), lines)
              && forall i :: 0 <= i < |lines| ==> (lines[i].debitKobo == None <==> lines[i].creditKobo != None)
    ensures error == Some(NoLines) <==> lines == []
    ensures error.Some? && error.value.NotExactlyOneSide? <==> exists i :: FirstBadLine(lines, i)
    ensures error.Some? && error.value.NotExactlyOneSide? ==>
              exists i :: FirstBadLine(lines, i) && error.value.accountId == lines[i].accountId
    ensures error.Some? && error.value.Unbalanced? ==>
              error.value == Unbalanced(Sum(Debit(), lines), Sum(Credit(), lines))
  {
    if |lines| == 0 {
      return Some(NoLines);
    }
    var totalDebit, totalCredit := 0, 0;
    for i := 0 to |lines|
      invariant totalDebit == Sum(Debit(), lines[..i]) && totalCredit == Sum(Credit(), lines[..i])
      invariant forall j :: 0 <= j < i ==> OneSided(lines[j])
    {
      var line := lines[i];
      var hasDebit, hasCredit := line.debitKobo.Some?, line.creditKobo.Some?;
      if hasDebit == hasCredit {
        assert FirstBadLine(lines, i);
        return Some(NotExactlyOneSide(line.accountId));
      }
      assert lines[..i + 1] == lines[..i] + [line];
      SumSnoc(Debit(), lines[..i], line);
      SumSnoc(Credit(), lines[..i], line);
      totalDebit := totalDebit + line.debitKobo.GetOr(0);
      totalCredit := totalCredit + line.creditKobo.GetOr(0);
    }
    assert lines[..|lines|] == lines;
    if totalDebit != totalCredit {
      return Some(Unbalanced(totalDebit, totalCredit));
    }
    return None;
  }

  /** The two lines of an automated posting. */
  function Transfer(debitAccount: AccountId, creditAccount: AccountId, amount: int): (lines: seq<Line>) {
    [Line(debitAccount, Some(amount), None), Line(creditAccount, None, Some(amount))]
  }

  lemma TransferBalanced(debitAccount: AccountId, creditAccount: AccountId, amount: int)
    ensures Balanced(Transfer(debitAccount, creditAccount, amount))
    ensures Sum(Debit(), Transfer(debitAccount, creditAccount, amount)) == amount
  {
    var d, c := Line(debitAccount, Some(amount), None), Line(creditAccount, None, Some(amount));
    assert Transfer(debitAccount, creditAccount, amount) == [d] + [c];
    SumSnoc(Debit(), [d], c);
    SumSnoc(Credit(), [d], c);
    SumOne(Debit(), d);
    SumOne(Credit(), d);
  }
}
