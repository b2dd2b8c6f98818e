/** Where the money of a loan goes: conservation of branch funds, how often a loan is paid out, and totals that tally. */
module LendingMoney {
  import opened Common
  import opened Schedule
  import opened Lending
  import opened LendingInvariant
  import opened LendingCoherence
  import BranchFunds

  // ---------------------------------------------------------------- conservation of branch funds

  function DisbursedFrom(b: BranchId): Option<Loan> -> int {
    (loan: Option<Loan>) =>
      if loan.Some? && loan.value.branchId == b && loan.value.disbursedAt.Some? then loan.value.cumulative else 0
  }

  /** What branch `b` has ever lent: the cumulative amounts of its disbursed loans. */
  function Lent(s: Book, b: BranchId): int {
    Sum(DisbursedFrom(b), s.loans)
  }

  // ---------------------------------------------------------------- payments along a run

  /** The loan this step pays out. */
  function Pays(s: Book, a: Action): Option<nat> {
    if Attempt(s, a).Some? && PaysOut(s, a, Attempt(s, a).value) then Attempt(s, a) else None
  }

  function LoanAmount(s: Book, l: nat, b: BranchId): int {
    if LoanAt(s, l).Some? && s.loans[l].value.branchId == b then s.loans[l].value.cumulative else 0
  }

  function Payment(s: Book, a: Action, b: BranchId): int {
    match Pays(s, a)
    case Some(l) => LoanAmount(s, l, b)
    case None => 0
  }

  /** All that the run pays out of branch `b`. */
  function Payments(s: Book, actions: seq<Action>, b: BranchId): int {
    if actions == [] then 0
    else
      var front := actions[..|actions| - 1];
      Payments(s, front, b) + Payment(Run(s, front), actions[|actions| - 1], b)
  }

  /** How often the run pays out loan `l`. */
  function PaymentCount(s: Book, actions: seq<Action>, l: nat): nat {
    if actions == [] then 0
    else
      var front := actions[..|actions| - 1];
      PaymentCount(s, front, l) + if Pays(Run(s, front), actions[|actions| - 1]) == Some(l) then 1 else 0
  }

  lemma PaySpends(s: Book, l: nat, product: Product, now: int, b: BranchId)
    ensures BranchFunds.Spent(PayOut(s, l, product, now).funds, b)
            == BranchFunds.Spent(s.funds, b) + if CanPay(s, l) then LoanAmount(s, l, b) else 0
  {
    if CanPay(s, l) {
      BranchFunds.DebitSpends(s.funds, s.loans[l].value.branchId, s.loans[l].value.cumulative, b);
    }
  }

  lemma OtherFundsSame(s: Book, a: Action)
    requires !Quiet(a) && !Deciding(a)
    ensures Next(s, a).funds == s.funds
  {
  }

  lemma FundStepSpends(s: Book, fund: BranchFunds.Action, b: BranchId)
    requires BranchFunds.Sound(s.funds)
    ensures BranchFunds.Spent(Next(s, FundStep(fund)).funds, b) == BranchFunds.Spent(s.funds, b)
  {
    BranchFunds.NextConserves(s.funds, fund, b);
  }

  lemma AttemptSpends(s: Book, a: Action, b: BranchId)
    requires Attempt(s, a).Some?
    ensures BranchFunds.Spent(Next(s, a).funds, b) == BranchFunds.Spent(s.funds, b) + Payment(s, a, b)
  {
    hide Next;
    AttemptShape(s, a);
    PaySpends(Before(s, a), Attempt(s, a).value, ProductPaid(s, a), a.now, b);
  }

  /** Verified money leaves a balance exactly by what the step pays out. */
  lemma StepSpends(s: Book, a: Action, b: BranchId)
    requires Base(s)
    ensures BranchFunds.Spent(Next(s, a).funds, b) == BranchFunds.Spent(s.funds, b) + Payment(s, a, b)
  {
    hide Next, PayOut, CanPay;
    if Quiet(a) {
      QuietShape(s, a);
      if a.FundStep? {
        FundStepSpends(s, a.fund, b);
      }
    } else if !Deciding(a) {
      OtherFundsSame(s, a);
    } else if Attempt(s, a).Some? {
      AttemptSpends(s, a, b);
    } else if Rejecting(s, a).Some? {
      RejectShape(s, a);
    } else {
      IdleShape(s, a);
    }
  }

  lemma {:induction false} RunSpends(s: Book, actions: seq<Action>, b: BranchId)
    requires Base(s)
    ensures BranchFunds.Spent(Run(s, actions).funds, b) == BranchFunds.Spent(s.funds, b) + Payments(s, actions, b)
  {
    if actions != [] {
      RunSpends(s, actions[..|actions| - 1], b);
      RunBase(s, actions[..|actions| - 1]);
      StepSpends(Run(s, actions[..|actions| - 1]), actions[|actions| - 1], b);
    }
  }

  /**
   * After any run whatsoever, a branch's balance is the total of its verified fundings less all that was paid
   * out of it, and it is never negative.
   */
  lemma FundsConserved(s: Book, actions: seq<Action>, b: BranchId)
    requires Initial(s)
    ensures var t := Run(s, actions);
            && BranchFunds.Balance(t.funds, b) == BranchFunds.VerifiedTotal(t.funds, b) - Payments(s, actions, b)
            && BranchFunds.Balance(t.funds, b) >= 0
  {
    hide Next;
    InitialSound(s);
    RunBase(s, actions);
    RunSpends(s, actions, b);
    assert BranchFunds.Spent(s.funds, b) == 0;
  }

  // ---------------------------------------------------------------- payments and disbursed loans

  /** A loan keeps its contribution when only its status changes, or while no money has left. */
  lemma LoanUpdateLends(s: Book, t: Book, l: nat, x: Option<Loan>, b: BranchId)
    requires LoanAt(s, l).Some? && t.loans == s.loans[l := x]
    requires DisbursedFrom(b)(x) == DisbursedFrom(b)(s.loans[l])
    ensures Lent(t, b) == Lent(s, b)
  {
    SumUpdate(DisbursedFrom(b), s.loans, l, x);
  }

  lemma QuietLends(s: Book, t: Book, b: BranchId)
    requires StatusOnly(s, t)
    ensures Lent(t, b) == Lent(s, b)
  {
    forall l | 0 <= l < |s.loans|
      ensures DisbursedFrom(b)(t.loans[l]) == DisbursedFrom(b)(s.loans[l])
    {
      assert SameButStatus(s.loans[l], t.loans[l]);
    }
    SumEqual(DisbursedFrom(b), t.loans, DisbursedFrom(b), s.loans);
  }

  lemma RaiseLends(s: Book, app: Application, initiated: bool, b: BranchId)
    ensures Lent(Raise(s, app, initiated), b) == Lent(s, b)
  {
    if CheckRaise(s, app).None? {
      SumSnoc(DisbursedFrom(b), s.loans, Some(NewLoan(app, app.group.value.branchId)));
    }
  }

  lemma EditLends(s: Book, l: nat, actor: StaffId, changes: Changes, b: BranchId)
    requires Base(s)
    ensures Lent(Edit(s, l, actor, changes), b) == Lent(s, b)
  {
    var t := Edit(s, l, actor, changes);
    EditShape(s, l, actor, changes);
    if CheckEdit(s, l, actor, changes).None? {
      assert s.loans[l].value.disbursedAt.None?;
      assert t.loans == s.loans[l := t.loans[l]];
      LoanUpdateLends(s, t, l, t.loans[l], b);
    }
  }

  lemma DeleteLends(s: Book, l: nat, actor: StaffId, b: BranchId)
    requires Base(s)
    ensures Lent(Delete(s, l, actor), b) == Lent(s, b)
  {
    if CheckRaiser(s, l, actor).None? {
      assert s.loans[l].value.disbursedAt.None?;
      LoanUpdateLends(s, Delete(s, l, actor), l, None, b);
    }
  }

  lemma RejectLends(s: Book, l: nat, b: BranchId)
    ensures Lent(RejectTheLoan(s, l), b) == Lent(s, b)
  {
    if LoanAt(s, l).Some? {
      LoanUpdateLends(s, RejectTheLoan(s, l), l, Some(s.loans[l].value.(status := LoanStatus.Rejected)), b);
    }
  }

  /** What a payment adds to the amounts lent: nothing, if the loan's money had left before. */
  lemma PayLends(s: Book, l: nat, product: Product, now: int, b: BranchId)
    ensures Lent(PayOut(s, l, product, now), b)
            == Lent(s, b) + if CanPay(s, l) && !IsDisbursed(s, l) then LoanAmount(s, l, b) else 0
  {
    if CanPay(s, l) {
      var loan := s.loans[l].value;
      SumUpdate(DisbursedFrom(b), s.loans, l, Some(loan.(status := LoanStatus.Disbursed, disbursedAt := Some(now))));
    }
  }

  /** The step pays out a loan that was disbursed before. */
  predicate Repeats(s: Book, a: Action, l: nat) {
    PaysOut(s, a, l) && IsDisbursed(s, l)
  }

  /** What the step pays out a second time. */
  function Repetition(s: Book, a: Action, b: BranchId): int {
    match Pays(s, a)
    case Some(l) => if IsDisbursed(s, l) then LoanAmount(s, l, b) else 0
    case None => 0
  }

  function Repetitions(s: Book, actions: seq<Action>, b: BranchId): int {
    if actions == [] then 0
    else
      var front := actions[..|actions| - 1];
      Repetitions(s, front, b) + Repetition(Run(s, front), actions[|actions| - 1], b)
  }

  lemma OtherLends(s: Book, a: Action, b: BranchId)
    requires Base(s) && !Quiet(a) && !Deciding(a)
    ensures Lent(Next(s, a), b) == Lent(s, b)
  {
    if a.RaiseStep? {
      RaiseLends(s, a.app, a.initiated, b);
    } else if a.EditStep? {
      EditLends(s, a.loan, a.actor, a.changes, b);
    } else if a.DeleteStep? {
      DeleteLends(s, a.loan, a.actor, b);
    } else {
      assert Next(s, a).loans == s.loans;
    }
  }

  lemma AttemptLends(s: Book, a: Action, b: BranchId)
    requires Attempt(s, a).Some?
    ensures Lent(Next(s, a), b) == Lent(s, b) + Payment(s, a, b) - Repetition(s, a, b)
  {
    hide Next;
    AttemptShape(s, a);
    PayLends(Before(s, a), Attempt(s, a).value, ProductPaid(s, a), a.now, b);
  }

  /** What a step pays out becomes lent, unless it was lent before. */
  lemma StepLends(s: Book, a: Action, b: BranchId)
    requires Base(s)
    ensures Lent(Next(s, a), b) == Lent(s, b) + Payment(s, a, b) - Repetition(s, a, b)
  {
    hide Next, PayOut, CanPay;
    if Quiet(a) {
      QuietShape(s, a);
      QuietLends(s, Next(s, a), b);
    } else if !Deciding(a) {
      OtherLends(s, a, b);
    } else if Attempt(s, a).Some? {
      AttemptLends(s, a, b);
    } else if Rejecting(s, a).Some? {
      RejectShape(s, a);
      RejectLends(s, Rejecting(s, a).value, b);
    } else {
      IdleShape(s, a);
    }
  }

  lemma {:induction false} RunLends(s: Book, actions: seq<Action>, b: BranchId)
    requires Base(s)
    ensures Lent(Run(s, actions), b) == Lent(s, b) + Payments(s, actions, b) - Repetitions(s, actions, b)
  {
    hide Next;
    if actions != [] {
      RunLends(s, actions[..|actions| - 1], b);
      RunBase(s, actions[..|actions| - 1]);
      StepLends(Run(s, actions[..|actions| - 1]), actions[|actions| - 1], b);
    }
  }

  /** No step of the run pays out `l` once it is disbursed. */
  ghost predicate Unrepeated(s: Book, actions: seq<Action>, l: nat) {
    actions != [] ==>
      && Unrepeated(s, actions[..|actions| - 1], l)
      && !Repeats(Run(s, actions[..|actions| - 1]), actions[|actions| - 1], l)
  }

  ghost predicate NeverRepeats(s: Book, actions: seq<Action>) {
    forall l: nat :: Unrepeated(s, actions, l)
  }

  /** In every run: what left a branch are the cumulative amounts of its disbursed loans and what was paid out again. */
  lemma FundsAreLentOrRepeated(s: Book, actions: seq<Action>, b: BranchId)
    requires Initial(s)
    ensures var t := Run(s, actions);
            BranchFunds.Balance(t.funds, b)
            == BranchFunds.VerifiedTotal(t.funds, b) - Lent(t, b) - Repetitions(s, actions, b)
  {
    InitialSound(s);
    FundsConserved(s, actions, b);
    RunLends(s, actions, b);
  }

  lemma {:induction false} NothingRepeated(s: Book, actions: seq<Action>, b: BranchId)
    requires NeverRepeats(s, actions)
    ensures Repetitions(s, actions, b) == 0
  {
    hide Next;
    if actions != [] {
      var front := actions[..|actions| - 1];
      forall l: nat
        ensures Unrepeated(s, front, l)
      {
        assert Unrepeated(s, actions, l);
      }
      NothingRepeated(s, front, b);
      if Pays(Run(s, front), actions[|actions| - 1]).Some? {
        assert Unrepeated(s, actions, Pays(Run(s, front), actions[|actions| - 1]).value);
      }
    }
  }

  /** If nothing is paid out twice, a branch's balance is its verified fundings less its disbursed loans. */
  lemma FundsAreLent(s: Book, actions: seq<Action>, b: BranchId)
    requires Initial(s) && NeverRepeats(s, actions)
    ensures var t := Run(s, actions);
            BranchFunds.Balance(t.funds, b) == BranchFunds.VerifiedTotal(t.funds, b) - Lent(t, b)
  {
    FundsAreLentOrRepeated(s, actions, b);
    NothingRepeated(s, actions, b);
  }

  // ---------------------------------------------------------------- one disbursement

  /** Everything a successful disbursement of `l` does, and nothing else. */
  ghost predicate DisbursedExactly(s: Book, t: Book, l: nat, now: int) {
    && LoanAt(s, l).Some? && |t.accounts| == |s.accounts|
    && t == s.(funds := t.funds, loans := t.loans, accounts := t.accounts)
    && var loan := s.loans[l].value;
       && (forall b :: BranchFunds.Balance(t.funds, b)
                       == BranchFunds.Balance(s.funds, b) - (if b == loan.branchId then loan.cumulative else 0))
       && t.loans == s.loans[l := Some(loan.(status := LoanStatus.Disbursed, disbursedAt := Some(now)))]
       && (forall i :: 0 <= i < |s.accounts| && !Belongs(s.accounts[i], l) ==> t.accounts[i] == s.accounts[i])
       && (forall i :: 0 <= i < |s.accounts| && Belongs(s.accounts[i], l) ==>
             t.accounts[i].Some? && ActivatedExactly(s.accounts[i].value, t.accounts[i].value))
  }

  /** The member owes principal plus interest, which is what the instalments add up to. */
  ghost predicate ActivatedExactly(a: Account, b: Account) {
    && b == a.(schedule := b.schedule, outstanding := b.outstanding, status := AccountStatus.Active)
    && Telescopes(b.schedule, a.principal)
    && Sum(EntryPrincipal(), b.schedule) == a.principal
    && b.outstanding == Some(a.principal + Sum(EntryInterest(), b.schedule))
    && b.outstanding == Some(Sum(EntryDue(), b.schedule))
  }

  lemma ActivationExact(a: Account, product: Product, tenureDays: int, now: int)
    ensures ActivatedExactly(a, Activating(product, tenureDays, now)(a))
  {
    BuiltScheduleSound(product, a.principal, tenureDays, now);
  }

  /** The transaction of a disbursement does all of it or nothing; it needs enough branch funds. */
  lemma DisbursementAllOrNothing(s: Book, l: nat, product: Product, now: int)
    ensures var t := PayOut(s, l, product, now);
            && (!CanPay(s, l) ==> t == s)
            && (CanPay(s, l) ==> DisbursedExactly(s, t, l, now))
  {
    if CanPay(s, l) {
      var loan := s.loans[l].value;
      forall i | 0 <= i < |s.accounts| && Belongs(s.accounts[i], l)
        ensures ActivatedExactly(s.accounts[i].value, Activating(product, loan.tenureDays, now)(s.accounts[i].value))
      {
        ActivationExact(s.accounts[i].value, product, loan.tenureDays, now);
      }
    }
  }

  /**
   * Each member is scheduled on the product the transaction was given, from its own principal, the loan's tenure
   * and the instant of the disbursement; at a flat rate it owes, on top of the principal, a ten-thousandth of
   * principal times rate, rounded to the nearest kobo.
   */
  lemma OutstandingAmount(s: Book, l: nat, product: Product, now: int, i: nat)
    requires CanPay(s, l) && i < |s.accounts| && s.accounts[i].Some? && s.accounts[i].value.loanId == l
    ensures AccountAt(PayOut(s, l, product, now), i).Some?
    ensures var a, b := s.accounts[i].value, PayOut(s, l, product, now).accounts[i].value;
            && b.schedule == BuildSchedule(product, a.principal, s.loans[l].value.tenureDays, now)
            && b.outstanding.Some?
            && (product.interestType.Flat? ==>
                  var interest := b.outstanding.value - a.principal;
                  10000 * interest <= a.principal * product.interestRate + 5000 < 10000 * (interest + 1))
  {
    assert Belongs(s.accounts[i], l);
    if product.interestType.Flat? {
      FlatBuildAmount(product, s.accounts[i].value.principal, s.loans[l].value.tenureDays, now);
    }
  }

  /** A whole attempt with nothing in between. */
  function Attempted(s: Book, l: nat, now: int): Book {
    var k := |s.payouts|;
    FinishPayout(PricePayout(ClearPayout(OpenPayout(StartPayout(s, l), k), k), k), k, now)
  }

  /** What such an attempt needs. */
  predicate CanDisburse(s: Book, l: nat) {
    InVerification(s, l) && AllPassed(s, l) && ProductFor(s, l).Some? && CanPay(s, l)
  }

  /** What an attempt that met nobody else leaves. */
  function CheckAndDisburse(s: Book, l: nat, now: int): Book {
    if CanDisburse(s, l) then DisburseLoan(s, l, ProductFor(s, l).value, now) else s
  }

  lemma AttemptRuns(s: Book, l: nat, now: int)
    ensures Attempted(s, l, now) == CheckAndDisburse(s, l, now).(payouts := s.payouts + [Payout(l, Over)])
  {
    var k := |s.payouts|;
    var started := StartPayout(s, l);
    var looked := OpenPayout(started, k);
    assert AllPassed(looked, l) == AllPassed(s, l);
    var cleared := ClearPayout(looked, k);
    var priced := PricePayout(cleared, k);
    if InVerification(s, l) && AllPassed(s, l) && ProductFor(s, l).Some? {
      assert priced == s.(payouts := s.payouts + [Payout(l, Paying(ProductFor(s, l).value))]);
    } else {
      assert priced == s.(payouts := s.payouts + [Payout(l, Over)]);
    }
  }

  /**
   * Attempts that do not overlap are safe to repeat: the first disburses if the loan is in verification, every
   * member has passed, its product exists and funds suffice; a later one changes no document.
   */
  lemma AttemptsRepeatable(s: Book, l: nat, now: int, again: int)
    ensures var t := Attempted(s, l, now);
            && (CanDisburse(s, l) ==> DisbursedExactly(s, t.(payouts := s.payouts), l, now) && SameDocuments(t, Attempted(t, l, again)))
            && (!CanDisburse(s, l) ==> t.(payouts := s.payouts) == s)
  {
    AttemptRuns(s, l, now);
    AttemptRuns(Attempted(s, l, now), l, again);
    if CanDisburse(s, l) {
      DisbursementAllOrNothing(s, l, ProductFor(s, l).value, now);
    }
  }

  /** The part of a loan that is settled by its disbursement. */
  predicate SameMoney(x: Option<Loan>, y: Option<Loan>) {
    x.Some? && y.Some? && y.value == x.value.(status := y.value.status)
  }

  lemma PayKeepsMoney(s: Book, k: nat, product: Product, now: int, l: nat)
    requires IsDisbursed(s, l) && (k == l ==> !CanPay(s, k))
    ensures SameMoney(LoanAt(s, l), LoanAt(PayOut(s, k, product, now), l))
  {
  }

  lemma RejectKeepsMoney(s: Book, k: nat, l: nat)
    requires IsDisbursed(s, l)
    ensures SameMoney(LoanAt(s, l), LoanAt(RejectTheLoan(s, k), l))
  {
  }

  lemma OtherKeepsMoney(s: Book, a: Action, l: nat)
    requires Base(s) && IsDisbursed(s, l) && !Quiet(a) && !Deciding(a)
    ensures SameMoney(LoanAt(s, l), LoanAt(Next(s, a), l))
  {
    assert s.loans[l].value.status != PendingApproval;
    if a.EditStep? {
      EditShape(s, a.loan, a.actor, a.changes);
    } else if !a.RaiseStep? && !a.DeleteStep? {
      assert Next(s, a).loans == s.loans;
    }
  }

  lemma DisbursedStep(s: Book, a: Action, l: nat)
    requires Base(s) && IsDisbursed(s, l) && !Repeats(s, a, l)
    ensures SameMoney(LoanAt(s, l), LoanAt(Next(s, a), l))
  {
    hide Next;
    if Quiet(a) {
      QuietShape(s, a);
      assert SameButStatus(s.loans[l], Next(s, a).loans[l]);
    } else if !Deciding(a) {
      OtherKeepsMoney(s, a, l);
    } else if Attempt(s, a).Some? {
      AttemptShape(s, a);
      PayKeepsMoney(Before(s, a), Attempt(s, a).value, ProductPaid(s, a), a.now, l);
    } else if Rejecting(s, a).Some? {
      RejectShape(s, a);
      RejectKeepsMoney(s, Rejecting(s, a).value, l);
    } else {
      IdleShape(s, a);
    }
  }

  /** In every run without a repeated payment a disbursed loan is never deleted or edited, and is dated once. */
  lemma {:induction false} DisbursedOnce(s: Book, actions: seq<Action>, l: nat)
    requires Base(s) && Unrepeated(s, actions, l) && IsDisbursed(s, l)
    ensures SameMoney(LoanAt(s, l), LoanAt(Run(s, actions), l))
  {
    hide Next;
    if actions != [] {
      var front := actions[..|actions| - 1];
      RunBase(s, front);
      DisbursedOnce(s, front, l);
      DisbursedStep(Run(s, front), actions[|actions| - 1], l);
    }
  }

  lemma OtherDisbursesNone(s: Book, a: Action, l: nat)
    requires !IsDisbursed(s, l) && !Quiet(a) && !Deciding(a)
    ensures !IsDisbursed(Next(s, a), l)
  {
    if a.EditStep? {
      EditShape(s, a.loan, a.actor, a.changes);
    } else if !a.RaiseStep? && !a.DeleteStep? {
      assert Next(s, a).loans == s.loans;
    }
  }

  lemma PaysOnly(s: Book, k: nat, product: Product, now: int, l: nat)
    ensures IsDisbursed(PayOut(s, k, product, now), l) <==> IsDisbursed(s, l) || (k == l && CanPay(s, k))
    ensures IsDisbursed(s, l) ==> Cumulative(PayOut(s, k, product, now), l) == Cumulative(s, l)
  {
  }

  lemma RejectDisbursesNone(s: Book, k: nat, l: nat)
    ensures IsDisbursed(RejectTheLoan(s, k), l) <==> IsDisbursed(s, l)
  {
  }

  /** Only the step that pays a loan out makes it disbursed. */
  lemma BecomesDisbursedIffPaid(s: Book, a: Action, l: nat)
    requires !IsDisbursed(s, l)
    ensures IsDisbursed(Next(s, a), l) <==> Pays(s, a) == Some(l)
  {
    hide Next, PayOut;
    if Quiet(a) {
      QuietShape(s, a);
      assert l < |s.loans| ==> SameButStatus(s.loans[l], Next(s, a).loans[l]);
    } else if !Deciding(a) {
      OtherDisbursesNone(s, a, l);
    } else if Attempt(s, a).Some? {
      AttemptShape(s, a);
      PaysOnly(Before(s, a), Attempt(s, a).value, ProductPaid(s, a), a.now, l);
    } else if Rejecting(s, a).Some? {
      RejectShape(s, a);
      RejectDisbursesNone(s, Rejecting(s, a).value, l);
    } else {
      IdleShape(s, a);
    }
  }

  /** A disbursed loan stays disbursed, with its amount, even when it is paid out again. */
  lemma StaysDisbursed(s: Book, a: Action, l: nat)
    requires Base(s) && IsDisbursed(s, l)
    ensures IsDisbursed(Next(s, a), l) && Cumulative(Next(s, a), l) == Cumulative(s, l)
  {
    hide Next;
    if Repeats(s, a, l) {
      AttemptShape(s, a);
      PaysOnly(Before(s, a), l, ProductPaid(s, a), a.now, l);
    } else {
      DisbursedStep(s, a, l);
    }
  }

  /** How often the run pays out `l` although it is disbursed. */
  function RepeatCount(s: Book, actions: seq<Action>, l: nat): nat {
    if actions == [] then 0
    else
      var front := actions[..|actions| - 1];
      RepeatCount(s, front, l) + if Repeats(Run(s, front), actions[|actions| - 1], l) then 1 else 0
  }

  lemma {:induction false} UnrepeatedIff(s: Book, actions: seq<Action>, l: nat)
    ensures Unrepeated(s, actions, l) <==> RepeatCount(s, actions, l) == 0
  {
    if actions != [] {
      UnrepeatedIff(s, actions[..|actions| - 1], l);
    }
  }

  function Cumulative(s: Book, l: nat): int {
    if LoanAt(s, l).Some? then s.loans[l].value.cumulative else 0
  }

  /** All that the run pays out for loan `l`: its cumulative amount each time. */
  function PaidFor(s: Book, actions: seq<Action>, l: nat): int {
    if actions == [] then 0
    else
      var front, a := actions[..|actions| - 1], actions[|actions| - 1];
      PaidFor(s, front, l) + if Pays(Run(s, front), a) == Some(l) then Cumulative(Run(s, front), l) else 0
  }

  lemma PaymentKeepsAmount(s: Book, a: Action, l: nat)
    requires Pays(s, a) == Some(l)
    ensures Cumulative(Next(s, a), l) == Cumulative(s, l)
  {
    hide Next;
    AttemptShape(s, a);
  }

  /**
   * In every run whatsoever: a loan is paid out once if it ends disbursed, and once more for each time it is
   * paid out while disbursed already; each time by the same amount.
   */
  lemma {:induction false} PaymentsCounted(s: Book, actions: seq<Action>, l: nat)
    requires Initial(s)
    ensures PaymentCount(s, actions, l) == (if IsDisbursed(Run(s, actions), l) then 1 else 0) + RepeatCount(s, actions, l)
    ensures PaidFor(s, actions, l) == PaymentCount(s, actions, l) * Cumulative(Run(s, actions), l)
  {
    hide Next;
    if actions != [] {
      var front, a := actions[..|actions| - 1], actions[|actions| - 1];
      PaymentsCounted(s, front, l);
      InitialSound(s);
      RunBase(s, front);
      if IsDisbursed(Run(s, front), l) {
        StaysDisbursed(Run(s, front), a, l);
      } else {
        BecomesDisbursedIffPaid(Run(s, front), a, l);
        UnpaidNotRepeated(s, front, l);
        if Pays(Run(s, front), a) == Some(l) {
          PaymentKeepsAmount(Run(s, front), a, l);
        }
      }
    }
  }

  lemma {:induction false} UnpaidNotRepeated(s: Book, actions: seq<Action>, l: nat)
    requires Base(s) && !IsDisbursed(Run(s, actions), l)
    ensures RepeatCount(s, actions, l) == 0
  {
    hide Next;
    if actions != [] {
      var front := actions[..|actions| - 1];
      RunBase(s, front);
      if IsDisbursed(Run(s, front), l) {
        StaysDisbursed(Run(s, front), actions[|actions| - 1], l);
      }
      UnpaidNotRepeated(s, front, l);
    }
  }

  /** A loan is paid out exactly once if it ends disbursed, and otherwise never, if and only if no payment repeats. */
  lemma PaidOnceIff(s: Book, actions: seq<Action>, l: nat)
    requires Initial(s)
    ensures PaymentCount(s, actions, l) == (if IsDisbursed(Run(s, actions), l) then 1 else 0) <==> Unrepeated(s, actions, l)
    ensures Unrepeated(s, actions, l) ==>
              PaidFor(s, actions, l) == if IsDisbursed(Run(s, actions), l) then Cumulative(Run(s, actions), l) else 0
  {
    hide Next, Run, PaidFor, PaymentCount, RepeatCount, Unrepeated;
    PaymentsCounted(s, actions, l);
    UnrepeatedIff(s, actions, l);
  }

  // ---------------------------------------------------------------- the cumulative amount

  /** A loan's cumulative amount is the total of its members' principals. */
  predicate Tallies(s: Book, l: nat) {
    LoanAt(s, l).Some? ==> s.loans[l].value.cumulative == Principals(s.accounts, l)
  }

  /** The last request naming `c`. */
  function LastRequest(requests: seq<MemberRequest>, c: CustomerId): Option<MemberRequest> {
    if requests == [] then None
    else if requests[|requests| - 1].customerId == c then Some(requests[|requests| - 1])
    else LastRequest(requests[..|requests| - 1], c)
  }

  /** An account of `l` once `requests` are saved: as the last request for its customer says, if there is one. */
  function AsRequested(a: Option<Account>, l: nat, requests: seq<MemberRequest>): Option<Account> {
    if !Belongs(a, l) then a
    else
      match LastRequest(requests, a.value.customerId)
      case Some(r) => if r.amount >= 1 then Some(Edited(a.value, r)) else a
      case None => a
  }

  /** The principal a member of `l` would hold if `requests` were saved. */
  function AskedFor(l: nat, requests: seq<MemberRequest>): Option<Account> -> int {
    (a: Option<Account>) => PrincipalOn(l)(AsRequested(a, l, requests))
  }

  lemma OneAccountEach(s: Book, l: nat, i: nat, j: nat)
    requires Base(s) && i < |s.accounts| && j < |s.accounts|
    requires Belongs(s.accounts[i], l) && Belongs(s.accounts[j], l)
    ensures i == j || s.accounts[i].value.customerId != s.accounts[j].value.customerId
  {
  }

  /** No two accounts of a loan belong to one customer, so a request finds its own member. */
  lemma FindMemberExact(s: Book, l: nat, i: nat)
    requires Base(s) && i < |s.accounts| && Belongs(s.accounts[i], l)
    ensures FindMember(s.accounts, l, s.accounts[i].value.customerId) == Some(i)
  {
    var found := FindMember(s.accounts, l, s.accounts[i].value.customerId);
    OneAccountEach(s, l, i, found.value);
  }

  /** The saved edits leave each member's account exactly as the last request for it says. */
  lemma {:induction false} EditedAsRequested(s: Book, l: nat, requests: seq<MemberRequest>, i: nat)
    requires Base(s) && NoEditErrors(s.accounts, l, requests) && i < |s.accounts|
    ensures ApplyEdits(s.accounts, l, requests)[i] == AsRequested(s.accounts[i], l, requests)
  {
    if requests != [] {
      var front, last := requests[..|requests| - 1], requests[|requests| - 1];
      EditedAsRequested(s, l, front, i);
      assert EditError(s.accounts, l, last).None?;
      if Belongs(s.accounts[i], l) {
        FindMemberExact(s, l, i);
      }
    }
  }

  lemma EditedPrincipals(s: Book, l: nat, requests: seq<MemberRequest>)
    requires Base(s) && NoEditErrors(s.accounts, l, requests)
    ensures Principals(ApplyEdits(s.accounts, l, requests), l) == Sum(AskedFor(l, requests), s.accounts)
  {
    forall i | 0 <= i < |s.accounts|
      ensures PrincipalOn(l)(ApplyEdits(s.accounts, l, requests)[i]) == AskedFor(l, requests)(s.accounts[i])
    {
      EditedAsRequested(s, l, requests, i);
    }
    SumEqual(PrincipalOn(l), ApplyEdits(s.accounts, l, requests), AskedFor(l, requests), s.accounts);
  }

  /** An edit that passed its first checks and then met a bad request. */
  predicate FailsMidway(s: Book, l: nat, actor: StaffId, changes: Changes) {
    CheckEdit(s, l, actor, changes).None? && !EditCompletes(s, l, changes)
  }

  /**
   * An edit that completes leaves the cumulative amount equal to the principals, whatever it was before;
   * one that fails midway does so exactly when the requests already saved add up to the old amount.
   */
  lemma EditTalliesIff(s: Book, l: nat, actor: StaffId, changes: Changes)
    requires Base(s) && CheckEdit(s, l, actor, changes).None?
    ensures Tallies(Edit(s, l, actor, changes), l) <==>
            || EditCompletes(s, l, changes)
            || s.loans[l].value.cumulative
               == Sum(AskedFor(l, RequestedEdits(changes)[..SavedEdits(s.accounts, l, RequestedEdits(changes))]), s.accounts)
  {
    var requests := RequestedEdits(changes);
    EditedPrincipals(s, l, requests[..SavedEdits(s.accounts, l, requests)]);
  }

  /** One member's amount is changed, then an unknown customer is named: the first change is kept, the total is stale. */
  lemma FailedEditDrifts(s: Book, l: nat, actor: StaffId, i: nat, amount: Positive, stranger: CustomerId)
    requires Base(s) && CheckRaiser(s, l, actor).None? && Tallies(s, l)
    requires i < |s.accounts| && Belongs(s.accounts[i], l) && amount != s.accounts[i].value.principal
    requires FindMember(s.accounts, l, stranger).None?
    ensures var known := MemberRequest(s.accounts[i].value.customerId, amount, ChequePickup, None);
            var unknown := MemberRequest(stranger, amount, ChequePickup, None);
            !Tallies(Edit(s, l, actor, Changes(None, Some([known, unknown]))), l)
  {
    var known := MemberRequest(s.accounts[i].value.customerId, amount, ChequePickup, None);
    var unknown := MemberRequest(stranger, amount, ChequePickup, None);
    var changes := Changes(None, Some([known, unknown]));
    FindMemberExact(s, l, i);
    assert [known, unknown][..1] == [known];
    assert SavedEdits(s.accounts, l, [known]) == 1 by {
      assert [known][..0] == [];
    }
    assert SavedEdits(s.accounts, l, [known, unknown]) == 1;
    assert ApplyEdits(s.accounts, l, [known]) == s.accounts[i := Some(Edited(s.accounts[i].value, known))] by {
      assert [known][..0] == [];
    }
    SumUpdate(PrincipalOn(l), s.accounts, i, Some(Edited(s.accounts[i].value, known)));
  }

  /** Accounts of other loans do not matter, and neither does anything but a member's principal. */
  lemma TallyCarried(s: Book, t: Book, l: nat)
    requires |t.accounts| == |s.accounts|
    requires LoanAt(t, l).Some? ==> LoanAt(s, l).Some? && t.loans[l].value.cumulative == s.loans[l].value.cumulative
    requires forall i :: 0 <= i < |s.accounts| ==> PrincipalOn(l)(t.accounts[i]) == PrincipalOn(l)(s.accounts[i])
    ensures Tallies(s, l) ==> Tallies(t, l)
  {
    SumEqual(PrincipalOn(l), t.accounts, PrincipalOn(l), s.accounts);
  }

  lemma RaiseTallies(s: Book, app: Application, initiated: bool, l: nat)
    requires Base(s) && Tallies(s, l)
    ensures Tallies(Raise(s, app, initiated), l)
  {
    hide RefsOk, OneAccountPerMember;
    if CheckRaise(s, app).None? {
      RaiseAcceptedIff(s, app);
      var added := NewAccounts(|s.loans|, app.requests);
      SumAppend(PrincipalOn(l), s.accounts, added);
      if l == |s.loans| {
        SumZero(PrincipalOn(l), s.accounts);
        SumEqual(PrincipalOn(l), added, AmountOf(), app.requests);
      } else {
        SumZero(PrincipalOn(l), added);
      }
    }
  }

  lemma EditTallies(s: Book, k: nat, actor: StaffId, changes: Changes, l: nat)
    requires Base(s) && Tallies(s, l)
    requires FailsMidway(s, k, actor, changes) ==> l != k
    ensures Tallies(Edit(s, k, actor, changes), l)
  {
    EditShape(s, k, actor, changes);
    if l != k {
      var t := Edit(s, k, actor, changes);
      forall i | 0 <= i < |s.accounts|
        ensures PrincipalOn(l)(t.accounts[i]) == PrincipalOn(l)(s.accounts[i])
      {
        assert EditedFrom(s.accounts[i], t.accounts[i]);
      }
      TallyCarried(s, t, l);
    } else if CheckEdit(s, k, actor, changes).None? {
      EditTalliesIff(s, l, actor, changes);
    }
  }

  lemma PayTallies(s: Book, k: nat, product: Product, now: int, l: nat)
    requires Tallies(s, l)
    ensures Tallies(PayOut(s, k, product, now), l)
  {
    TallyCarried(s, PayOut(s, k, product, now), l);
  }

  lemma RejectTallies(s: Book, k: nat, l: nat)
    requires Tallies(s, l)
    ensures Tallies(RejectTheLoan(s, k), l)
  {
    TallyCarried(s, RejectTheLoan(s, k), l);
  }

  lemma QuietTallies(s: Book, t: Book, l: nat)
    requires Tallies(s, l) && StatusOnly(s, t)
    ensures Tallies(t, l)
  {
    assert l < |s.loans| ==> SameButStatus(s.loans[l], t.loans[l]);
  }

  lemma SameTallies(s: Book, t: Book, l: nat)
    requires Tallies(s, l) && t.accounts == s.accounts && t.loans == s.loans
    ensures Tallies(t, l)
  {
  }

  lemma AccountStepTallies(s: Book, i: nat, a: Account, l: nat)
    requires Tallies(s, l) && AccountAt(s, i).Some?
    requires a.loanId == s.accounts[i].value.loanId && a.principal == s.accounts[i].value.principal
    ensures Tallies(SetAccount(s, i, a), l)
  {
    TallyCarried(s, SetAccount(s, i, a), l);
  }

  lemma OtherTallies(s: Book, a: Action, l: nat)
    requires Base(s) && Tallies(s, l) && !Quiet(a) && !Deciding(a)
    requires a.EditStep? && FailsMidway(s, a.loan, a.actor, a.changes) ==> l != a.loan
    ensures Tallies(Next(s, a), l)
  {
    match a {
      case RaiseStep(app, initiated) => RaiseTallies(s, app, initiated, l);
      case EditStep(k, actor, changes) => EditTallies(s, k, actor, changes, l);
      case DeleteStep(k, actor) => DeleteTallies(s, k, actor, l);
      case HandoverStep(i, now) => if CheckHandover(s, i).None? { AccountStepTallies(s, i, HandedOver(s, i, now), l); }
      case RepayStep(i, amount) => if EverScheduled(s, i) { AccountStepTallies(s, i, Repaid(s.accounts[i].value, amount), l); }
      case ReverseStep(i, amount) => if EverScheduled(s, i) { AccountStepTallies(s, i, Reversed(s.accounts[i].value, amount), l); }
      case PenaltyStep(i, amount) => if EverScheduled(s, i) { AccountStepTallies(s, i, Penalized(s.accounts[i].value, amount), l); }
    }
  }

  lemma StepTallies(s: Book, a: Action, l: nat)
    requires Base(s) && Tallies(s, l)
    requires a.EditStep? && FailsMidway(s, a.loan, a.actor, a.changes) ==> l != a.loan
    ensures Tallies(Next(s, a), l)
  {
    hide Next;
    if Quiet(a) {
      QuietShape(s, a);
      QuietTallies(s, Next(s, a), l);
    } else if !Deciding(a) {
      OtherTallies(s, a, l);
    } else if Attempt(s, a).Some? {
      AttemptShape(s, a);
      SameTallies(s, Before(s, a), l);
      PayTallies(Before(s, a), Attempt(s, a).value, ProductPaid(s, a), a.now, l);
    } else if Rejecting(s, a).Some? {
      RejectShape(s, a);
      RejectTallies(s, Rejecting(s, a).value, l);
      SameTallies(RejectTheLoan(s, Rejecting(s, a).value), Next(s, a), l);
    } else {
      IdleShape(s, a);
      SameTallies(s, Next(s, a), l);
    }
  }

  lemma DeleteTallies(s: Book, k: nat, actor: StaffId, l: nat)
    requires Tallies(s, l)
    ensures Tallies(Delete(s, k, actor), l)
  {
    if CheckRaiser(s, k, actor).None? && l != k {
      TallyCarried(s, Delete(s, k, actor), l);
    }
  }

  /** Every edit of the run that starts saving accounts also finishes. */
  ghost predicate EditsComplete(s: Book, actions: seq<Action>) {
    actions != [] ==>
      var front, a := actions[..|actions| - 1], actions[|actions| - 1];
      && EditsComplete(s, front)
      && (a.EditStep? ==> !FailsMidway(Run(s, front), a.loan, a.actor, a.changes))
  }

  /** Over any run whose edits finish, every loan's cumulative amount stays the total of its principals. */
  lemma {:induction false} RunTallies(s: Book, actions: seq<Action>, l: nat)
    requires Initial(s) && EditsComplete(s, actions)
    ensures Tallies(Run(s, actions), l)
  {
    if actions != [] {
      var front := actions[..|actions| - 1];
      RunTallies(s, front, l);
      InitialSound(s);
      RunBase(s, front);
      StepTallies(Run(s, front), actions[|actions| - 1], l);
    }
  }
}
