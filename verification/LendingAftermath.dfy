/** After disbursement: the single re-dating of a schedule at a cheque handover, and loan completion. */
module LendingAftermath {
  import opened Common
  import opened Schedule
  import opened Lending
  import opened LendingInvariant
  import opened LendingCoherence
  import opened LendingMoney
  import opened LendingAttempts

  // ---------------------------------------------------------------- the repayment plan of an account

  predicate OnDisbursed(s: Book, i: nat) {
    AccountAt(s, i).Some? && IsDisbursed(s, s.accounts[i].value.loanId)
  }

  /** The same account with the same schedule; balance and status may differ. */
  predicate SamePlan(x: Option<Account>, y: Option<Account>) {
    x.Some? && y.Some? && y.value == x.value.(outstanding := y.value.outstanding, status := y.value.status)
  }

  predicate HandsOver(s: Book, a: Action, i: nat) {
    a.HandoverStep? && a.account == i && CheckHandover(s, i).None?
  }

  lemma PayKeepsPlan(s: Book, l: nat, product: Product, now: int, i: nat)
    requires OnDisbursed(s, i) && (CanPay(s, l) ==> s.accounts[i].value.loanId != l)
    ensures SamePlan(s.accounts[i], AccountAt(PayOut(s, l, product, now), i))
  {
  }

  lemma OfficeKeepsPlan(s: Book, a: Action, i: nat)
    requires Base(s) && OnDisbursed(s, i) && (a.RaiseStep? || a.EditStep? || a.DeleteStep?)
    ensures SamePlan(s.accounts[i], AccountAt(Next(s, a), i))
  {
    assert s.loans[s.accounts[i].value.loanId].value.status != PendingApproval;
    if a.EditStep? {
      EditShape(s, a.loan, a.actor, a.changes);
    }
  }

  lemma AccountStepKeepsPlan(s: Book, a: Action, i: nat)
    requires OnDisbursed(s, i) && !HandsOver(s, a, i)
    requires a.HandoverStep? || a.RepayStep? || a.ReverseStep? || a.PenaltyStep?
    ensures SamePlan(s.accounts[i], AccountAt(Next(s, a), i))
  {
  }

  lemma RejectKeepsPlan(s: Book, l: nat, i: nat)
    requires OnDisbursed(s, i)
    ensures SamePlan(s.accounts[i], AccountAt(RejectTheLoan(s, l), i))
  {
  }

  /** Once its loan is disbursed, only a handover or a second payment changes an account's schedule. */
  lemma StepKeepsPlan(s: Book, a: Action, i: nat)
    requires Base(s) && OnDisbursed(s, i) && !HandsOver(s, a, i) && !Repeats(s, a, s.accounts[i].value.loanId)
    ensures SamePlan(s.accounts[i], AccountAt(Next(s, a), i))
  {
    hide Next;
    if Quiet(a) {
      QuietShape(s, a);
    } else if a.RaiseStep? || a.EditStep? || a.DeleteStep? {
      OfficeKeepsPlan(s, a, i);
    } else if !Deciding(a) {
      AccountStepKeepsPlan(s, a, i);
    } else if Attempt(s, a).Some? {
      AttemptShape(s, a);
      PayKeepsPlan(Before(s, a), Attempt(s, a).value, ProductPaid(s, a), a.now, i);
    } else if Rejecting(s, a).Some? {
      RejectShape(s, a);
      RejectKeepsPlan(s, Rejecting(s, a).value, i);
    } else {
      IdleShape(s, a);
    }
  }

  lemma HandoverShows(s: Book, a: Action, i: nat)
    requires HandsOver(s, a, i)
    ensures AccountAt(Next(s, a), i).Some? && Next(s, a).accounts[i].value.handedOverAt.Some?
  {
    assert Next(s, a) == ConfirmHandover(s, i, a.now);
  }

  lemma HandoverKeepsLoan(s: Book, a: Action, i: nat)
    requires HandsOver(s, a, i)
    ensures AccountAt(Next(s, a), i).Some? && Next(s, a).accounts[i].value.loanId == s.accounts[i].value.loanId
  {
    assert Next(s, a) == ConfirmHandover(s, i, a.now);
  }

  lemma StepKeepsDisbursed(s: Book, a: Action, i: nat)
    requires Base(s) && OnDisbursed(s, i) && !Repeats(s, a, s.accounts[i].value.loanId)
    ensures OnDisbursed(Next(s, a), i) && Next(s, a).accounts[i].value.loanId == s.accounts[i].value.loanId
  {
    hide Next;
    DisbursedStep(s, a, s.accounts[i].value.loanId);
    if HandsOver(s, a, i) {
      HandoverKeepsLoan(s, a, i);
    } else {
      StepKeepsPlan(s, a, i);
    }
  }

  /** An account is handed over at most once; from then on, unless its loan is paid out again, its schedule is final. */
  lemma {:induction false} HandedOverOnce(s: Book, actions: seq<Action>, i: nat)
    requires Base(s) && OnDisbursed(s, i) && s.accounts[i].value.handedOverAt.Some?
    requires Unrepeated(s, actions, s.accounts[i].value.loanId)
    ensures OnDisbursed(Run(s, actions), i) && SamePlan(s.accounts[i], AccountAt(Run(s, actions), i))
    ensures CheckHandover(Run(s, actions), i).Some?
  {
    hide Next;
    if actions != [] {
      var front := actions[..|actions| - 1];
      HandedOverOnce(s, front, i);
      RunBase(s, front);
      StepKeepsPlan(Run(s, front), actions[|actions| - 1], i);
      StepKeepsDisbursed(Run(s, front), actions[|actions| - 1], i);
    }
  }

  /** Until its handover an account keeps the schedule it was disbursed with, unless its loan is paid out again. */
  lemma {:induction false} PlanUntilHandover(s: Book, actions: seq<Action>, i: nat)
    requires Base(s) && OnDisbursed(s, i) && Unrepeated(s, actions, s.accounts[i].value.loanId)
    requires AccountAt(Run(s, actions), i).Some? ==> Run(s, actions).accounts[i].value.handedOverAt.None?
    ensures OnDisbursed(Run(s, actions), i)
    ensures SamePlan(s.accounts[i], AccountAt(Run(s, actions), i))
  {
    hide Next;
    if actions != [] {
      var front, a := actions[..|actions| - 1], actions[|actions| - 1];
      DisbursedThroughout(s, front, i);
      RunBase(s, front);
      var u := Run(s, front);
      if HandsOver(u, a, i) {
        HandoverShows(u, a, i);
      }
      StepKeepsPlan(u, a, i);
      StepKeepsDisbursed(u, a, i);
      PlanUntilHandover(s, front, i);
    }
  }

  lemma {:induction false} DisbursedThroughout(s: Book, actions: seq<Action>, i: nat)
    requires Base(s) && OnDisbursed(s, i) && Unrepeated(s, actions, s.accounts[i].value.loanId)
    ensures OnDisbursed(Run(s, actions), i) && Run(s, actions).accounts[i].value.loanId == s.accounts[i].value.loanId
  {
    hide Next;
    if actions != [] {
      var front := actions[..|actions| - 1];
      DisbursedThroughout(s, front, i);
      RunBase(s, front);
      StepKeepsDisbursed(Run(s, front), actions[|actions| - 1], i);
    }
  }

  /** With no attempt to disburse under way none of this can happen: a handed over account is final, in every timely run. */
  lemma HandedOverForGood(s: Book, actions: seq<Action>, i: nat)
    requires Sound(s) && Timely(s, actions) && AccountAt(s, i).Some? && s.accounts[i].value.handedOverAt.Some?
    requires NoneUnderWay(s, s.accounts[i].value.loanId)
    ensures OnDisbursed(Run(s, actions), i) && SamePlan(s.accounts[i], AccountAt(Run(s, actions), i))
    ensures CheckHandover(Run(s, actions), i).Some?
  {
    hide Next, NoneUnderWay;
    assert AccountOk(s.accounts[i].value, s.loans[s.accounts[i].value.loanId].value);
    DisbursedIsUnrepeated(s, actions, s.accounts[i].value.loanId);
    HandedOverOnce(s, actions, i);
  }

  /** And until its handover an account keeps the schedule it was disbursed with. */
  lemma PlanForGood(s: Book, actions: seq<Action>, i: nat)
    requires Sound(s) && Timely(s, actions) && OnDisbursed(s, i) && NoneUnderWay(s, s.accounts[i].value.loanId)
    requires AccountAt(Run(s, actions), i).Some? ==> Run(s, actions).accounts[i].value.handedOverAt.None?
    ensures SamePlan(s.accounts[i], AccountAt(Run(s, actions), i))
  {
    hide Next, NoneUnderWay, StatesOk;
    DisbursedIsUnrepeated(s, actions, s.accounts[i].value.loanId);
    PlanUntilHandover(s, actions, i);
  }

  // ---------------------------------------------------------------- cheque handover

  /** A handover moves due dates and nothing else: no amount, balance or status, and no other document. */
  lemma HandoverMovesDatesOnly(s: Book, i: nat, now: int)
    requires Sound(s) && CheckHandover(s, i).None?
    ensures var t, a := ConfirmHandover(s, i, now), s.accounts[i].value;
            var b := HandedOver(s, i, now);
            && t == SetAccount(s, i, b)
            && b == a.(handedOverAt := Some(now), schedule := b.schedule)
            && Telescopes(b.schedule, a.principal)
            && Sum(EntryDue(), b.schedule) == Sum(EntryDue(), a.schedule)
            && Sum(EntryInterest(), b.schedule) == Sum(EntryInterest(), a.schedule)
            && CheckHandover(t, i) == Some(AlreadyHandedOver)
  {
    var a := s.accounts[i].value;
    var loan := s.loans[a.loanId].value;
    assert AccountOk(a, loan);
    ReanchorKeepsAmounts(a.schedule, a.principal,
                         Terms(now, s.products[loan.productId].repaymentPeriodDays, loan.tenureDays));
  }

  /** Account `i` holds `schedule`, on loan `l`, whose terms and money are those of `loan`. */
  predicate Planned(t: Book, l: nat, i: nat, loan: Loan, schedule: seq<ScheduleEntry>) {
    && OnDisbursed(t, i) && t.accounts[i].value.loanId == l && t.accounts[i].value.schedule == schedule
    && SameMoney(Some(loan), LoanAt(t, l))
  }

  lemma DisbursedPlan(s: Book, l: nat, product: Product, disbursed: int, i: nat)
    requires CanPay(s, l) && i < |s.accounts| && Belongs(s.accounts[i], l)
    ensures var loan := s.loans[l].value;
            Planned(PayOut(s, l, product, disbursed), l, i, loan.(disbursedAt := Some(disbursed)),
                    BuildSchedule(product, s.accounts[i].value.principal, loan.tenureDays, disbursed))
  {
  }

  /** What a run leaves of a disbursement until the handover: the account's schedule and the loan's terms. */
  lemma PlanKept(t: Book, l: nat, actions: seq<Action>, i: nat, loan: Loan, schedule: seq<ScheduleEntry>)
    requires Base(t) && Unrepeated(t, actions, l) && Planned(t, l, i, loan, schedule)
    requires AccountAt(Run(t, actions), i).Some? ==> Run(t, actions).accounts[i].value.handedOverAt.None?
    ensures Planned(Run(t, actions), l, i, loan, schedule)
  {
    PlanUntilHandover(t, actions, i);
    DisbursedOnce(t, actions, l);
  }

  /**
   * A handover on account `i` gives the schedule built fresh on that day, under the product as it was at
   * disbursement, if and only if the repayment period is still the same or there is a single instalment.
   */
  ghost predicate FreshIffPeriodKept(u: Book, i: nat, handover: int, loan: Loan, product: Product, principal: nat)
    requires CheckHandover(u, i).None?
  {
    && loan.productId in u.products
    && (HandedOver(u, i, handover).schedule == BuildSchedule(product, principal, loan.tenureDays, handover)
        <==> || u.products[loan.productId].repaymentPeriodDays == product.repaymentPeriodDays
             || InstallmentCount(loan.tenureDays, product.repaymentPeriodDays) == 1)
  }

  lemma PlannedHandover(u: Book, l: nat, i: nat, loan: Loan, product: Product, principal: nat, disbursed: int, handover: int)
    requires Planned(u, l, i, loan, BuildSchedule(product, principal, loan.tenureDays, disbursed))
    requires CheckHandover(u, i).None?
    ensures FreshIffPeriodKept(u, i, handover, loan, product, principal)
  {
    assert u.accounts[i].value.schedule != [];
    HandoverIsFreshScheduleIff(product, principal, loan.tenureDays, disbursed, handover,
                               u.products[loan.productId].repaymentPeriodDays);
  }

  lemma RunThenHandover(t: Book, l: nat, actions: seq<Action>, i: nat, loan: Loan, product: Product, principal: nat,
                        disbursed: int, handover: int)
    requires Base(t) && Unrepeated(t, actions, l) && Planned(t, l, i, loan, BuildSchedule(product, principal, loan.tenureDays, disbursed))
    ensures CheckHandover(Run(t, actions), i).None? ==>
              FreshIffPeriodKept(Run(t, actions), i, handover, loan, product, principal)
  {
    if CheckHandover(Run(t, actions), i).None? {
      PlanKept(t, l, actions, i, loan, BuildSchedule(product, principal, loan.tenureDays, disbursed));
      PlannedHandover(Run(t, actions), l, i, loan, product, principal, disbursed, handover);
    }
  }

  /**
   * Whatever happens between a disbursement and a handover, the handover dates the schedule exactly as one
   * built fresh on that day would be, if and only if the product's repayment period is by then still the
   * same or there is a single instalment.
   */
  lemma HandoverDatesFreshIff(s: Book, l: nat, product: Product, disbursed: int, actions: seq<Action>, i: nat, handover: int)
    requires Base(s) && CanPay(s, l) && i < |s.accounts| && Belongs(s.accounts[i], l)
    requires Unrepeated(PayOut(s, l, product, disbursed), actions, l)
    ensures var u := Run(PayOut(s, l, product, disbursed), actions);
            CheckHandover(u, i).None? ==>
              FreshIffPeriodKept(u, i, handover, s.loans[l].value.(disbursedAt := Some(disbursed)),
                                 product, s.accounts[i].value.principal)
  {
    var loan := s.loans[l].value;
    PayBase(s, l, product, disbursed);
    DisbursedPlan(s, l, product, disbursed, i);
    RunThenHandover(PayOut(s, l, product, disbursed), l, actions, i, loan.(disbursedAt := Some(disbursed)),
                    product, s.accounts[i].value.principal, disbursed, handover);
  }

  /**
   * The same from the disbursement itself: if no other attempt for the loan is under way when its transaction
   * runs, then whatever timely run follows, the handover gives the schedule built fresh on that day if and
   * only if the period is unchanged or there is one instalment.
   */
  lemma LoneDisbursementDatesFreshIff(s: Book, a: Action, l: nat, actions: seq<Action>, i: nat, handover: int)
    requires Sound(s) && AloneOn(s, l) && PaysOut(s, a, l) && i < |s.accounts| && Belongs(s.accounts[i], l)
    requires Timely(Next(s, a), actions)
    ensures var u := Run(Next(s, a), actions);
            CheckHandover(u, i).None? ==>
              FreshIffPeriodKept(u, i, handover, s.loans[l].value.(disbursedAt := Some(a.now)),
                                 ProductPaid(s, a), s.accounts[i].value.principal)
  {
    hide Next, Sound, AloneOn, PayOut, FreshIffPeriodKept;
    var b := Before(s, a);
    AttemptShape(s, a);
    BeforeSound(s, a);
    SoundIsBase(b);
    LoneDisbursement(s, a, l);
    DisbursedIsUnrepeated(Next(s, a), actions, l);
    HandoverDatesFreshIff(b, l, ProductPaid(s, a), a.now, actions, i, handover);
  }

  /** A transaction run by the only attempt under way leaves none, and a sound state. */
  lemma LoneDisbursement(s: Book, a: Action, l: nat)
    requires Sound(s) && AloneOn(s, l) && PaysOut(s, a, l)
    ensures Sound(Next(s, a)) && IsDisbursed(Next(s, a), l) && NoneUnderWay(Next(s, a), l)
  {
    hide Next, Sound;
    NextSound(s, a);
    SoundIsBase(s);
    AloneStep(s, a, l);
    BecomesDisbursedIffPaid(s, a, l);
  }

  // ---------------------------------------------------------------- completion

  /** The loan has accounts, and every one of them is CLOSED. */
  ghost predicate AllClosed(s: Book, l: nat) {
    && (exists i: nat :: IsOn(s, i, l))
    && (forall i: nat :: IsOn(s, i, l) ==> s.accounts[i].value.status == AccountStatus.Closed)
  }

  /** A disbursed loan counts as completed exactly when it has accounts and all are closed; recomputing again changes nothing. */
  lemma SyncDecides(s: Book, l: nat)
    requires LoanAt(s, l).Some?
    requires s.loans[l].value.status == LoanStatus.Disbursed || s.loans[l].value.status == LoanStatus.Closed
    ensures var t := SyncCompletion(s, l);
            && t == s.(loans := s.loans[l := Some(s.loans[l].value.(
                 status := if AllClosed(s, l) then LoanStatus.Closed else LoanStatus.Disbursed))])
            && SyncCompletion(t, l) == t
  {
    assert AllSettled(s, l) <==> AllClosed(s, l) by {
      if AllSettled(s, l) {
        var i :| 0 <= i < |s.accounts| && Belongs(s.accounts[i], l);
        assert IsOn(s, i, l);
        assert forall j: nat :: IsOn(s, j, l) ==> Belongs(s.accounts[j], l);
      }
      if AllClosed(s, l) {
        var i: nat :| IsOn(s, i, l);
        assert Belongs(s.accounts[i], l);
        assert forall j: nat :: j < |s.accounts| && Belongs(s.accounts[j], l) ==> IsOn(s, j, l);
      }
    }
    assert s.loans[l := s.loans[l]] == s.loans;
    assert s.loans[l].value.(status := s.loans[l].value.status) == s.loans[l].value;
  }

  /** In a coherent state a loan found completed owes nothing. */
  lemma CompletedOwesNothing(s: Book, l: nat, i: nat)
    requires Coherent(s) && IsDisbursed(s, l) && i < |s.accounts| && Belongs(s.accounts[i], l)
    requires SyncCompletion(s, l).loans[l].value.status == LoanStatus.Closed
    ensures s.accounts[i].value.outstanding == Some(0)
  {
    SyncDecides(s, l);
    assert IsOn(s, i, l);
    assert AccountComplete(s, i);
  }
}
