/**
 * Every loan agrees with its accounts and verifications over exactly those runs in which no write is
 * overtaken: none is made for a loan or an account that has since moved on.
 */
module LendingCoherence {
  import opened Common
  import opened Schedule
  import opened Lending
  import opened LendingInvariant

  predicate IsDisbursed(s: Book, l: nat) {
    LoanAt(s, l).Some? && s.loans[l].value.disbursedAt.Some?
  }

  /** A disbursed account passed verification, and owes nothing once it is closed. */
  ghost predicate AccountComplete(s: Book, i: nat)
    requires i < |s.accounts| && s.accounts[i].Some?
  {
    var a := s.accounts[i].value;
    HasPassed(s, i, a.loanId) && (a.status == AccountStatus.Closed ==> a.outstanding == Some(0))
  }

  /** Disbursed loans are never rejected, and their accounts are complete. */
  ghost predicate Complete(s: Book) {
    && (forall l :: 0 <= l < |s.loans| && IsDisbursed(s, l) ==> s.loans[l].value.status != LoanStatus.Rejected)
    && (forall i :: 0 <= i < |s.accounts| && s.accounts[i].Some? && IsDisbursed(s, s.accounts[i].value.loanId) ==>
          AccountComplete(s, i))
  }

  ghost predicate Coherent(s: Book) {
    Sound(s) && Complete(s)
  }

  /** The guards of a loan's status, as they bind its accounts. */
  lemma CoherentLoan(s: Book, l: nat, i: nat)
    requires Coherent(s) && LoanAt(s, l).Some? && i < |s.accounts| && Belongs(s.accounts[i], l)
    ensures var status, a := s.loans[l].value.status, s.accounts[i].value;
            && status != VerificationFailed && a.status != Defaulted
            && (status == PendingApproval || status == LoanStatus.Approved || status == VerificationInProgress ==>
                  a.status == AccountStatus.Pending && Unscheduled(a))
            && (status == LoanStatus.Rejected ==> a.status == AccountStatus.Closed && Unscheduled(a))
            && (status == LoanStatus.Disbursed || status == LoanStatus.Closed ==> Scheduled(a) && HasPassed(s, i, l))
  {
    assert AccountOk(s.accounts[i].value, s.loans[l].value);
  }

  // ---------------------------------------------------------------- the steps that break it

  predicate MoneyIsOut(s: Book, l: nat) {
    LoanAt(s, l).Some? &&
    (s.loans[l].value.status == LoanStatus.Disbursed || s.loans[l].value.status == LoanStatus.Closed)
  }

  /** A verification call that began before the disbursement records an escalation after it. */
  predicate LateEscalation(s: Book, a: Action) {
    a.FinishStep? && !a.passed && Running(s, a.call) && MoneyIsOut(s, s.calls[a.call].loanId)
  }

  /** A resolution that began before the disbursement rejects the loan after it. */
  predicate LateRejection(s: Book, a: Action) {
    && a.FinishResolveStep? && Resolving(s, a.resolve) && s.resolves[a.resolve].resolution == RejectLoan
    && MoneyIsOut(s, s.resolves[a.resolve].loanId)
  }

  /** A penalty reaches an account that was closed after the sweep selected it. */
  predicate LatePenalty(s: Book, a: Action) {
    && a.PenaltyStep? && a.amount > 0 && EverScheduled(s, a.account)
    && s.accounts[a.account].value.status == AccountStatus.Closed
  }

  predicate MembersPassed(s: Book, l: nat) {
    forall i :: 0 <= i < |s.accounts| && Belongs(s.accounts[i], l) ==> HasPassed(s, i, l)
  }

  /** The step pays out loan `l`. */
  predicate PaysOut(s: Book, a: Action, l: nat) {
    Attempt(s, a) == Some(l) && CanPay(s, l)
  }

  /** A member's pass is gone when the transaction comes that relied on it. */
  predicate LatePayout(s: Book, a: Action) {
    Attempt(s, a).Some? && PaysOut(s, a, Attempt(s, a).value) && !MembersPassed(s, Attempt(s, a).value)
  }

  predicate Overtaken(s: Book, a: Action) {
    LateMark(s, a) || LateEscalation(s, a) || LateRejection(s, a) || LatePenalty(s, a) || LatePayout(s, a)
  }

  lemma PaidAccountComplete(s: Book, l: nat, product: Product, now: int, i: nat)
    requires Complete(s) && CanPay(s, l) && i < |s.accounts| && s.accounts[i].Some?
    requires Belongs(s.accounts[i], l) || IsDisbursed(s, s.accounts[i].value.loanId)
    ensures var t := DisburseLoan(s, l, product, now);
            && t.accounts[i].Some? && t.accounts[i].value.loanId == s.accounts[i].value.loanId
            && (AccountComplete(t, i) <==> !Belongs(s.accounts[i], l) || HasPassed(s, i, l))
  {
    if !Belongs(s.accounts[i], l) {
      assert AccountComplete(s, i);
    }
  }

  lemma PayCompleteIff(s: Book, l: nat, product: Product, now: int)
    requires Coherent(s) && CanPay(s, l)
    ensures Complete(PayOut(s, l, product, now)) <==> MembersPassed(s, l)
  {
    hide Sound, AccountComplete, Activating;
    var t := PayOut(s, l, product, now);
    forall i | 0 <= i < |t.accounts| && t.accounts[i].Some? && IsDisbursed(t, t.accounts[i].value.loanId)
      ensures AccountComplete(t, i) <==> !Belongs(s.accounts[i], l) || HasPassed(s, i, l)
    {
      PaidAccountComplete(s, l, product, now, i);
    }
    if !MembersPassed(s, l) {
      var i :| 0 <= i < |s.accounts| && Belongs(s.accounts[i], l) && !HasPassed(s, i, l);
      PaidAccountComplete(s, l, product, now, i);
      assert t.accounts[i].Some? && t.accounts[i].value.loanId == l && IsDisbursed(t, l);
    }
  }

  lemma FinishPayoutCompleteIff(s: Book, k: nat, now: int)
    requires Coherent(s)
    ensures Complete(FinishPayout(s, k, now)) <==> !LatePayout(s, PayStep(k, now))
  {
    hide PayOut;
    if AboutToPay(s, k) {
      var t := SetPayout(s, k, Over);
      BeforeSound(s, PayStep(k, now));
      VerifiedComplete(s, t);
      if CanPay(t, s.payouts[k].loanId) {
        PayCompleteIff(t, s.payouts[k].loanId, s.payouts[k].stage.product, now);
        assert MembersPassed(t, s.payouts[k].loanId) <==> MembersPassed(s, s.payouts[k].loanId);
      } else {
        assert FinishPayout(s, k, now) == t by { PayNothing(t, s.payouts[k].loanId, s.payouts[k].stage.product, now); }
      }
    }
  }

  lemma PayNothing(s: Book, l: nat, product: Product, now: int)
    requires !CanPay(s, l)
    ensures PayOut(s, l, product, now) == s
  {
  }

  lemma RejectComplete(s: Book, l: nat)
    requires Coherent(s) && !IsDisbursed(s, l)
    ensures Complete(RejectTheLoan(s, l))
  {
  }

  /** No passed verification is lost for an account that needs one. */
  lemma VerifiedComplete(s: Book, t: Book)
    requires Complete(s) && t.loans == s.loans && t.accounts == s.accounts
    requires forall i, l :: IsOn(s, i, l) && IsDisbursed(s, l) && HasPassed(s, i, l) ==> HasPassed(t, i, l)
    ensures Complete(t)
  {
    forall i | 0 <= i < |t.accounts| && t.accounts[i].Some? && IsDisbursed(t, t.accounts[i].value.loanId)
      ensures AccountComplete(t, i)
    {
      assert AccountComplete(s, i) && IsOn(s, i, s.accounts[i].value.loanId);
    }
  }

  lemma MoneyOutIff(s: Book, l: nat)
    requires Coherent(s)
    ensures MoneyIsOut(s, l) <==> IsDisbursed(s, l)
  {
    if LoanAt(s, l).Some? {
      assert LoanOk(s.loans[l].value, RequestOf(s, l));
    }
  }

  lemma FinishComplete(s: Book, k: nat, passed: bool)
    requires Coherent(s) && !LateEscalation(s, FinishStep(k, passed))
    ensures Complete(FinishVerify(s, k, passed))
  {
    if Running(s, k) {
      assert CallOk(s, s.calls[k]);
      MoneyOutIff(s, s.calls[k].loanId);
      VerifiedComplete(s, FinishVerify(s, k, passed));
    }
  }

  lemma FinishResolveComplete(s: Book, k: nat)
    requires Coherent(s) && !LateRejection(s, FinishResolveStep(k))
    ensures Complete(FinishResolve(s, k))
  {
    hide Sound;
    if Resolving(s, k) {
      var r, t := s.resolves[k], EndResolve(s, k);
      EndResolveSound(s, k);
      VerifiedComplete(s, t);
      MoneyOutIff(s, r.loanId);
      if r.resolution == RejectLoan {
        RejectComplete(t, r.loanId);
        VerifiedComplete(RejectTheLoan(t, r.loanId), Resolved(RejectTheLoan(t, r.loanId), r));
      } else {
        VerifiedComplete(t, StartPayout(Resolved(t, r), r.loanId));
      }
    }
  }

  /** Steps that record no verification and disburse no loan. */
  lemma CarryComplete(s: Book, t: Book)
    requires Complete(s) && t.verifications == s.verifications && |t.accounts| == |s.accounts|
    requires forall l :: 0 <= l < |t.loans| && IsDisbursed(t, l) ==>
               IsDisbursed(s, l) && t.loans[l].value.status != LoanStatus.Rejected
    requires forall i :: 0 <= i < |t.accounts| && t.accounts[i].Some? && IsDisbursed(t, t.accounts[i].value.loanId) ==>
               SameMember(s.accounts[i], t.accounts[i])
    requires forall i :: 0 <= i < |t.accounts| && t.accounts[i].Some? && IsDisbursed(t, t.accounts[i].value.loanId) ==>
               t.accounts[i].value.status == AccountStatus.Closed && t.accounts[i] != s.accounts[i] ==>
                 t.accounts[i].value.outstanding == Some(0)
    ensures Complete(t)
  {
    forall i | 0 <= i < |t.accounts| && t.accounts[i].Some? && IsDisbursed(t, t.accounts[i].value.loanId)
      ensures AccountComplete(t, i)
    {
      assert SameMember(s.accounts[i], t.accounts[i]);
      assert AccountComplete(s, i);
    }
  }

  lemma QuietComplete(s: Book, t: Book)
    requires Coherent(s) && StatusOnly(s, t)
    ensures Complete(t)
  {
    forall l | 0 <= l < |t.loans| && IsDisbursed(t, l)
      ensures IsDisbursed(s, l) && t.loans[l].value.status != LoanStatus.Rejected
    {
      assert SameButStatus(s.loans[l], t.loans[l]);
    }
    CarryComplete(s, t);
  }

  lemma DeleteComplete(s: Book, l: nat, actor: StaffId)
    requires Coherent(s)
    ensures Complete(Delete(s, l, actor))
  {
    CarryComplete(s, Delete(s, l, actor));
  }

  lemma RaiseComplete(s: Book, app: Application, initiated: bool)
    requires Coherent(s)
    ensures Complete(Raise(s, app, initiated))
  {
    if CheckRaise(s, app).None? {
      var t, l := Raise(s, app, initiated), |s.loans|;
      assert forall i :: 0 <= i < |s.accounts| ==> t.accounts[i] == s.accounts[i];
      RaiseAcceptedIff(s, app);
      assert forall i :: |s.accounts| <= i < |t.accounts| ==> t.accounts[i] == NewAccounts(l, app.requests)[i - |s.accounts|];
      assert !IsDisbursed(t, l);
      assert forall k :: 0 <= k < l ==> t.loans[k] == s.loans[k];
      forall i | 0 <= i < |t.accounts| && t.accounts[i].Some? && IsDisbursed(t, t.accounts[i].value.loanId)
        ensures AccountComplete(t, i)
      {
        assert i < |s.accounts|;
        assert AccountComplete(s, i);
      }
    }
  }

  lemma EditComplete(s: Book, l: nat, actor: StaffId, changes: Changes)
    requires Coherent(s)
    ensures Complete(Edit(s, l, actor, changes))
  {
    var t := Edit(s, l, actor, changes);
    EditShape(s, l, actor, changes);
    if CheckEdit(s, l, actor, changes).None? {
      assert LoanOk(s.loans[l].value, RequestOf(s, l)) && !IsDisbursed(t, l);
      forall i | 0 <= i < |t.accounts| && t.accounts[i].Some? && IsDisbursed(t, t.accounts[i].value.loanId)
        ensures t.accounts[i] == s.accounts[i]
      {
        assert EditedFrom(s.accounts[i], t.accounts[i]);
      }
      CarryComplete(s, t);
    }
  }

  lemma SetAccountComplete(s: Book, i: nat, a: Account)
    requires Complete(s) && i < |s.accounts| && s.accounts[i].Some? && SameMember(s.accounts[i], Some(a))
    requires IsDisbursed(s, a.loanId) && a.status == AccountStatus.Closed ==> a.outstanding == Some(0)
    ensures Complete(SetAccount(s, i, a))
  {
    CarryComplete(s, SetAccount(s, i, a));
  }

  lemma HandoverComplete(s: Book, i: nat, now: int)
    requires Coherent(s)
    ensures Complete(ConfirmHandover(s, i, now))
  {
    if CheckHandover(s, i).None? {
      SetAccountComplete(s, i, HandedOver(s, i, now));
    }
  }

  lemma RepayComplete(s: Book, i: nat, amount: nat)
    requires Coherent(s)
    ensures Complete(Repay(s, i, amount)) && Complete(Reverse(s, i, amount))
  {
    if EverScheduled(s, i) {
      var a := s.accounts[i].value;
      assert AccountOk(a, s.loans[a.loanId].value) && AccountComplete(s, i);
      SetAccountComplete(s, i, Repaid(a, amount));
      SetAccountComplete(s, i, Reversed(a, amount));
    }
  }

  lemma PenaltyCompleteIff(s: Book, i: nat, amount: nat)
    requires Coherent(s)
    ensures Complete(Penalize(s, i, amount)) <==> !LatePenalty(s, PenaltyStep(i, amount))
  {
    if EverScheduled(s, i) {
      var a := s.accounts[i].value;
      assert AccountOk(a, s.loans[a.loanId].value) && AccountComplete(s, i);
      if LatePenalty(s, PenaltyStep(i, amount)) {
        assert !AccountComplete(Penalize(s, i, amount), i);
      } else {
        SetAccountComplete(s, i, Penalized(a, amount));
      }
    }
  }

  lemma ApprovalStepComplete(s: Book, a: Action)
    requires Coherent(s) && (a.RaiseStep? || a.EditStep? || a.DeleteStep? || a.DeliverRejected?)
    ensures Complete(Next(s, a))
  {
    match a {
      case RaiseStep(app, initiated) => RaiseComplete(s, app, initiated);
      case EditStep(l, actor, changes) => EditComplete(s, l, actor, changes);
      case DeleteStep(l, actor) => DeleteComplete(s, l, actor);
      case DeliverRejected(l) => if RequestOf(s, l) == Some(RequestRejected) { RejectComplete(s, l); }
    }
  }

  lemma CleanStepComplete(s: Book, a: Action)
    requires Coherent(s) && !Overtaken(s, a)
    ensures Complete(Next(s, a))
  {
    if Quiet(a) {
      QuietShape(s, a);
      QuietComplete(s, Next(s, a));
    } else if a.FinishStep? {
      FinishComplete(s, a.call, a.passed);
    } else if a.FinishResolveStep? {
      FinishResolveComplete(s, a.resolve);
    } else if a.PayStep? {
      FinishPayoutCompleteIff(s, a.payout, a.now);
    } else if a.HandoverStep? {
      HandoverComplete(s, a.account, a.now);
    } else if a.RepayStep? || a.ReverseStep? {
      RepayComplete(s, a.account, a.amount);
    } else if a.PenaltyStep? {
      PenaltyCompleteIff(s, a.account, a.amount);
    } else {
      ApprovalStepComplete(s, a);
    }
  }

  lemma LateEscalationIncomplete(s: Book, k: nat)
    requires Coherent(s) && LateEscalation(s, FinishStep(k, false))
    ensures !Complete(FinishVerify(s, k, false))
  {
    var call := s.calls[k];
    assert CallOk(s, call);
    MoneyOutIff(s, call.loanId);
    assert !AccountComplete(FinishVerify(s, k, false), call.stage.accountId);
  }

  lemma LateRejectionIncomplete(s: Book, k: nat)
    requires Coherent(s) && LateRejection(s, FinishResolveStep(k))
    ensures !Complete(FinishResolve(s, k))
  {
    MoneyOutIff(s, s.resolves[k].loanId);
    assert IsDisbursed(FinishResolve(s, k), s.resolves[k].loanId);
  }

  /** From a coherent state, a step leads to a coherent state exactly when it is not an overtaken write. */
  lemma CoherentStepIff(s: Book, a: Action)
    requires Coherent(s)
    ensures Coherent(Next(s, a)) <==> !Overtaken(s, a)
  {
    hide Next, Sound, Complete;
    SoundStepIff(s, a);
    if LateEscalation(s, a) || LateRejection(s, a) || LatePenalty(s, a) || LatePayout(s, a) {
      OvertakenIncomplete(s, a);
    } else if !LateMark(s, a) {
      CleanStepComplete(s, a);
    }
  }

  lemma OvertakenIncomplete(s: Book, a: Action)
    requires Coherent(s) && (LateEscalation(s, a) || LateRejection(s, a) || LatePenalty(s, a) || LatePayout(s, a))
    ensures !Complete(Next(s, a))
  {
    hide Sound, Complete, FinishVerify, FinishResolve, Penalize, FinishPayout;
    if LateEscalation(s, a) {
      LateEscalationIncomplete(s, a.call);
    } else if LateRejection(s, a) {
      LateRejectionIncomplete(s, a.resolve);
    } else if LatePenalty(s, a) {
      PenaltyCompleteIff(s, a.account, a.amount);
    } else {
      FinishPayoutCompleteIff(s, a.payout, a.now);
    }
  }

  /** No step of the run is an overtaken write. */
  ghost predicate Clean(s: Book, actions: seq<Action>) {
    actions != [] ==>
      && Clean(s, actions[..|actions| - 1])
      && !Overtaken(Run(s, actions[..|actions| - 1]), actions[|actions| - 1])
  }

  /** Coherent at the end and at every point on the way. */
  ghost predicate CoherentThroughout(s: Book, actions: seq<Action>) {
    Coherent(Run(s, actions)) && (actions != [] ==> CoherentThroughout(s, actions[..|actions| - 1]))
  }

  /** A run stays coherent at every point exactly when it contains no overtaken write. */
  lemma {:induction false} RunCoherentIff(s: Book, actions: seq<Action>)
    requires Coherent(s)
    ensures CoherentThroughout(s, actions) <==> Clean(s, actions)
  {
    if actions != [] {
      var front := actions[..|actions| - 1];
      RunCoherentIff(s, front);
      if Clean(s, front) {
        assert CoherentThroughout(s, front);
        CoherentStepIff(Run(s, front), actions[|actions| - 1]);
      }
    }
  }

  lemma InitialCoherent(s: Book)
    requires Initial(s)
    ensures Coherent(s)
  {
    InitialSound(s);
  }

  /** From an empty loan book every loan agrees with its accounts, for as long as no write is overtaken. */
  lemma InitialRunCoherentIff(s: Book, actions: seq<Action>)
    requires Initial(s)
    ensures CoherentThroughout(s, actions) <==> Clean(s, actions)
    ensures Clean(s, actions) ==> Coherent(Run(s, actions)) && Timely(s, actions)
  {
    InitialCoherent(s);
    RunCoherentIff(s, actions);
    if Clean(s, actions) {
      CleanIsTimely(s, actions);
    }
  }

  lemma {:induction false} CleanIsTimely(s: Book, actions: seq<Action>)
    requires Clean(s, actions)
    ensures Timely(s, actions)
  {
    if actions != [] {
      CleanIsTimely(s, actions[..|actions| - 1]);
    }
  }

  lemma RejectionSparesDisbursed(s: Book, l: nat, i: nat)
    requires Coherent(s) && !IsDisbursed(s, l)
    requires AccountAt(s, i).Some? && s.accounts[i].value.status == AccountStatus.Active
    ensures AccountAt(RejectTheLoan(s, l), i) == s.accounts[i]
  {
    assert AccountOk(s.accounts[i].value, s.loans[s.accounts[i].value.loanId].value);
  }

  /**
   * What the rejection code takes for granted is that it never reaches an active account. In a coherent
   * state it does so exactly when the resolution is a late one, for an account of its loan.
   */
  lemma RejectionSparesActiveIff(s: Book, a: Action, i: nat)
    requires Coherent(s)
    requires a.DeliverRejected? || (a.FinishResolveStep? && Resolving(s, a.resolve) && s.resolves[a.resolve].resolution == RejectLoan)
    requires AccountAt(s, i).Some? && s.accounts[i].value.status == AccountStatus.Active
    ensures AccountAt(Next(s, a), i) == s.accounts[i]
            <==> !(LateRejection(s, a) && s.accounts[i].value.loanId == s.resolves[a.resolve].loanId)
  {
    hide Coherent, RejectTheLoan, FinishResolve;
    if a.DeliverRejected? {
      if RequestOf(s, a.loan) == Some(RequestRejected) {
        DeliverySparesActive(s, a.loan, i);
      }
    } else {
      ResolveSparesActiveIff(s, a.resolve, i);
    }
  }

  lemma DeliverySparesActive(s: Book, l: nat, i: nat)
    requires Coherent(s) && RequestOf(s, l) == Some(RequestRejected)
    requires AccountAt(s, i).Some? && s.accounts[i].value.status == AccountStatus.Active
    ensures AccountAt(RejectTheLoan(s, l), i) == s.accounts[i]
  {
    if LoanAt(s, l).Some? {
      assert LoanOk(s.loans[l].value, RequestOf(s, l));
    }
    RejectionSparesDisbursed(s, l, i);
  }

  lemma ResolveSparesActiveIff(s: Book, k: nat, i: nat)
    requires Coherent(s) && Resolving(s, k) && s.resolves[k].resolution == RejectLoan
    requires AccountAt(s, i).Some? && s.accounts[i].value.status == AccountStatus.Active
    ensures AccountAt(FinishResolve(s, k), i) == s.accounts[i]
            <==> !(MoneyIsOut(s, s.resolves[k].loanId) && s.accounts[i].value.loanId == s.resolves[k].loanId)
  {
    var l := s.resolves[k].loanId;
    MoneyOutIff(s, l);
    if !IsDisbursed(s, l) {
      RejectionSparesDisbursed(s, l, i);
      assert !IsOn(s, i, l) by {
        assert AccountOk(s.accounts[i].value, s.loans[s.accounts[i].value.loanId].value);
      }
    }
  }
}
