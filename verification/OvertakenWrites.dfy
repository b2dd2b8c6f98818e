/**
 * What overtaken writes lead to, as runs of ordinary calls that start from an empty loan book and are open
 * to every single-member application that can be raised.
 */
module OvertakenWrites {
  import opened Common
  import opened Schedule
  import opened Lending
  import opened LendingInvariant
  import opened LendingMoney
  import BranchFunds

  lemma RunStep(s: Book, front: seq<Action>, a: Action)
    ensures Run(s, front + [a]) == Next(Run(s, front), a)
  {
    assert (front + [a])[..|front + [a]| - 1] == front;
  }

  lemma RunMark(s: Book, front: seq<Action>, k: nat)
    ensures Run(s, front + [MarkStep(k)]) == MarkInProgress(Run(s, front), k)
  {
    RunStep(s, front, MarkStep(k));
  }

  lemma RunFinish(s: Book, front: seq<Action>, k: nat, passed: bool)
    ensures Run(s, front + [FinishStep(k, passed)]) == FinishVerify(Run(s, front), k, passed)
  {
    RunStep(s, front, FinishStep(k, passed));
  }

  lemma RunRetry(s: Book, front: seq<Action>, l: nat)
    ensures Run(s, front + [RetryStep(l)]) == StartPayout(Run(s, front), l)
  {
    RunStep(s, front, RetryStep(l));
  }

  lemma RunOpen(s: Book, front: seq<Action>, k: nat)
    ensures Run(s, front + [OpenStep(k)]) == OpenPayout(Run(s, front), k)
  {
    RunStep(s, front, OpenStep(k));
  }

  lemma RunClear(s: Book, front: seq<Action>, k: nat)
    ensures Run(s, front + [ClearStep(k)]) == ClearPayout(Run(s, front), k)
  {
    RunStep(s, front, ClearStep(k));
  }

  lemma RunPrice(s: Book, front: seq<Action>, k: nat)
    ensures Run(s, front + [PriceStep(k)]) == PricePayout(Run(s, front), k)
  {
    RunStep(s, front, PriceStep(k));
  }

  lemma RunPay(s: Book, front: seq<Action>, k: nat, now: int)
    ensures Run(s, front + [PayStep(k, now)]) == FinishPayout(Run(s, front), k, now)
  {
    RunStep(s, front, PayStep(k, now));
  }

  lemma RunBeginResolve(s: Book, front: seq<Action>, actor: StaffId, note: string)
    ensures Run(s, front + [BeginResolveStep(0, actor, RejectLoan, note)])
            == BeginResolve(Run(s, front), 0, actor, RejectLoan, note)
  {
    RunStep(s, front, BeginResolveStep(0, actor, RejectLoan, note));
  }

  lemma RunFinishResolve(s: Book, front: seq<Action>)
    ensures Run(s, front + [FinishResolveStep(0)]) == FinishResolve(Run(s, front), 0)
  {
    RunStep(s, front, FinishResolveStep(0));
  }

  /** A pass and the attempt it starts, with nothing in between. */
  function Pass(call: nat, payout: nat, now: int): seq<Action> {
    [FinishStep(call, true)] + [OpenStep(payout)] + [ClearStep(payout)] + [PriceStep(payout)] + [PayStep(payout, now)]
  }

  lemma RunPass(s: Book, front: seq<Action>, k: nat, now: int)
    requires Running(Run(s, front), k) && Run(s, front).calls[k].loanId == 0
    ensures var t := Run(s, front);
            Run(s, front + Pass(k, |t.payouts|, now)) == Attempted(RecordOutcome(t, k, true), 0, now)
  {
    hide Next;
    var n := |Run(s, front).payouts|;
    var f1 := front + [FinishStep(k, true)];
    var f2 := f1 + [OpenStep(n)];
    var f3 := f2 + [ClearStep(n)];
    var f4 := f3 + [PriceStep(n)];
    assert front + Pass(k, n, now) == f4 + [PayStep(n, now)];
    RunFinish(s, front, k, true);
    RunOpen(s, f1, n);
    RunClear(s, f2, n);
    RunPrice(s, f3, n);
    RunPay(s, f4, n, now);
  }

  predicate OneMember(app: Application) {
    |app.requests| == 1 && app.group.Some? && app.requests[0].amount >= 1
  }

  /** The only loan of the book, and its only account. */
  predicate Single(s: Book, app: Application, status: LoanStatus) {
    && OneMember(app) && |s.loans| == 1 && s.loans[0].Some? && app.productId in s.products
    && s.loans[0].value.branchId == app.group.value.branchId && s.loans[0].value.productId == app.productId
    && s.loans[0].value.cumulative == app.requests[0].amount && s.loans[0].value.status == status
    && |s.accounts| == 1 && IsOn(s, 0, 0) && s.accounts[0].value.principal == app.requests[0].amount
    && s.accounts[0].value.customerId == app.requests[0].customerId
  }

  function BalanceOf(s: Book, app: Application): int
    requires app.group.Some?
  {
    BranchFunds.Balance(s.funds, app.group.value.branchId)
  }

  // ---------------------------------------------------------------- two calls that saw the loan approved

  function UpToApproval(app: Application): seq<Action> {
    [RaiseStep(app, true)] + [DecideStep(0, true)] + [DeliverApproved(0)]
  }

  lemma RaiseReached(s: Book, app: Application)
    requires Initial(s) && CheckRaise(s, app).None? && |app.requests| == 1
    ensures var t := Next(s, RaiseStep(app, true));
            && Single(t, app, PendingApproval) && t.accounts[0].value.status == AccountStatus.Pending
            && t.requests == map[0 := Undecided] && t.calls == [] && t.resolves == [] && t.payouts == []
            && t.funds == s.funds
  {
    RaiseAcceptedIff(s, app);
    SumOne(AmountOf(), app.requests[0]);
    assert app.requests == [app.requests[0]];
    assert Next(s, RaiseStep(app, true)).accounts == NewAccounts(0, app.requests);
  }

  lemma ApprovalReached(s: Book, app: Application)
    requires Single(s, app, PendingApproval) && s.requests == map[0 := Undecided]
    ensures var t := Next(Next(s, DecideStep(0, true)), DeliverApproved(0));
            && Single(t, app, LoanStatus.Approved) && t.accounts == s.accounts
            && t.calls == s.calls && t.resolves == s.resolves && t.payouts == s.payouts && t.funds == s.funds
  {
    var decided := Next(s, DecideStep(0, true));
    assert decided == s.(requests := map[0 := RequestApproved]);
  }

  /** Approved, its account pending, and nothing else going on. */
  predicate Ready(s: Book, app: Application) {
    Single(s, app, LoanStatus.Approved) && s.accounts[0].value.status == AccountStatus.Pending && s.resolves == [] && s.payouts == []
  }

  lemma ApprovedReached(s: Book, app: Application)
    requires Initial(s) && CheckRaise(s, app).None? && |app.requests| == 1
    ensures var t := Run(s, UpToApproval(app));
            Ready(t, app) && t.calls == [] && t.funds == s.funds
  {
    var first := [RaiseStep(app, true)];
    RaiseReached(s, app);
    RunStep(s, [], RaiseStep(app, true));
    assert [] + first == first;
    ApprovalReached(Run(s, first), app);
    RunStep(s, first, DecideStep(0, true));
    RunStep(s, first + [DecideStep(0, true)], DeliverApproved(0));
  }

  function AboutToMark(app: Application): VerifyCall
    requires OneMember(app)
  {
    VerifyCall(0, app.requests[0].customerId, true, Marking(0))
  }

  /** A call that has made its reads while the loan was approved. */
  lemma CallReached(s: Book, app: Application)
    requires Ready(s, app)
    ensures var t := ReadAccount(BeginVerify(s, 0, app.requests[0].customerId), |s.calls|);
            t == s.(calls := s.calls + [AboutToMark(app)])
  {
    assert FindMember(s.accounts, 0, app.requests[0].customerId) == Some(0);
  }

  function UpToTwoCalls(app: Application): seq<Action>
    requires OneMember(app)
  {
    var begin := BeginStep(0, app.requests[0].customerId);
    UpToApproval(app) + [begin] + [ReadStep(0)] + [begin] + [ReadStep(1)]
  }

  lemma CallIsSteps(s: Book, c: CustomerId, k: nat)
    ensures Next(Next(s, BeginStep(0, c)), ReadStep(k)) == ReadAccount(BeginVerify(s, 0, c), k)
  {
  }

  lemma TwoCallsReached(s: Book, app: Application)
    requires Initial(s) && CheckRaise(s, app).None? && OneMember(app)
    ensures var t := Run(s, UpToTwoCalls(app));
            Ready(t, app) && t.calls == [AboutToMark(app), AboutToMark(app)] && t.funds == s.funds
  {
    var c := app.requests[0].customerId;
    var approved := Run(s, UpToApproval(app));
    ApprovedReached(s, app);
    CallReached(approved, app);
    CallIsSteps(approved, c, 0);
    RunStep(s, UpToApproval(app), BeginStep(0, c));
    RunStep(s, UpToApproval(app) + [BeginStep(0, c)], ReadStep(0));
    var one := approved.(calls := [AboutToMark(app)]);
    CallReached(one, app);
    CallIsSteps(one, c, 1);
    RunStep(s, UpToApproval(app) + [BeginStep(0, c)] + [ReadStep(0)], BeginStep(0, c));
    RunStep(s, UpToApproval(app) + [BeginStep(0, c)] + [ReadStep(0)] + [BeginStep(0, c)], ReadStep(1));
  }

  // ---------------------------------------------------------------- the steps that follow

  lemma MarkReached(s: Book, app: Application, status: LoanStatus, k: nat)
    requires Single(s, app, status) && k < |s.calls| && s.calls[k] == AboutToMark(app)
    ensures var t := MarkInProgress(s, k);
            && Single(t, app, VerificationInProgress) && t.accounts == s.accounts && t.funds == s.funds
            && t.calls == s.calls[k := s.calls[k].(stage := Checking(0))]
            && t.verifications == s.verifications && t.resolves == s.resolves && t.payouts == s.payouts
  {
  }

  lemma ReadyAfterPass(s: Book, app: Application, k: nat)
    requires Single(s, app, VerificationInProgress) && Running(s, k)
    requires s.calls[k] == AboutToMark(app).(stage := Checking(0)) && BalanceOf(s, app) >= app.requests[0].amount
    ensures CanDisburse(RecordOutcome(s, k, true), 0)
  {
    var recorded := RecordOutcome(s, k, true);
    assert Belongs(recorded.accounts[0], 0) && HasPassed(recorded, 0, 0);
  }

  /** A pass pays out the amount, whatever was paid out before. */
  lemma PassPays(s: Book, app: Application, k: nat, now: int)
    requires Single(s, app, VerificationInProgress) && Running(s, k)
    requires s.calls[k] == AboutToMark(app).(stage := Checking(0)) && BalanceOf(s, app) >= app.requests[0].amount
    ensures var t := Attempted(RecordOutcome(s, k, true), 0, now);
            && PaidOut(t, app, BalanceOf(s, app) - app.requests[0].amount)
            && t.calls == s.calls[k := s.calls[k].(stage := Ended)] && t.resolves == s.resolves
            && |t.payouts| == |s.payouts| + 1
  {
    hide Attempted, DisburseLoan, Scheduled;
    var recorded := RecordOutcome(s, k, true);
    ReadyAfterPass(s, app, k);
    AttemptRuns(recorded, 0, now);
    DisbursementAllOrNothing(recorded, 0, ProductFor(recorded, 0).value, now);
    PaidExactly(recorded, CheckAndDisburse(recorded, 0, now), app, VerificationInProgress, now);
  }

  /** Disbursed, the account active and owing principal and interest, and `rest` left on the branch's balance. */
  ghost predicate PaidOut(t: Book, app: Application, rest: int) {
    && Single(t, app, LoanStatus.Disbursed) && BalanceOf(t, app) == rest
    && Scheduled(t.accounts[0].value) && t.accounts[0].value.status == AccountStatus.Active
    && t.accounts[0].value.outstanding
       == Some(app.requests[0].amount + Sum(EntryInterest(), t.accounts[0].value.schedule))
  }

  lemma PaidExactly(s: Book, t: Book, app: Application, status: LoanStatus, now: int)
    requires Single(s, app, status) && DisbursedExactly(s, t, 0, now)
    ensures PaidOut(t, app, BalanceOf(s, app) - app.requests[0].amount)
  {
    assert Belongs(s.accounts[0], 0);
    assert ActivatedExactly(s.accounts[0].value, t.accounts[0].value);
  }

  lemma EscalateReached(s: Book, app: Application, status: LoanStatus, k: nat)
    requires Single(s, app, status) && Running(s, k) && s.calls[k] == AboutToMark(app).(stage := Checking(0))
    ensures var t := FinishVerify(s, k, false);
            && Single(t, app, status) && t.accounts == s.accounts && t.funds == s.funds
            && t.verifications == s.verifications[0 := Verification(0, Escalated, None, None)]
            && t.calls == s.calls[k := s.calls[k].(stage := Ended)] && t.resolves == s.resolves && t.payouts == s.payouts
  {
  }

  lemma RejectReached(s: Book, app: Application, status: LoanStatus, actor: StaffId, note: string)
    requires Single(s, app, status) && s.resolves == [] && !Blank(note)
    requires 0 in s.verifications && s.verifications[0] == Verification(0, Escalated, None, None)
    ensures var t := FinishResolve(BeginResolve(s, 0, actor, RejectLoan, note), 0);
            && Single(t, app, LoanStatus.Rejected) && t.funds == s.funds && t.calls == s.calls && t.payouts == s.payouts
            && t.accounts[0] == Some(s.accounts[0].value.(status := AccountStatus.Closed))
  {
    var begun := BeginResolve(s, 0, actor, RejectLoan, note);
    assert begun.resolves == [ResolveCall(0, 0, actor, RejectLoan, note, false)];
  }

  lemma EnoughRaised(s: Book, app: Application)
    requires CheckRaise(s, app).None? && OneMember(app)
    ensures BalanceOf(s, app) >= app.requests[0].amount
  {
    RaiseAcceptedIff(s, app);
    SumOne(AmountOf(), app.requests[0]);
    assert app.requests == [app.requests[0]];
  }

  // ---------------------------------------------------------------- the runs

  /** In verification, with both calls checking. */
  predicate BothChecking(w: Book, app: Application, balance: int) {
    && Single(w, app, VerificationInProgress) && BalanceOf(w, app) == balance && w.resolves == [] && w.payouts == []
    && w.calls == [AboutToMark(app).(stage := Checking(0)), AboutToMark(app).(stage := Checking(0))]
  }

  lemma BothMark(s: Book, app: Application)
    requires Initial(s) && CheckRaise(s, app).None? && OneMember(app)
    ensures BothChecking(Run(s, UpToTwoCalls(app) + [MarkStep(0)] + [MarkStep(1)]), app, BalanceOf(s, app))
  {
    hide Next;
    var r := UpToTwoCalls(app);
    TwoCallsReached(s, app);
    RunMark(s, r, 0);
    RunMark(s, r + [MarkStep(0)], 1);
    MarkReached(Run(s, r), app, LoanStatus.Approved, 0);
    MarkReached(MarkInProgress(Run(s, r), 0), app, VerificationInProgress, 1);
  }

  /**
   * Two overlapping verifications of one member: one passes and disburses, the other then escalates, and
   * the escalation is resolved by rejecting the loan. The money is out, the loan rejected, the unpaid,
   * scheduled account closed.
   */
  lemma LateEscalationClosesUnpaidAccount(s: Book, app: Application, actor: StaffId, note: string, now: int)
    requires Initial(s) && CheckRaise(s, app).None? && OneMember(app) && !Blank(note)
    ensures var t := Run(s, UpToTwoCalls(app) + [MarkStep(0)] + [MarkStep(1)] + Pass(1, 0, now) + [FinishStep(0, false)]
                              + [BeginResolveStep(0, actor, RejectLoan, note)] + [FinishResolveStep(0)]);
            && Single(t, app, LoanStatus.Rejected) && BalanceOf(t, app) == BalanceOf(s, app) - app.requests[0].amount
            && t.accounts[0].value.status == AccountStatus.Closed && Scheduled(t.accounts[0].value)
            && t.accounts[0].value.outstanding
               == Some(app.requests[0].amount + Sum(EntryInterest(), t.accounts[0].value.schedule))
  {
    hide Next, Run, Attempted, RecordOutcome, FinishVerify, BeginResolve, FinishResolve, MarkInProgress, Pass, UpToTwoCalls;
    var both := UpToTwoCalls(app) + [MarkStep(0)] + [MarkStep(1)];
    var paid := both + Pass(1, 0, now);
    var escalated := paid + [FinishStep(0, false)];
    BothMark(s, app);
    EnoughRaised(s, app);
    RunPass(s, both, 1, now);
    PassPays(Run(s, both), app, 1, now);
    RunFinish(s, paid, 0, false);
    EscalateReached(Run(s, paid), app, LoanStatus.Disbursed, 0);
    RunBeginResolve(s, escalated, actor, note);
    RunFinishResolve(s, escalated + [BeginResolveStep(0, actor, RejectLoan, note)]);
    RejectReached(Run(s, escalated), app, LoanStatus.Disbursed, actor, note);
  }

  /**
   * Two overlapping verifications of one member, no attempt to disburse overlapping another: one passes and
   * disburses; the other's status write then reopens the loan, it passes too, and the branch pays twice.
   */
  lemma LateMarkDebitsTwice(s: Book, app: Application, now: int, later: int)
    requires Initial(s) && CheckRaise(s, app).None? && OneMember(app)
    requires BalanceOf(s, app) >= 2 * app.requests[0].amount
    ensures var t := Run(s, UpToTwoCalls(app) + [MarkStep(1)] + Pass(1, 0, now) + [MarkStep(0)] + Pass(0, 1, later));
            PaidOut(t, app, BalanceOf(s, app) - 2 * app.requests[0].amount)
  {
    hide Next, Run, Attempted, RecordOutcome, FinishVerify, BeginResolve, FinishResolve, MarkInProgress, Pass, UpToTwoCalls;
    var r0 := UpToTwoCalls(app);
    var r1 := r0 + [MarkStep(1)];
    var r2 := r1 + Pass(1, 0, now);
    var r3 := r2 + [MarkStep(0)];
    TwoCallsReached(s, app);
    RunMark(s, r0, 1);
    MarkReached(Run(s, r0), app, LoanStatus.Approved, 1);
    RunPass(s, r1, 1, now);
    PassPays(Run(s, r1), app, 1, now);
    RunMark(s, r2, 0);
    MarkReached(Run(s, r2), app, LoanStatus.Disbursed, 0);
    RunPass(s, r3, 0, later);
    PassPays(Run(s, r3), app, 0, later);
  }

  /** The same write revives a loan that was rejected in between, and its money goes out. */
  lemma LateMarkDisbursesRejected(s: Book, app: Application, actor: StaffId, note: string, now: int)
    requires Initial(s) && CheckRaise(s, app).None? && OneMember(app) && !Blank(note)
    ensures var rejected := UpToTwoCalls(app) + [MarkStep(1)] + [FinishStep(1, false)]
                              + [BeginResolveStep(0, actor, RejectLoan, note)] + [FinishResolveStep(0)];
            && Single(Run(s, rejected), app, LoanStatus.Rejected)
            && PaidOut(Run(s, rejected + [MarkStep(0)] + Pass(0, 0, now)), app, BalanceOf(s, app) - app.requests[0].amount)
  {
    hide Next, Run, Attempted, RecordOutcome, FinishVerify, BeginResolve, FinishResolve, MarkInProgress, Pass, UpToTwoCalls;
    var r0 := UpToTwoCalls(app);
    var r1 := r0 + [MarkStep(1)];
    var r2 := r1 + [FinishStep(1, false)];
    var r3 := r2 + [BeginResolveStep(0, actor, RejectLoan, note)] + [FinishResolveStep(0)];
    var r4 := r3 + [MarkStep(0)];
    TwoCallsReached(s, app);
    EnoughRaised(s, app);
    RunMark(s, r0, 1);
    MarkReached(Run(s, r0), app, LoanStatus.Approved, 1);
    RunFinish(s, r1, 1, false);
    EscalateReached(Run(s, r1), app, VerificationInProgress, 1);
    RunBeginResolve(s, r2, actor, note);
    RunFinishResolve(s, r2 + [BeginResolveStep(0, actor, RejectLoan, note)]);
    RejectReached(Run(s, r2), app, VerificationInProgress, actor, note);
    RunMark(s, r3, 0);
    MarkReached(Run(s, r3), app, LoanStatus.Rejected, 0);
    RunPass(s, r4, 0, now);
    PassPays(Run(s, r4), app, 0, now);
  }

  // ---------------------------------------------------------------- two overlapping attempts

  /** Every member passed, and two attempts to disburse have come to `stage`. */
  predicate BothAt(s: Book, app: Application, stage: PayoutStage, balance: int) {
    && Single(s, app, VerificationInProgress) && HasPassed(s, 0, 0) && BalanceOf(s, app) == balance
    && s.payouts == [Payout(0, stage), Payout(0, stage)]
  }

  lemma BothStart(s: Book, app: Application, k: nat)
    requires Single(s, app, VerificationInProgress) && Running(s, k) && s.payouts == []
    requires s.calls[k] == AboutToMark(app).(stage := Checking(0))
    ensures BothAt(StartPayout(FinishVerify(s, k, true), 0), app, Opening, BalanceOf(s, app))
  {
  }

  lemma BothReached(s: Book, app: Application)
    requires Initial(s) && CheckRaise(s, app).None? && OneMember(app)
    ensures BothAt(Run(s, UpToTwoCalls(app) + [MarkStep(0)] + [MarkStep(1)] + [FinishStep(0, true)] + [RetryStep(0)]), app,
                   Opening, BalanceOf(s, app))
  {
    hide Next, Run, FinishVerify, StartPayout, UpToTwoCalls;
    var both := UpToTwoCalls(app) + [MarkStep(0)] + [MarkStep(1)];
    BothMark(s, app);
    RunFinish(s, both, 0, true);
    RunRetry(s, both + [FinishStep(0, true)], 0);
    BothStart(Run(s, both), app, 0);
  }

  lemma BothOpen(s: Book, app: Application, balance: int)
    requires BothAt(s, app, Opening, balance)
    ensures BothAt(OpenPayout(OpenPayout(s, 0), 1), app, Clearing, balance)
  {
    var t := OpenPayout(s, 0);
    assert t == s.(payouts := [Payout(0, Clearing), Payout(0, Opening)]);
    assert OpenPayout(t, 1) == s.(payouts := [Payout(0, Clearing), Payout(0, Clearing)]);
  }

  lemma BothClear(s: Book, app: Application, balance: int)
    requires BothAt(s, app, Clearing, balance)
    ensures BothAt(ClearPayout(ClearPayout(s, 0), 1), app, Pricing, balance)
  {
    assert Belongs(s.accounts[0], 0);
    var t := ClearPayout(s, 0);
    assert t == s.(payouts := [Payout(0, Pricing), Payout(0, Clearing)]);
    assert AllPassed(t, 0) by {
      assert Belongs(t.accounts[0], 0);
    }
    assert ClearPayout(t, 1) == s.(payouts := [Payout(0, Pricing), Payout(0, Pricing)]);
  }

  lemma BothPrice(s: Book, app: Application, balance: int)
    requires BothAt(s, app, Pricing, balance)
    ensures BothAt(PricePayout(PricePayout(s, 0), 1), app, Paying(s.products[app.productId]), balance)
  {
    var p, t := s.products[app.productId], PricePayout(s, 0);
    assert t == s.(payouts := [Payout(0, Paying(p)), Payout(0, Pricing)]);
    assert PricePayout(t, 1) == s.(payouts := [Payout(0, Paying(p)), Payout(0, Paying(p))]);
  }

  /** A transaction about to run pays out, whatever the loan has become. */
  lemma TransactionPays(s: Book, app: Application, status: LoanStatus, k: nat, now: int)
    requires Single(s, app, status) && AboutToPay(s, k) && s.payouts[k].loanId == 0
    requires BalanceOf(s, app) >= app.requests[0].amount
    ensures var t := FinishPayout(s, k, now);
            && PaidOut(t, app, BalanceOf(s, app) - app.requests[0].amount)
            && t.payouts == s.payouts[k := s.payouts[k].(stage := Over)]
  {
    var t := SetPayout(s, k, Over);
    DisbursementAllOrNothing(t, 0, s.payouts[k].stage.product, now);
    PaidExactly(t, FinishPayout(s, k, now), app, status, now);
  }

  lemma BothPay(s: Book, app: Application, product: Product, balance: int, now: int, later: int)
    requires BothAt(s, app, Paying(product), balance) && balance >= 2 * app.requests[0].amount
    ensures PaidOut(FinishPayout(FinishPayout(s, 0, now), 1, later), app, balance - 2 * app.requests[0].amount)
  {
    TransactionPays(s, app, VerificationInProgress, 0, now);
    TransactionPays(FinishPayout(s, 0, now), app, LoanStatus.Disbursed, 1, later);
  }

  /** The two attempts step by step. */
  function Overlapping(now: int, later: int): seq<Action> {
    [OpenStep(0)] + [OpenStep(1)] + [ClearStep(0)] + [ClearStep(1)] + [PriceStep(0)] + [PriceStep(1)]
    + [PayStep(0, now)] + [PayStep(1, later)]
  }

  lemma RunOverlapping(s: Book, front: seq<Action>, now: int, later: int)
    ensures var looked := OpenPayout(OpenPayout(Run(s, front), 0), 1);
            var cleared := ClearPayout(ClearPayout(looked, 0), 1);
            var priced := PricePayout(PricePayout(cleared, 0), 1);
            Run(s, front + Overlapping(now, later)) == FinishPayout(FinishPayout(priced, 0, now), 1, later)
  {
    hide Next, OpenPayout, ClearPayout, PricePayout, FinishPayout;
    var f1 := front + [OpenStep(0)];
    var f2 := f1 + [OpenStep(1)];
    var f3 := f2 + [ClearStep(0)];
    var f4 := f3 + [ClearStep(1)];
    var f5 := f4 + [PriceStep(0)];
    var f6 := f5 + [PriceStep(1)];
    var f7 := f6 + [PayStep(0, now)];
    assert front + Overlapping(now, later) == f7 + [PayStep(1, later)];
    RunOpen(s, front, 0);
    RunOpen(s, f1, 1);
    RunClear(s, f2, 0);
    RunClear(s, f3, 1);
    RunPrice(s, f4, 0);
    RunPrice(s, f5, 1);
    RunPay(s, f6, 0, now);
    RunPay(s, f7, 1, later);
  }

  /**
   * An attempt to disburse is meant to be safe to repeat. Two that overlap both find the loan in verification
   * and every member passed, and both pay: the branch is debited twice, no other call being late.
   */
  lemma OverlappingAttemptsDebitTwice(s: Book, app: Application, now: int, later: int)
    requires Initial(s) && CheckRaise(s, app).None? && OneMember(app)
    requires BalanceOf(s, app) >= 2 * app.requests[0].amount
    ensures var t := Run(s, UpToTwoCalls(app) + [MarkStep(0)] + [MarkStep(1)] + [FinishStep(0, true)] + [RetryStep(0)]
                              + Overlapping(now, later));
            PaidOut(t, app, BalanceOf(s, app) - 2 * app.requests[0].amount)
  {
    hide Next, Run, OpenPayout, ClearPayout, PricePayout, FinishPayout, UpToTwoCalls, Overlapping;
    var front := UpToTwoCalls(app) + [MarkStep(0)] + [MarkStep(1)] + [FinishStep(0, true)] + [RetryStep(0)];
    var balance, t0 := BalanceOf(s, app), Run(s, front);
    BothReached(s, app);
    BothOpen(t0, app, balance);
    var t1 := OpenPayout(OpenPayout(t0, 0), 1);
    BothClear(t1, app, balance);
    var t2 := ClearPayout(ClearPayout(t1, 0), 1);
    BothPrice(t2, app, balance);
    BothPay(PricePayout(PricePayout(t2, 0), 1), app, t2.products[app.productId], balance, now, later);
    RunOverlapping(s, front, now, later);
  }
}
