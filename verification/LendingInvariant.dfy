/**
 * What the steps of the lending state machine keep. Documents refer to each other correctly in every run
 * whatsoever; statuses agree in exactly those runs in which no verification call writes its status late.
 */
module LendingInvariant {
  import opened Common
  import opened Schedule
  import opened Lending
  import BranchFunds

  // ---------------------------------------------------------------- references

  /** Still before its first member verification, where it can be edited, deleted or approved. */
  predicate Early(loan: Loan) {
    loan.status == PendingApproval || loan.status == LoanStatus.Approved
  }

  /** Loan `l` exists and was approved, so that it can no longer be deleted. */
  predicate PastApproval(s: Book, l: nat) {
    LoanAt(s, l).Some? && s.loans[l].value.status != PendingApproval
  }

  predicate IsOn(s: Book, i: nat, l: nat) {
    AccountAt(s, i).Some? && s.accounts[i].value.loanId == l
  }

  /** Account `i` exists, on loan `l`, and that loan is past its early stages. */
  predicate UnderVerification(s: Book, i: nat, l: nat) {
    IsOn(s, i, l) && LoanAt(s, l).Some? && !Early(s.loans[l].value)
  }

  predicate CallOk(s: Book, call: VerifyCall) {
    match call.stage
    case Reading => PastApproval(s, call.loanId) && (call.sawApproved || !Early(s.loans[call.loanId].value))
    case Marking(i) => PastApproval(s, call.loanId) && IsOn(s, i, call.loanId)
    case Checking(i) => UnderVerification(s, i, call.loanId)
    case Ended => true
  }

  /** An attempt that has read its loan read one in verification. */
  predicate PayoutOk(s: Book, p: Payout) {
    p.stage.Opening? || p.stage.Over? || (LoanAt(s, p.loanId).Some? && !Early(s.loans[p.loanId].value))
  }

  /** Verifications and running calls name accounts of loans past approval, attempts to disburse such loans. */
  ghost predicate RefsOk(s: Book) {
    && (forall i :: i in s.verifications ==> UnderVerification(s, i, s.verifications[i].loanId))
    && (forall k :: 0 <= k < |s.calls| ==> CallOk(s, s.calls[k]))
    && (forall k :: 0 <= k < |s.resolves| ==> UnderVerification(s, s.resolves[k].accountId, s.resolves[k].loanId))
    && (forall k :: 0 <= k < |s.payouts| ==> PayoutOk(s, s.payouts[k]))
  }

  ghost predicate OneAccountPerMember(s: Book) {
    forall i, j :: 0 <= i < j < |s.accounts| && s.accounts[i].Some? && s.accounts[j].Some? &&
                   s.accounts[i].value.loanId == s.accounts[j].value.loanId ==>
                     s.accounts[i].value.customerId != s.accounts[j].value.customerId
  }

  ghost predicate LinksOk(s: Book) {
    && (forall i :: 0 <= i < |s.accounts| && s.accounts[i].Some? ==> LoanAt(s, s.accounts[i].value.loanId).Some?)
    && OneAccountPerMember(s)
    && (forall l :: l in s.requests ==> l < |s.loans|)
    && (forall l :: 0 <= l < |s.loans| && s.loans[l].Some? && s.loans[l].value.disbursedAt.Some? ==>
          s.loans[l].value.status != PendingApproval)
  }

  /** What holds in every run. */
  ghost predicate Base(s: Book) {
    BranchFunds.Sound(s.funds) && LinksOk(s) && RefsOk(s)
  }

  // ---------------------------------------------------------------- shapes of steps

  ghost predicate SameMember(a: Option<Account>, b: Option<Account>) {
    && (a.Some? <==> b.Some?)
    && (a.Some? ==> a.value.loanId == b.value.loanId && a.value.customerId == b.value.customerId)
  }

  predicate Progress(x: Option<Loan>, y: Option<Loan>) {
    && (x.Some? <==> y.Some?)
    && (x.Some? && x.value.status != PendingApproval ==> y.value.status != PendingApproval)
    && (x.Some? && !Early(x.value) ==> !Early(y.value))
    && (y.Some? && y.value.disbursedAt.Some? ==> x.value.disbursedAt.Some? || y.value.status != PendingApproval)
  }

  /** Loans and accounts are updated, none added or removed; no loan goes back. */
  ghost predicate Updates(s: Book, t: Book) {
    && |t.loans| == |s.loans| && |t.accounts| == |s.accounts| && t.requests.Keys == s.requests.Keys
    && (forall l :: 0 <= l < |s.loans| ==> Progress(s.loans[l], t.loans[l]))
    && (forall i :: 0 <= i < |s.accounts| ==> SameMember(s.accounts[i], t.accounts[i]))
  }

  /** What verifications and calls rely on: approved loans and their accounts stay, and do not go back. */
  ghost predicate Keeps(s: Book, t: Book) {
    && (forall l :: 0 <= l < |s.loans| && PastApproval(s, l) ==>
          PastApproval(t, l) && (!Early(s.loans[l].value) ==> !Early(t.loans[l].value)))
    && (forall i, l :: 0 <= i < |s.accounts| && IsOn(s, i, l) && PastApproval(s, l) ==> IsOn(t, i, l))
  }

  lemma UpdatesKeep(s: Book, t: Book)
    requires Updates(s, t)
    ensures Keeps(s, t)
  {
    forall l | 0 <= l < |s.loans| && PastApproval(s, l)
      ensures PastApproval(t, l) && (!Early(s.loans[l].value) ==> !Early(t.loans[l].value))
    {
      assert Progress(s.loans[l], t.loans[l]);
    }
    forall i, l | 0 <= i < |s.accounts| && IsOn(s, i, l)
      ensures IsOn(t, i, l)
    {
      assert SameMember(s.accounts[i], t.accounts[i]);
    }
  }

  lemma UpdatesLinked(s: Book, t: Book)
    requires LinksOk(s) && Updates(s, t)
    ensures LinksOk(t)
  {
    forall i | 0 <= i < |t.accounts| && t.accounts[i].Some?
      ensures LoanAt(t, t.accounts[i].value.loanId).Some?
    {
      assert SameMember(s.accounts[i], t.accounts[i]);
      assert Progress(s.loans[s.accounts[i].value.loanId], t.loans[s.accounts[i].value.loanId]);
    }
    forall i, j | 0 <= i < j < |t.accounts| && t.accounts[i].Some? && t.accounts[j].Some? &&
                  t.accounts[i].value.loanId == t.accounts[j].value.loanId
      ensures t.accounts[i].value.customerId != t.accounts[j].value.customerId
    {
      assert SameMember(s.accounts[i], t.accounts[i]) && SameMember(s.accounts[j], t.accounts[j]);
    }
    forall l | 0 <= l < |t.loans| && t.loans[l].Some? && t.loans[l].value.disbursedAt.Some?
      ensures t.loans[l].value.status != PendingApproval
    {
      assert Progress(s.loans[l], t.loans[l]);
    }
  }

  lemma UnderKept(s: Book, t: Book, i: nat, l: nat)
    requires Keeps(s, t) && UnderVerification(s, i, l)
    ensures UnderVerification(t, i, l)
  {
    assert PastApproval(s, l);
  }

  lemma CallKept(s: Book, t: Book, call: VerifyCall)
    requires Keeps(s, t) && CallOk(s, call)
    ensures CallOk(t, call)
  {
    if call.stage.Checking? {
      UnderKept(s, t, call.stage.accountId, call.loanId);
    } else if !call.stage.Ended? {
      assert PastApproval(s, call.loanId);
    }
  }

  lemma PayoutKept(s: Book, t: Book, p: Payout)
    requires Keeps(s, t) && PayoutOk(s, p)
    ensures PayoutOk(t, p)
  {
    if !p.stage.Opening? && !p.stage.Over? {
      assert PastApproval(s, p.loanId);
    }
  }

  /** Untouched references stay good. */
  lemma RefsKept(s: Book, t: Book)
    requires RefsOk(s) && Keeps(s, t)
    requires t.verifications == s.verifications && t.calls == s.calls && t.resolves == s.resolves && t.payouts == s.payouts
    ensures RefsOk(t)
  {
    forall i | i in t.verifications
      ensures UnderVerification(t, i, t.verifications[i].loanId)
    {
      UnderKept(s, t, i, s.verifications[i].loanId);
    }
    forall k | 0 <= k < |t.calls|
      ensures CallOk(t, t.calls[k])
    {
      CallKept(s, t, s.calls[k]);
    }
    forall k | 0 <= k < |t.resolves|
      ensures UnderVerification(t, t.resolves[k].accountId, t.resolves[k].loanId)
    {
      UnderKept(s, t, s.resolves[k].accountId, s.resolves[k].loanId);
    }
    forall k | 0 <= k < |t.payouts|
      ensures PayoutOk(t, t.payouts[k])
    {
      PayoutKept(s, t, s.payouts[k]);
    }
  }

  lemma UpdatesBase(s: Book, t: Book)
    requires Base(s) && Updates(s, t) && BranchFunds.Sound(t.funds)
    requires t.verifications == s.verifications && t.calls == s.calls && t.resolves == s.resolves && t.payouts == s.payouts
    ensures Base(t)
  {
    UpdatesLinked(s, t);
    UpdatesKeep(s, t);
    RefsKept(s, t);
  }

  /** Only a reference changes; `s` and `t` hold the same loans and accounts. */
  lemma SameDocumentsBase(s: Book, t: Book)
    requires Base(s) && t.funds == s.funds && t.loans == s.loans && t.accounts == s.accounts && t.requests == s.requests
    requires forall i :: i in t.verifications ==>
               (i in s.verifications && t.verifications[i].loanId == s.verifications[i].loanId) ||
               UnderVerification(s, i, t.verifications[i].loanId)
    requires forall k :: 0 <= k < |t.calls| ==> (k < |s.calls| && t.calls[k] == s.calls[k]) || CallOk(s, t.calls[k])
    requires forall k :: 0 <= k < |t.resolves| ==>
               || (k < |s.resolves| && t.resolves[k] == s.resolves[k].(ended := t.resolves[k].ended))
               || UnderVerification(s, t.resolves[k].accountId, t.resolves[k].loanId)
    requires forall k :: 0 <= k < |t.payouts| ==> (k < |s.payouts| && t.payouts[k] == s.payouts[k]) || PayoutOk(s, t.payouts[k])
    ensures Base(t)
  {
    forall i | i in t.verifications
      ensures UnderVerification(t, i, t.verifications[i].loanId)
    {
      assert UnderVerification(s, i, t.verifications[i].loanId);
    }
    forall k | 0 <= k < |t.calls|
      ensures CallOk(t, t.calls[k])
    {
      assert CallOk(s, t.calls[k]);
    }
    forall k | 0 <= k < |t.resolves|
      ensures UnderVerification(t, t.resolves[k].accountId, t.resolves[k].loanId)
    {
      assert UnderVerification(s, t.resolves[k].accountId, t.resolves[k].loanId);
    }
    forall k | 0 <= k < |t.payouts|
      ensures PayoutOk(t, t.payouts[k])
    {
      assert PayoutOk(s, t.payouts[k]);
    }
  }

  // ---------------------------------------------------------------- what a step leaves alone

  /** A step that at most changes a loan's status, never back to pending and never to rejected. */
  predicate Quiet(a: Action) {
    || a.FundStep? || a.SaveProduct? || a.DecideStep? || a.DeliverApproved? || a.SyncStep?
    || a.BeginStep? || a.ReadStep? || a.MarkStep? || a.AbortStep? || a.BeginResolveStep?
    || a.RetryStep? || a.OpenStep? || a.ClearStep? || a.PriceStep?
  }

  predicate SameButStatus(x: Option<Loan>, y: Option<Loan>) {
    && (x.Some? <==> y.Some?)
    && (x.Some? ==>
          && y.value == x.value.(status := y.value.status)
          && (x.value.status != PendingApproval ==> y.value.status != PendingApproval)
          && (!Early(x.value) ==> !Early(y.value))
          && (y.value.status == LoanStatus.Rejected ==> x.value.status == LoanStatus.Rejected))
  }

  ghost predicate StatusOnly(s: Book, t: Book) {
    && t.accounts == s.accounts && t.verifications == s.verifications && |t.loans| == |s.loans|
    && t.requests.Keys == s.requests.Keys
    && (forall k :: 0 <= k < |s.loans| ==> SameButStatus(s.loans[k], t.loans[k]))
  }

  lemma ApprovedShape(s: Book, l: nat)
    ensures StatusOnly(s, HandleApproved(s, l))
  {
  }

  lemma MarkShape(s: Book, k: nat)
    ensures StatusOnly(s, MarkInProgress(s, k))
  {
  }

  lemma SyncShape(s: Book, l: nat)
    ensures StatusOnly(s, SyncCompletion(s, l))
  {
  }

  lemma AdminShape(s: Book, a: Action)
    requires a.FundStep? || a.SaveProduct? || a.DecideStep?
    ensures StatusOnly(s, Next(s, a)) && Next(s, a).loans == s.loans
    ensures !a.FundStep? ==> Next(s, a).funds == s.funds
    ensures !a.SaveProduct? ==> Next(s, a).products == s.products
  {
    assert Next(s, a).loans == s.loans;
  }

  lemma CallShape(s: Book, a: Action)
    requires a.BeginStep? || a.ReadStep? || a.AbortStep? || a.BeginResolveStep?
    ensures SameDocuments(s, Next(s, a)) && Next(s, a).verifications == s.verifications
  {
  }

  lemma PayoutShape(s: Book, a: Action)
    requires a.RetryStep? || a.OpenStep? || a.ClearStep? || a.PriceStep?
    ensures SameDocuments(s, Next(s, a)) && Next(s, a).verifications == s.verifications
  {
  }

  lemma StillShape(s: Book, a: Action)
    requires Quiet(a) && !a.DeliverApproved? && !a.MarkStep? && !a.SyncStep?
    ensures StatusOnly(s, Next(s, a)) && Next(s, a).loans == s.loans
    ensures !a.FundStep? ==> Next(s, a).funds == s.funds
    ensures !a.SaveProduct? ==> Next(s, a).products == s.products
  {
    hide Next;
    if a.FundStep? || a.SaveProduct? || a.DecideStep? {
      AdminShape(s, a);
    } else if a.RetryStep? || a.OpenStep? || a.ClearStep? || a.PriceStep? {
      PayoutShape(s, a);
    } else {
      CallShape(s, a);
    }
  }

  lemma StatusShape(s: Book, a: Action)
    requires a.DeliverApproved? || a.MarkStep? || a.SyncStep?
    ensures StatusOnly(s, Next(s, a)) && Next(s, a).funds == s.funds && Next(s, a).products == s.products
  {
    hide StatusOnly;
    if a.DeliverApproved? {
      ApprovedShape(s, a.loan);
      NothingShape(s);
    } else if a.MarkStep? {
      MarkShape(s, a.call);
    } else {
      SyncShape(s, a.loan);
    }
  }

  lemma NothingShape(s: Book)
    ensures StatusOnly(s, s)
  {
  }

  lemma QuietShape(s: Book, a: Action)
    requires Quiet(a)
    ensures StatusOnly(s, Next(s, a))
    ensures !a.FundStep? ==> Next(s, a).funds == s.funds
    ensures !a.SaveProduct? ==> Next(s, a).products == s.products
  {
    hide Next, StatusOnly;
    if a.DeliverApproved? || a.MarkStep? || a.SyncStep? {
      StatusShape(s, a);
    } else {
      StillShape(s, a);
    }
  }

  lemma StatusOnlyUpdates(s: Book, t: Book)
    requires StatusOnly(s, t)
    ensures Updates(s, t)
  {
    forall l | 0 <= l < |s.loans|
      ensures Progress(s.loans[l], t.loans[l])
    {
      assert SameButStatus(s.loans[l], t.loans[l]);
    }
  }

  /** An account after an edit: same owner, still pending and unscheduled. */
  ghost predicate EditedFrom(a: Option<Account>, b: Option<Account>) {
    && SameMember(a, b)
    && (a.Some? && (a.value.channel == Transfer ==> a.value.bankDetails.Some?) ==>
          b.value.channel == Transfer ==> b.value.bankDetails.Some?)
    && (a.Some? ==> b.value == a.value.(principal := b.value.principal, channel := b.value.channel, bankDetails := b.value.bankDetails))
  }

  lemma {:induction false} ApplyEditsTouchesOnly(accounts: seq<Option<Account>>, l: nat, requests: seq<MemberRequest>)
    requires NoEditErrors(accounts, l, requests)
    ensures var r := ApplyEdits(accounts, l, requests);
            && (forall i :: 0 <= i < |r| ==> EditedFrom(accounts[i], r[i]))
            && (forall i :: 0 <= i < |r| && !Belongs(accounts[i], l) ==> r[i] == accounts[i])
  {
    if requests != [] {
      ApplyEditsTouchesOnly(accounts, l, requests[..|requests| - 1]);
    }
  }

  /** What an edit of loan `l` leaves alone. */
  lemma EditShape(s: Book, l: nat, actor: StaffId, changes: Changes)
    ensures var t := Edit(s, l, actor, changes);
            && t == s.(accounts := t.accounts, loans := t.loans)
            && |t.accounts| == |s.accounts| && |t.loans| == |s.loans|
            && (forall i :: 0 <= i < |s.accounts| ==>
                  EditedFrom(s.accounts[i], t.accounts[i]) && (!Belongs(s.accounts[i], l) ==> t.accounts[i] == s.accounts[i]))
            && (forall k :: 0 <= k < |s.loans| && k != l ==> t.loans[k] == s.loans[k])
            && (CheckEdit(s, l, actor, changes).Some? ==> t == s)
            && (CheckEdit(s, l, actor, changes).None? ==>
                  && l < |s.loans| && s.loans[l].Some? && t.loans[l].Some? && s.loans[l].value.status == PendingApproval
                  && t.loans[l].value == s.loans[l].value.(tenureDays := t.loans[l].value.tenureDays,
                                                           cumulative := t.loans[l].value.cumulative))
  {
    if CheckEdit(s, l, actor, changes).None? {
      var requests := RequestedEdits(changes);
      ApplyEditsTouchesOnly(s.accounts, l, requests[..SavedEdits(s.accounts, l, requests)]);
    }
  }

  /** The loan whose disbursement transaction the step runs. */
  function Attempt(s: Book, a: Action): Option<nat> {
    if a.PayStep? && AboutToPay(s, a.payout) then Some(s.payouts[a.payout].loanId) else None
  }

  /** The state that transaction meets. */
  function Before(s: Book, a: Action): Book
    requires Attempt(s, a).Some?
  {
    SetPayout(s, a.payout, Over)
  }

  function ProductPaid(s: Book, a: Action): Product
    requires Attempt(s, a).Some?
  {
    s.payouts[a.payout].stage.product
  }

  /** The loan a step rejects, if any. */
  function Rejecting(s: Book, a: Action): Option<nat> {
    if a.DeliverRejected? && a.loan in s.requests && s.requests[a.loan] == RequestRejected then Some(a.loan)
    else if a.FinishResolveStep? && Resolving(s, a.resolve) && s.resolves[a.resolve].resolution == RejectLoan then
      Some(s.resolves[a.resolve].loanId)
    else None
  }

  predicate SameDocuments(s: Book, t: Book) {
    t.funds == s.funds && t.products == s.products && t.loans == s.loans && t.accounts == s.accounts && t.requests == s.requests
  }

  /** Steps that end a verification, a resolution or an attempt to disburse, or deliver a rejection. */
  predicate Deciding(a: Action) {
    a.PayStep? || a.FinishStep? || a.FinishResolveStep? || a.DeliverRejected?
  }

  lemma AttemptShape(s: Book, a: Action)
    requires Attempt(s, a).Some?
    ensures SameDocuments(s, Before(s, a)) && Before(s, a).verifications == s.verifications
    ensures Next(s, a) == PayOut(Before(s, a), Attempt(s, a).value, ProductPaid(s, a), a.now)
  {
  }

  lemma RejectShape(s: Book, a: Action)
    requires Rejecting(s, a).Some?
    ensures SameDocuments(RejectTheLoan(s, Rejecting(s, a).value), Next(s, a))
  {
  }

  lemma IdleShape(s: Book, a: Action)
    requires Deciding(a) && Attempt(s, a).None? && Rejecting(s, a).None?
    ensures SameDocuments(s, Next(s, a))
  {
  }

  // ---------------------------------------------------------------- references over every step

  lemma EditUpdates(s: Book, l: nat, actor: StaffId, changes: Changes)
    ensures Updates(s, Edit(s, l, actor, changes))
  {
    var t := Edit(s, l, actor, changes);
    EditShape(s, l, actor, changes);
    forall k | 0 <= k < |s.loans|
      ensures Progress(s.loans[k], t.loans[k])
    {
      if k != l {
        assert t.loans[k] == s.loans[k];
      }
    }
    forall i | 0 <= i < |s.accounts|
      ensures SameMember(s.accounts[i], t.accounts[i])
    {
      assert EditedFrom(s.accounts[i], t.accounts[i]);
    }
  }

  lemma RejectUpdates(s: Book, l: nat)
    ensures Updates(s, RejectTheLoan(s, l))
  {
  }

  lemma PayUpdates(s: Book, l: nat, product: Product, now: int)
    ensures Updates(s, PayOut(s, l, product, now))
  {
  }

  lemma PayBase(s: Book, l: nat, product: Product, now: int)
    requires Base(s)
    ensures Base(PayOut(s, l, product, now))
  {
    PayUpdates(s, l, product, now);
    if CanPay(s, l) {
      BranchFunds.DebitSound(s.funds, s.loans[l].value.branchId, s.loans[l].value.cumulative);
    }
    UpdatesBase(s, PayOut(s, l, product, now));
  }

  lemma PayoutBase(s: Book, k: nat, stage: PayoutStage)
    requires Base(s) && k < |s.payouts| && PayoutOk(s, s.payouts[k].(stage := stage))
    ensures Base(SetPayout(s, k, stage))
  {
    SameDocumentsBase(s, SetPayout(s, k, stage));
  }

  lemma StartBase(s: Book, l: nat)
    requires Base(s)
    ensures Base(StartPayout(s, l))
  {
    SameDocumentsBase(s, StartPayout(s, l));
  }

  lemma PayoutStepBase(s: Book, a: Action)
    requires Base(s) && (a.OpenStep? || a.ClearStep? || a.PriceStep?)
    ensures Base(Next(s, a))
  {
    if a.payout < |s.payouts| && Next(s, a) != s {
      assert PayoutOk(s, s.payouts[a.payout]);
      PayoutBase(s, a.payout, Next(s, a).payouts[a.payout].stage);
    }
  }

  lemma FinishPayoutBase(s: Book, k: nat, now: int)
    requires Base(s)
    ensures Base(FinishPayout(s, k, now))
  {
    if AboutToPay(s, k) {
      PayoutBase(s, k, Over);
      PayBase(SetPayout(s, k, Over), s.payouts[k].loanId, s.payouts[k].stage.product, now);
    }
  }

  lemma RejectBase(s: Book, l: nat)
    requires Base(s)
    ensures Base(RejectTheLoan(s, l))
  {
    RejectUpdates(s, l);
    UpdatesBase(s, RejectTheLoan(s, l));
  }

  lemma RaiseKeeps(s: Book, app: Application, initiated: bool)
    ensures Keeps(s, Raise(s, app, initiated))
  {
  }

  lemma RaiseLinked(s: Book, app: Application, initiated: bool)
    requires LinksOk(s)
    ensures LinksOk(Raise(s, app, initiated))
  {
    RaiseAcceptedIff(s, app);
  }

  lemma RaiseBase(s: Book, app: Application, initiated: bool)
    requires Base(s)
    ensures Base(Raise(s, app, initiated))
  {
    RaiseLinked(s, app, initiated);
    RaiseKeeps(s, app, initiated);
    RefsKept(s, Raise(s, app, initiated));
  }

  lemma DeleteKeeps(s: Book, l: nat, actor: StaffId)
    ensures Keeps(s, Delete(s, l, actor))
  {
  }

  lemma DeleteLinked(s: Book, l: nat, actor: StaffId)
    requires LinksOk(s)
    ensures LinksOk(Delete(s, l, actor))
  {
  }

  lemma DeleteBase(s: Book, l: nat, actor: StaffId)
    requires Base(s)
    ensures Base(Delete(s, l, actor))
  {
    hide LinksOk, RefsOk, Keeps;
    DeleteLinked(s, l, actor);
    DeleteKeeps(s, l, actor);
    RefsKept(s, Delete(s, l, actor));
  }

  lemma StageBase(s: Book, k: nat, stage: CallStage)
    requires Base(s) && k < |s.calls| && CallOk(s, s.calls[k].(stage := stage))
    ensures Base(SetStage(s, k, stage))
  {
    SameDocumentsBase(s, SetStage(s, k, stage));
  }

  lemma BeginBase(s: Book, l: nat, c: CustomerId)
    requires Base(s)
    ensures Base(BeginVerify(s, l, c))
  {
    SameDocumentsBase(s, BeginVerify(s, l, c));
  }

  lemma ReadBase(s: Book, k: nat)
    requires Base(s)
    ensures Base(ReadAccount(s, k))
  {
    if k < |s.calls| && s.calls[k].stage.Reading? {
      assert CallOk(s, s.calls[k]);
      StageBase(s, k, ReadAccount(s, k).calls[k].stage);
    }
  }

  lemma BeginResolveBase(s: Book, i: nat, actor: StaffId, resolution: Resolution, note: string)
    requires Base(s)
    ensures Base(BeginResolve(s, i, actor, resolution, note))
  {
    if CheckResolve(s, i, note).None? {
      assert UnderVerification(s, i, s.verifications[i].loanId);
      SameDocumentsBase(s, BeginResolve(s, i, actor, resolution, note));
    }
  }

  lemma MarkBase(s: Book, k: nat)
    requires Base(s)
    ensures Base(MarkInProgress(s, k))
  {
    if k < |s.calls| && s.calls[k].stage.Marking? {
      var call := s.calls[k];
      assert CallOk(s, call);
      var marked := SetStatus(s, call.loanId, VerificationInProgress);
      assert Updates(s, marked);
      UpdatesBase(s, marked);
      assert CallOk(marked, call.(stage := Checking(call.stage.accountId)));
      SameDocumentsBase(marked, MarkInProgress(s, k));
    }
  }

  lemma OutcomeBase(s: Book, k: nat, passed: bool)
    requires Base(s) && Running(s, k)
    ensures Base(RecordOutcome(s, k, passed))
  {
    assert CallOk(s, s.calls[k]);
    SameDocumentsBase(s, RecordOutcome(s, k, passed));
  }

  lemma FinishBase(s: Book, k: nat, passed: bool)
    requires Base(s)
    ensures Base(FinishVerify(s, k, passed))
  {
    if Running(s, k) {
      OutcomeBase(s, k, passed);
      StartBase(RecordOutcome(s, k, passed), s.calls[k].loanId);
    }
  }

  lemma ResolvedBase(s: Book, r: ResolveCall)
    requires Base(s)
    ensures Base(Resolved(s, r))
  {
    SameDocumentsBase(s, Resolved(s, r));
  }

  lemma EndResolveBase(s: Book, k: nat)
    requires Base(s) && k < |s.resolves|
    ensures Base(EndResolve(s, k))
  {
    SameDocumentsBase(s, EndResolve(s, k));
  }

  lemma FinishResolveBase(s: Book, k: nat)
    requires Base(s)
    ensures Base(FinishResolve(s, k))
  {
    if Resolving(s, k) {
      var r, t := s.resolves[k], EndResolve(s, k);
      EndResolveBase(s, k);
      if r.resolution == RejectLoan {
        RejectBase(t, r.loanId);
        ResolvedBase(RejectTheLoan(t, r.loanId), r);
      } else {
        ResolvedBase(t, r);
        StartBase(Resolved(t, r), r.loanId);
      }
    }
  }

  lemma AccountBase(s: Book, i: nat, a: Account)
    requires Base(s) && AccountAt(s, i).Some? && SameMember(s.accounts[i], Some(a))
    ensures Base(SetAccount(s, i, a))
  {
    assert Updates(s, SetAccount(s, i, a));
    UpdatesBase(s, SetAccount(s, i, a));
  }

  lemma OfficeStepBase(s: Book, a: Action)
    requires Base(s)
    requires a.FundStep? || a.SaveProduct? || a.DecideStep? || a.DeliverApproved? || a.SyncStep? || a.DeliverRejected? || a.EditStep?
    ensures Base(Next(s, a))
  {
    if a.EditStep? {
      EditShape(s, a.loan, a.actor, a.changes);
      EditUpdates(s, a.loan, a.actor, a.changes);
      UpdatesBase(s, Next(s, a));
    } else if a.DeliverRejected? {
      RejectBase(s, a.loan);
    } else {
      if a.FundStep? {
        BranchFunds.NextSound(s.funds, a.fund);
      }
      QuietShape(s, a);
      StatusOnlyUpdates(s, Next(s, a));
      UpdatesBase(s, Next(s, a));
    }
  }

  lemma AccountStepBase(s: Book, a: Action)
    requires Base(s)
    requires a.HandoverStep? || a.RepayStep? || a.ReverseStep? || a.PenaltyStep?
    ensures Base(Next(s, a))
  {
    var t := Next(s, a);
    if t.accounts != s.accounts {
      AccountBase(s, a.account, t.accounts[a.account].value);
    }
  }

  lemma CallStepBase(s: Book, a: Action)
    requires Base(s)
    requires a.BeginStep? || a.ReadStep? || a.AbortStep? || a.MarkStep? || a.BeginResolveStep?
    ensures Base(Next(s, a))
  {
    hide Base, BeginVerify, ReadAccount, MarkInProgress, BeginResolve;
    match a {
      case BeginStep(l, c) => BeginBase(s, l, c);
      case ReadStep(k) => ReadBase(s, k);
      case AbortStep(k) => AbortBase(s, k);
      case MarkStep(k) => MarkBase(s, k);
      case BeginResolveStep(i, actor, resolution, note) => BeginResolveBase(s, i, actor, resolution, note);
    }
  }

  lemma AbortBase(s: Book, k: nat)
    requires Base(s)
    ensures Base(AbortVerify(s, k))
  {
    if k < |s.calls| {
      StageBase(s, k, Ended);
    }
  }

  lemma DecidingBase(s: Book, a: Action)
    requires Base(s) && (a.FinishStep? || a.FinishResolveStep? || a.RetryStep? || a.PayStep?)
    ensures Base(Next(s, a))
  {
    hide Base, FinishVerify, FinishResolve, StartPayout, FinishPayout;
    match a {
      case FinishStep(k, passed) => FinishBase(s, k, passed);
      case FinishResolveStep(k) => FinishResolveBase(s, k);
      case RetryStep(l) => StartBase(s, l);
      case PayStep(k, now) => FinishPayoutBase(s, k, now);
    }
  }

  lemma RaiserBase(s: Book, a: Action)
    requires Base(s) && (a.RaiseStep? || a.DeleteStep?)
    ensures Base(Next(s, a))
  {
    hide Base, Raise, Delete;
    match a {
      case RaiseStep(app, initiated) => RaiseBase(s, app, initiated);
      case DeleteStep(l, actor) => DeleteBase(s, l, actor);
    }
  }

  /** Whatever step is taken, documents keep referring to each other. */
  lemma NextBase(s: Book, a: Action)
    requires Base(s)
    ensures Base(Next(s, a))
  {
    hide Next, Base;
    if a.RaiseStep? || a.DeleteStep? {
      RaiserBase(s, a);
    } else if a.BeginStep? || a.ReadStep? || a.AbortStep? || a.MarkStep? || a.BeginResolveStep? {
      CallStepBase(s, a);
    } else if a.FinishStep? || a.FinishResolveStep? || a.RetryStep? || a.PayStep? {
      DecidingBase(s, a);
    } else if a.OpenStep? || a.ClearStep? || a.PriceStep? {
      PayoutStepBase(s, a);
    } else if a.HandoverStep? || a.RepayStep? || a.ReverseStep? || a.PenaltyStep? {
      AccountStepBase(s, a);
    } else {
      OfficeStepBase(s, a);
    }
  }

  lemma {:induction false} RunBase(s: Book, actions: seq<Action>)
    requires Base(s)
    ensures Base(Run(s, actions))
  {
    if actions != [] {
      RunBase(s, actions[..|actions| - 1]);
      NextBase(Run(s, actions[..|actions| - 1]), actions[|actions| - 1]);
    }
  }

  // ---------------------------------------------------------------- statuses

  function RequestOf(s: Book, l: nat): Option<RequestStatus> {
    if l in s.requests then Some(s.requests[l]) else None
  }

  /** The status agrees with whether money ever left, and with what the workflow engine decided. */
  predicate LoanOk(loan: Loan, request: Option<RequestStatus>) {
    && (loan.disbursedAt.None? ==> Early(loan) || loan.status == VerificationInProgress || loan.status == LoanStatus.Rejected)
    && (loan.disbursedAt.Some? ==>
          loan.status == LoanStatus.Disbursed || loan.status == LoanStatus.Closed || loan.status == LoanStatus.Rejected)
    && (loan.status == LoanStatus.Rejected ==> request == Some(RequestApproved) || request == Some(RequestRejected))
    && (loan.status != PendingApproval && loan.status != LoanStatus.Rejected ==> request == Some(RequestApproved))
    && (loan.disbursedAt.Some? ==> request == Some(RequestApproved))
  }

  predicate Unscheduled(a: Account) {
    a.schedule == [] && a.outstanding.None? && a.handedOverAt.None?
  }

  ghost predicate Scheduled(a: Account) {
    Telescopes(a.schedule, a.principal) && a.outstanding.Some?
  }

  /** An account is scheduled exactly when its loan's money has left; until then its status follows the loan's. */
  ghost predicate AccountOk(a: Account, loan: Loan) {
    && (a.channel == Transfer ==> a.bankDetails.Some?)
    && (loan.disbursedAt.None? ==>
          && Unscheduled(a)
          && a.status == (if loan.status == LoanStatus.Rejected then AccountStatus.Closed else AccountStatus.Pending))
    && (loan.disbursedAt.Some? ==>
          Scheduled(a) && (a.status == AccountStatus.Active || a.status == AccountStatus.Closed))
  }

  /** An attempt that has read its loan is for one the workflow approved. */
  ghost predicate PayoutsApproved(s: Book) {
    forall k :: 0 <= k < |s.payouts| && !s.payouts[k].stage.Opening? && !s.payouts[k].stage.Over? ==>
      RequestOf(s, s.payouts[k].loanId) == Some(RequestApproved)
  }

  ghost predicate StatesOk(s: Book) {
    && PayoutsApproved(s)
    && (forall l :: 0 <= l < |s.loans| && s.loans[l].Some? ==> LoanOk(s.loans[l].value, RequestOf(s, l)))
    && (forall i :: 0 <= i < |s.accounts| && s.accounts[i].Some? && LoanAt(s, s.accounts[i].value.loanId).Some? ==>
          AccountOk(s.accounts[i].value, s.loans[s.accounts[i].value.loanId].value))
  }

  ghost predicate Sound(s: Book) {
    Base(s) && StatesOk(s)
  }

  lemma InitialSound(s: Book)
    requires Initial(s)
    ensures Sound(s)
  {
  }

  /** The status write of a call that saw APPROVED, when the loan has since been disbursed, closed or rejected. */
  predicate LateMark(s: Book, a: Action) {
    && a.MarkStep? && a.call < |s.calls| && s.calls[a.call].stage.Marking?
    && LoanAt(s, s.calls[a.call].loanId).Some?
    && s.loans[s.calls[a.call].loanId].value.status != LoanStatus.Approved
    && s.loans[s.calls[a.call].loanId].value.status != VerificationInProgress
  }

  /** A loan and, through `f`, all of its accounts change together. */
  lemma BulkStates(s: Book, l: nat, loan: Loan, f: Account -> Account)
    requires Sound(s) && LoanAt(s, l).Some? && LoanOk(loan, RequestOf(s, l))
    requires forall i :: 0 <= i < |s.accounts| && Belongs(s.accounts[i], l) ==>
               f(s.accounts[i].value).loanId == l && AccountOk(f(s.accounts[i].value), loan)
    ensures StatesOk(s.(loans := s.loans[l := Some(loan)], accounts := UpdateMembers(s.accounts, l, f)))
  {
    var t := s.(loans := s.loans[l := Some(loan)], accounts := UpdateMembers(s.accounts, l, f));
    forall k | 0 <= k < |t.loans| && t.loans[k].Some?
      ensures LoanOk(t.loans[k].value, RequestOf(t, k))
    {
      assert k != l ==> LoanOk(s.loans[k].value, RequestOf(s, k));
    }
  }

  /** A loan changes in a way its accounts do not notice. */
  lemma LoanStates(s: Book, l: nat, loan: Loan)
    requires Sound(s) && LoanAt(s, l).Some? && LoanOk(loan, RequestOf(s, l))
    requires loan.disbursedAt == s.loans[l].value.disbursedAt
    requires loan.status == LoanStatus.Rejected <==> s.loans[l].value.status == LoanStatus.Rejected
    ensures StatesOk(s.(loans := s.loans[l := Some(loan)]))
  {
    var t := s.(loans := s.loans[l := Some(loan)]);
    forall k | 0 <= k < |t.loans| && t.loans[k].Some?
      ensures LoanOk(t.loans[k].value, RequestOf(t, k))
    {
      assert k != l ==> LoanOk(s.loans[k].value, RequestOf(s, k));
    }
  }

  lemma AccountStates(s: Book, i: nat, a: Account)
    requires Sound(s) && AccountAt(s, i).Some? && SameMember(s.accounts[i], Some(a))
    requires AccountOk(a, s.loans[a.loanId].value)
    ensures StatesOk(SetAccount(s, i, a))
  {
  }

  lemma SameStates(s: Book, t: Book)
    requires StatesOk(s) && t.loans == s.loans && t.accounts == s.accounts && t.requests == s.requests
    requires t.payouts == s.payouts || PayoutsApproved(t)
    ensures StatesOk(t)
  {
    forall l | 0 <= l < |t.loans| && t.loans[l].Some?
      ensures LoanOk(t.loans[l].value, RequestOf(t, l))
    {
      assert LoanOk(s.loans[l].value, RequestOf(s, l));
    }
  }

  lemma RaiseStates(s: Book, app: Application, initiated: bool)
    requires Sound(s)
    ensures StatesOk(Raise(s, app, initiated))
  {
    RaiseAcceptedIff(s, app);
    if CheckRaise(s, app).None? {
      var t := Raise(s, app, initiated);
      forall l | 0 <= l < |t.loans| && t.loans[l].Some?
        ensures LoanOk(t.loans[l].value, RequestOf(t, l))
      {
        assert l < |s.loans| ==> LoanOk(s.loans[l].value, RequestOf(s, l));
      }
      forall i | 0 <= i < |t.accounts| && t.accounts[i].Some?
        ensures AccountOk(t.accounts[i].value, t.loans[t.accounts[i].value.loanId].value)
      {
      }
    }
  }

  lemma EditStates(s: Book, l: nat, actor: StaffId, changes: Changes)
    requires Sound(s)
    ensures StatesOk(Edit(s, l, actor, changes))
  {
    var t := Edit(s, l, actor, changes);
    EditShape(s, l, actor, changes);
    forall k | 0 <= k < |t.loans| && t.loans[k].Some?
      ensures LoanOk(t.loans[k].value, RequestOf(t, k))
    {
      assert LoanOk(s.loans[k].value, RequestOf(s, k));
    }
    forall i | 0 <= i < |t.accounts| && t.accounts[i].Some? && LoanAt(t, t.accounts[i].value.loanId).Some?
      ensures AccountOk(t.accounts[i].value, t.loans[t.accounts[i].value.loanId].value)
    {
      assert EditedFrom(s.accounts[i], t.accounts[i]);
    }
  }

  lemma DeleteStates(s: Book, l: nat, actor: StaffId)
    requires Sound(s)
    ensures StatesOk(Delete(s, l, actor))
  {
    if CheckRaiser(s, l, actor).None? {
      var t := Delete(s, l, actor);
      forall k | 0 <= k < |t.loans| && t.loans[k].Some?
        ensures LoanOk(t.loans[k].value, RequestOf(t, k))
      {
        assert LoanOk(s.loans[k].value, RequestOf(s, k));
      }
    }
  }

  lemma DecideStates(s: Book, l: nat, approved: bool)
    requires Sound(s)
    ensures StatesOk(Decide(s, l, approved))
  {
    var t := Decide(s, l, approved);
    forall k | 0 <= k < |t.loans| && t.loans[k].Some?
      ensures LoanOk(t.loans[k].value, RequestOf(t, k))
    {
      assert LoanOk(s.loans[k].value, RequestOf(s, k));
    }
  }

  lemma RejectStates(s: Book, l: nat)
    requires Sound(s)
    requires LoanAt(s, l).Some? ==> RequestOf(s, l) == Some(RequestRejected) || !Early(s.loans[l].value)
    ensures StatesOk(RejectTheLoan(s, l))
  {
    if LoanAt(s, l).Some? {
      assert LoanOk(s.loans[l].value, RequestOf(s, l));
      BulkStates(s, l, s.loans[l].value.(status := LoanStatus.Rejected), Closing());
    }
  }

  lemma ActivatedOk(a: Account, product: Product, loan: Loan, now: int)
    requires a.channel == Transfer ==> a.bankDetails.Some?
    requires loan.disbursedAt.Some?
    ensures AccountOk(Activating(product, loan.tenureDays, now)(a), loan)
  {
    BuiltScheduleSound(product, a.principal, loan.tenureDays, now);
  }

  lemma PayStates(s: Book, l: nat, product: Product, now: int)
    requires Sound(s) && RequestOf(s, l) == Some(RequestApproved)
    ensures StatesOk(PayOut(s, l, product, now))
  {
    if CanPay(s, l) {
      var loan := s.loans[l].value;
      var disbursed := loan.(status := LoanStatus.Disbursed, disbursedAt := Some(now));
      var f := Activating(product, loan.tenureDays, now);
      forall i | 0 <= i < |s.accounts| && Belongs(s.accounts[i], l)
        ensures AccountOk(f(s.accounts[i].value), disbursed)
      {
        assert AccountOk(s.accounts[i].value, loan);
        ActivatedOk(s.accounts[i].value, product, disbursed, now);
      }
      BulkStates(s, l, disbursed, f);
      SameStates(s.(loans := s.loans[l := Some(disbursed)], accounts := UpdateMembers(s.accounts, l, f)),
                 PayOut(s, l, product, now));
    }
  }

  lemma FinishPayoutStates(s: Book, k: nat, now: int)
    requires Sound(s)
    ensures StatesOk(FinishPayout(s, k, now))
  {
    if AboutToPay(s, k) {
      PayoutBase(s, k, Over);
      SameStates(s, SetPayout(s, k, Over));
      PayStates(SetPayout(s, k, Over), s.payouts[k].loanId, s.payouts[k].stage.product, now);
    }
  }

  /** A request that an attempt relies on was approved when the attempt found the loan in verification. */
  lemma OpenStates(s: Book, k: nat)
    requires Sound(s)
    ensures StatesOk(OpenPayout(s, k))
  {
    var t := OpenPayout(s, k);
    if k < |s.payouts| && LoanAt(s, s.payouts[k].loanId).Some? {
      assert LoanOk(s.loans[s.payouts[k].loanId].value, RequestOf(s, s.payouts[k].loanId));
    }
    assert PayoutsApproved(t);
    SameStates(s, t);
  }

  lemma OnwardStates(s: Book, l: nat, k: nat)
    requires Sound(s)
    ensures StatesOk(StartPayout(s, l)) && StatesOk(ClearPayout(s, k)) && StatesOk(PricePayout(s, k))
  {
    assert PayoutsApproved(StartPayout(s, l)) && PayoutsApproved(ClearPayout(s, k)) && PayoutsApproved(PricePayout(s, k));
    SameStates(s, StartPayout(s, l));
    SameStates(s, ClearPayout(s, k));
    SameStates(s, PricePayout(s, k));
  }

  lemma PayoutStepStates(s: Book, a: Action)
    requires Sound(s) && (a.RetryStep? || a.OpenStep? || a.ClearStep? || a.PriceStep?)
    ensures StatesOk(Next(s, a))
  {
    hide Sound, StatesOk, StartPayout, OpenPayout, ClearPayout, PricePayout;
    match a {
      case RetryStep(l) => OnwardStates(s, l, 0);
      case OpenStep(k) => OpenStates(s, k);
      case ClearStep(k) => OnwardStates(s, 0, k);
      case PriceStep(k) => OnwardStates(s, 0, k);
    }
  }

  lemma ResolvedSound(s: Book, r: ResolveCall)
    requires Sound(s)
    ensures Sound(Resolved(s, r))
  {
    ResolvedBase(s, r);
    SameStates(s, Resolved(s, r));
  }

  lemma EndResolveSound(s: Book, k: nat)
    requires Sound(s) && k < |s.resolves|
    ensures Sound(EndResolve(s, k))
  {
    EndResolveBase(s, k);
    SameStates(s, EndResolve(s, k));
  }

  lemma BeforeSound(s: Book, a: Action)
    requires Sound(s) && Attempt(s, a).Some?
    ensures Sound(Before(s, a))
  {
    PayoutBase(s, a.payout, Over);
    SameStates(s, Before(s, a));
  }

  lemma FinishStates(s: Book, k: nat, passed: bool)
    requires Sound(s)
    ensures StatesOk(FinishVerify(s, k, passed))
  {
    SameStates(s, FinishVerify(s, k, passed));
  }

  lemma FinishResolveStates(s: Book, k: nat)
    requires Sound(s)
    ensures StatesOk(FinishResolve(s, k))
  {
    if Resolving(s, k) {
      var r, t := s.resolves[k], EndResolve(s, k);
      assert UnderVerification(s, r.accountId, r.loanId);
      EndResolveSound(s, k);
      if r.resolution == RejectLoan {
        RejectStates(t, r.loanId);
        SameStates(RejectTheLoan(t, r.loanId), FinishResolve(s, k));
      } else {
        ResolvedSound(t, r);
        SameStates(Resolved(t, r), FinishResolve(s, k));
      }
    }
  }

  lemma MarkStates(s: Book, k: nat)
    requires Sound(s) && !LateMark(s, MarkStep(k))
    ensures StatesOk(MarkInProgress(s, k))
  {
    if k < |s.calls| && s.calls[k].stage.Marking? {
      var l := s.calls[k].loanId;
      assert CallOk(s, s.calls[k]) && LoanOk(s.loans[l].value, RequestOf(s, l));
      LoanStates(s, l, s.loans[l].value.(status := VerificationInProgress));
      SameStates(SetStatus(s, l, VerificationInProgress), MarkInProgress(s, k));
    }
  }

  lemma HandoverStates(s: Book, i: nat, now: int)
    requires Sound(s)
    ensures StatesOk(ConfirmHandover(s, i, now))
  {
    if CheckHandover(s, i).None? {
      var a := s.accounts[i].value;
      var loan := s.loans[a.loanId].value;
      assert AccountOk(a, loan);
      ReanchorKeepsAmounts(a.schedule, a.principal,
                           Terms(now, s.products[loan.productId].repaymentPeriodDays, loan.tenureDays));
      AccountStates(s, i, HandedOver(s, i, now));
    }
  }

  lemma BalanceStates(s: Book, i: nat, amount: nat)
    requires Sound(s)
    ensures StatesOk(Repay(s, i, amount)) && StatesOk(Reverse(s, i, amount)) && StatesOk(Penalize(s, i, amount))
  {
    if EverScheduled(s, i) {
      var a := s.accounts[i].value;
      assert AccountOk(a, s.loans[a.loanId].value);
      AccountStates(s, i, Repaid(a, amount));
      AccountStates(s, i, Reversed(a, amount));
      AccountStates(s, i, Penalized(a, amount));
    }
  }

  lemma SyncStates(s: Book, l: nat)
    requires Sound(s)
    ensures StatesOk(SyncCompletion(s, l))
  {
    if LoanAt(s, l).Some? {
      var loan := s.loans[l].value;
      assert LoanOk(loan, RequestOf(s, l));
      if loan.status == LoanStatus.Disbursed {
        LoanStates(s, l, loan.(status := LoanStatus.Closed));
      } else if loan.status == LoanStatus.Closed {
        LoanStates(s, l, loan.(status := LoanStatus.Disbursed));
      }
    }
  }

  lemma ApprovedStates(s: Book, l: nat)
    requires Sound(s) && RequestOf(s, l) == Some(RequestApproved)
    ensures StatesOk(HandleApproved(s, l))
  {
    if LoanAt(s, l).Some? && s.loans[l].value.status == PendingApproval {
      assert LoanOk(s.loans[l].value, RequestOf(s, l));
      LoanStates(s, l, s.loans[l].value.(status := LoanStatus.Approved));
    }
  }

  lemma RejectedStates(s: Book, l: nat)
    requires Sound(s) && RequestOf(s, l) == Some(RequestRejected)
    ensures StatesOk(RejectTheLoan(s, l))
  {
    RejectStates(s, l);
  }

  lemma StillStates(s: Book, a: Action)
    requires Sound(s)
    requires a.FundStep? || a.SaveProduct? || a.BeginStep? || a.ReadStep? || a.AbortStep? || a.BeginResolveStep?
    ensures StatesOk(Next(s, a))
  {
    StillShape(s, a);
    SameStates(s, Next(s, a));
  }

  lemma OfficeStates(s: Book, a: Action)
    requires Sound(s)
    requires a.RaiseStep? || a.EditStep? || a.DeleteStep? || a.DecideStep? || a.DeliverApproved? || a.DeliverRejected?
    ensures StatesOk(Next(s, a))
  {
    match a {
      case RaiseStep(app, initiated) => RaiseStates(s, app, initiated);
      case EditStep(l, actor, changes) => EditStates(s, l, actor, changes);
      case DeleteStep(l, actor) => DeleteStates(s, l, actor);
      case DecideStep(l, approved) => DecideStates(s, l, approved);
      case DeliverApproved(l) => if RequestOf(s, l) == Some(RequestApproved) { ApprovedStates(s, l); }
      case DeliverRejected(l) => if RequestOf(s, l) == Some(RequestRejected) { RejectedStates(s, l); }
    }
  }

  lemma VerificationStates(s: Book, a: Action)
    requires Sound(s) && !LateMark(s, a)
    requires a.MarkStep? || a.FinishStep? || a.FinishResolveStep? || a.PayStep?
    ensures StatesOk(Next(s, a))
  {
    if a.MarkStep? {
      MarkStates(s, a.call);
    } else if a.FinishStep? {
      FinishStates(s, a.call, a.passed);
    } else if a.FinishResolveStep? {
      FinishResolveStates(s, a.resolve);
    } else {
      FinishPayoutStates(s, a.payout, a.now);
    }
  }

  lemma BalanceStepStates(s: Book, a: Action)
    requires Sound(s)
    requires a.RepayStep? || a.ReverseStep? || a.PenaltyStep?
    ensures StatesOk(Next(s, a))
  {
    BalanceStates(s, a.account, a.amount);
  }

  lemma AfterStates(s: Book, a: Action)
    requires Sound(s)
    requires a.HandoverStep? || a.SyncStep?
    ensures StatesOk(Next(s, a))
  {
    if a.HandoverStep? {
      HandoverStates(s, a.account, a.now);
    } else {
      SyncStates(s, a.loan);
    }
  }

  lemma NextSound(s: Book, a: Action)
    requires Sound(s) && !LateMark(s, a)
    ensures Sound(Next(s, a))
  {
    NextBase(s, a);
    if a.FundStep? || a.SaveProduct? || a.BeginStep? || a.ReadStep? || a.AbortStep? || a.BeginResolveStep? {
      StillStates(s, a);
    } else if a.RaiseStep? || a.EditStep? || a.DeleteStep? || a.DecideStep? || a.DeliverApproved? || a.DeliverRejected? {
      OfficeStates(s, a);
    } else if a.MarkStep? || a.FinishStep? || a.FinishResolveStep? || a.PayStep? {
      VerificationStates(s, a);
    } else if a.RetryStep? || a.OpenStep? || a.ClearStep? || a.PriceStep? {
      PayoutStepStates(s, a);
    } else if a.HandoverStep? || a.SyncStep? {
      AfterStates(s, a);
    } else {
      BalanceStepStates(s, a);
    }
  }

  /** A late status write makes a disbursed loan, or a rejected one's closed accounts, look undisbursed. */
  lemma LateMarkUnsound(s: Book, k: nat)
    requires Sound(s) && LateMark(s, MarkStep(k))
    ensures !StatesOk(MarkInProgress(s, k))
  {
    var call, t := s.calls[k], MarkInProgress(s, k);
    assert CallOk(s, call);
    assert LoanOk(s.loans[call.loanId].value, RequestOf(s, call.loanId));
    assert AccountOk(s.accounts[call.stage.accountId].value, s.loans[call.loanId].value);
    assert !LoanOk(t.loans[call.loanId].value, RequestOf(t, call.loanId))
           || !AccountOk(t.accounts[call.stage.accountId].value, t.loans[call.loanId].value);
  }

  /** From a sound state every step leads to a sound state, except a late status write, which never does. */
  lemma SoundStepIff(s: Book, a: Action)
    requires Sound(s)
    ensures Sound(Next(s, a)) <==> !LateMark(s, a)
  {
    if LateMark(s, a) {
      LateMarkUnsound(s, a.call);
    } else {
      NextSound(s, a);
    }
  }

  /** No step of the run is a late status write. */
  ghost predicate Timely(s: Book, actions: seq<Action>) {
    actions != [] ==>
      && Timely(s, actions[..|actions| - 1])
      && !LateMark(Run(s, actions[..|actions| - 1]), actions[|actions| - 1])
  }

  /** In every timely run the statuses of loan, accounts and request agree, whatever is interleaved. */
  lemma {:induction false} RunSound(s: Book, actions: seq<Action>)
    requires Sound(s) && Timely(s, actions)
    ensures Sound(Run(s, actions))
  {
    if actions != [] {
      RunSound(s, actions[..|actions| - 1]);
      NextSound(Run(s, actions[..|actions| - 1]), actions[|actions| - 1]);
    }
  }
}
