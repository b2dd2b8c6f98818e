/**
 * The group-loan lifecycle: loans, their member accounts, and the pre-disbursement verifications, as one
 * state machine over the stored collections. A loan's or an account's id is its position in its
 * collection; a deleted document leaves a gap. A verification is keyed by its account.
 */
module Lending {
  import opened Common
  import opened Schedule
  import BranchFunds

  type BranchId = BranchFunds.BranchId
  type CustomerId = string
  type StaffId = string
  type ProductId = string

  datatype LoanStatus =
    | PendingApproval | Approved | VerificationInProgress | VerificationFailed | Disbursed | Rejected | Closed

  datatype AccountStatus = Pending | Active | Closed | Defaulted

  datatype Channel = Transfer | ChequePickup

  datatype VerificationStatus = Passed | Escalated

  datatype Loan = Loan(
    branchId: BranchId, productId: ProductId, tenureDays: int, cumulative: int,
    status: LoanStatus, raisedBy: StaffId, disbursedAt: Option<int>)

  datatype Account = Account(
    loanId: nat, customerId: CustomerId, principal: Positive, channel: Channel, bankDetails: Option<string>,
    schedule: seq<ScheduleEntry>, outstanding: Option<int>, status: AccountStatus, handedOverAt: Option<int>)

  datatype Verification = Verification(
    loanId: nat, status: VerificationStatus, resolvedBy: Option<StaffId>, note: Option<string>)

  /** The approval request of a loan, as the workflow engine sees it; decided at most once. */
  datatype RequestStatus = Undecided | RequestApproved | RequestRejected | Cancelled

  /**
   * Where a verification call stands: it has read the loan; it has read the account and is about to write
   * the loan's status; its external checks are running; it is over.
   */
  datatype CallStage = Reading | Marking(accountId: nat) | Checking(accountId: nat) | Ended

  /** `sawApproved` is what its read of the loan showed, and decides whether it will write the status. */
  datatype VerifyCall = VerifyCall(loanId: nat, customerId: CustomerId, sawApproved: bool, stage: CallStage)

  /** A call resolving an escalation, after its checks and until its writes. */
  datatype ResolveCall = ResolveCall(
    accountId: nat, loanId: nat, actor: StaffId, resolution: Resolution, note: string, ended: bool)

  /**
   * Where an attempt to disburse stands: about to read the loan; the loan's verifications; the product; about
   * to run its transaction under that product; it is over.
   */
  datatype PayoutStage = Opening | Clearing | Pricing | Paying(product: Product) | Over

  datatype Payout = Payout(loanId: nat, stage: PayoutStage)

  datatype Book = Book(
    funds: BranchFunds.Funds, products: map<ProductId, Product>, loans: seq<Option<Loan>>,
    requests: map<nat, RequestStatus>, accounts: seq<Option<Account>>,
    verifications: map<nat, Verification>, calls: seq<VerifyCall>, resolves: seq<ResolveCall>, payouts: seq<Payout>)

  datatype MemberRequest = MemberRequest(
    customerId: CustomerId, amount: int, channel: Channel, bankDetails: Option<string>)

  datatype GroupView = GroupView(branchId: BranchId, eligible: bool, activeMembers: seq<CustomerId>)

  datatype Application = Application(
    group: Option<GroupView>, productId: ProductId, tenureDays: int, requests: seq<MemberRequest>,
    raisedBy: StaffId, consented: CustomerId)

  datatype Changes = Changes(tenureDays: Option<int>, requests: Option<seq<MemberRequest>>)

  datatype Resolution = OverridePass | RejectLoan

  datatype LoanError =
    | ConsentMismatch | BankDetailsRequired(customer: CustomerId) | GroupNotFound | GroupIneligible
    | ProductNotFound | BadTenure | GroupTooSmall | EmptyRequests | NotActiveMember(customer: CustomerId)
    | DuplicateMember(customer: CustomerId) | BadAmount(customer: CustomerId) | AlreadyHasLoan
    | InsufficientFunds | LoanNotFound | NotRaiser | NotPending(status: LoanStatus)
    | UnknownMember(customer: CustomerId) | NotAcceptingVerification(status: LoanStatus) | AccountNotFound
    | NotAwaitingDisbursement | NoBiometricImage | NoteRequired | VerificationNotFound | NotEscalated
    | NotChequePickup | NotDisbursed | AlreadyHandedOver

  // ---------------------------------------------------------------- lookups

  function LoanAt(s: Book, l: nat): Option<Loan> {
    if l < |s.loans| then s.loans[l] else None
  }

  function AccountAt(s: Book, i: nat): Option<Account> {
    if i < |s.accounts| then s.accounts[i] else None
  }

  predicate Belongs(a: Option<Account>, l: nat) {
    a.Some? && a.value.loanId == l
  }

  /** A status that blocks another loan for the same customer. */
  predicate Open(a: Option<Account>) {
    a.Some? && (a.value.status == AccountStatus.Pending || a.value.status == AccountStatus.Active)
  }

  predicate Names(requests: seq<MemberRequest>, c: CustomerId) {
    exists i :: 0 <= i < |requests| && requests[i].customerId == c
  }

  /** The account of customer `c` on loan `l`. */
  function FindMember(accounts: seq<Option<Account>>, l: nat, c: CustomerId): (r: Option<nat>)
    ensures r.Some? ==> r.value < |accounts| && Belongs(accounts[r.value], l) && accounts[r.value].value.customerId == c
    ensures r.None? ==> forall i :: 0 <= i < |accounts| && Belongs(accounts[i], l) ==> accounts[i].value.customerId != c
  {
    if accounts == [] then None
    else
      var last := accounts[|accounts| - 1];
      if Belongs(last, l) && last.value.customerId == c then Some(|accounts| - 1)
      else FindMember(accounts[..|accounts| - 1], l, c)
  }

  function AmountOf(): MemberRequest -> int { (r: MemberRequest) => r.amount }

  /** The principal an account contributes to loan `l`. */
  function PrincipalOn(l: nat): Option<Account> -> int {
    (a: Option<Account>) => if Belongs(a, l) then a.value.principal else 0
  }

  function Principals(accounts: seq<Option<Account>>, l: nat): int {
    Sum(PrincipalOn(l), accounts)
  }

  /** An update of every account of one loan. */
  function UpdateMember(a: Option<Account>, l: nat, f: Account -> Account): Option<Account> {
    if Belongs(a, l) then Some(f(a.value)) else a
  }

  function UpdateMembers(accounts: seq<Option<Account>>, l: nat, f: Account -> Account): (r: seq<Option<Account>>)
    ensures |r| == |accounts|
  {
    seq(|accounts|, i requires 0 <= i < |accounts| => UpdateMember(accounts[i], l, f))
  }

  function SetStatus(s: Book, l: nat, status: LoanStatus): Book
    requires LoanAt(s, l).Some?
  {
    s.(loans := s.loans[l := Some(s.loans[l].value.(status := status))])
  }

  // ---------------------------------------------------------------- raising

  function FirstMissingDetails(requests: seq<MemberRequest>): Option<LoanError> {
    if requests == [] then None
    else
      var earlier, r := FirstMissingDetails(requests[..|requests| - 1]), requests[|requests| - 1];
      if earlier.Some? then earlier
      else if r.channel == Transfer && r.bankDetails.None? then Some(BankDetailsRequired(r.customerId)) else None
  }

  function MemberError(active: seq<CustomerId>, earlier: seq<MemberRequest>, r: MemberRequest): Option<LoanError> {
    if r.customerId !in active then Some(NotActiveMember(r.customerId))
    else if Names(earlier, r.customerId) then Some(DuplicateMember(r.customerId))
    else if r.amount <= 0 then Some(BadAmount(r.customerId))
    else None
  }

  function FirstMemberError(active: seq<CustomerId>, requests: seq<MemberRequest>): Option<LoanError> {
    if requests == [] then None
    else
      var front, r := requests[..|requests| - 1], requests[|requests| - 1];
      var earlier := FirstMemberError(active, front);
      if earlier.Some? then earlier else MemberError(active, front, r)
  }

  predicate SomeOpenAccount(accounts: seq<Option<Account>>, requests: seq<MemberRequest>) {
    exists i :: 0 <= i < |accounts| && Open(accounts[i]) && Names(requests, accounts[i].value.customerId)
  }

  /** The checks of an application, in the order they are made. */
  function CheckRaise(s: Book, app: Application): Option<LoanError> {
    if !Names(app.requests, app.consented) then Some(ConsentMismatch)
    else if FirstMissingDetails(app.requests).Some? then FirstMissingDetails(app.requests)
    else if app.group.None? then Some(GroupNotFound)
    else if !app.group.value.eligible then Some(GroupIneligible)
    else if app.productId !in s.products then Some(ProductNotFound)
    else if app.tenureDays !in s.products[app.productId].tenureOptions then Some(BadTenure)
    else if |app.group.value.activeMembers| < s.products[app.productId].minGroupSize then Some(GroupTooSmall)
    else if app.requests == [] then Some(EmptyRequests)
    else if FirstMemberError(app.group.value.activeMembers, app.requests).Some? then
      FirstMemberError(app.group.value.activeMembers, app.requests)
    else if SomeOpenAccount(s.accounts, app.requests) then Some(AlreadyHasLoan)
    else if BranchFunds.Balance(s.funds, app.group.value.branchId) < Sum(AmountOf(), app.requests) then
      Some(InsufficientFunds)
    else None
  }

  ghost predicate DistinctCustomers(requests: seq<MemberRequest>) {
    forall i, j :: 0 <= i < j < |requests| ==> requests[i].customerId != requests[j].customerId
  }

  ghost predicate AllPositive(requests: seq<MemberRequest>) {
    forall i :: 0 <= i < |requests| ==> requests[i].amount >= 1
  }

  ghost predicate AllDetailed(requests: seq<MemberRequest>) {
    forall i :: 0 <= i < |requests| && requests[i].channel == Transfer ==> requests[i].bankDetails.Some?
  }

  ghost predicate AllActive(requests: seq<MemberRequest>, active: seq<CustomerId>) {
    forall i :: 0 <= i < |requests| ==> requests[i].customerId in active
  }

  lemma {:induction false} NoMissingDetailsIff(requests: seq<MemberRequest>)
    ensures FirstMissingDetails(requests).None? <==> AllDetailed(requests)
  {
    if requests != [] {
      NoMissingDetailsIff(requests[..|requests| - 1]);
    }
  }

  lemma {:induction false} NoMemberErrorIff(active: seq<CustomerId>, requests: seq<MemberRequest>)
    ensures FirstMemberError(active, requests).None?
            <==> AllActive(requests, active) && DistinctCustomers(requests) && AllPositive(requests)
  {
    if requests != [] {
      NoMemberErrorIff(active, requests[..|requests| - 1]);
    }
  }

  /**
   * An application is accepted exactly when one of its members consented, every transfer has bank details,
   * the group is eligible and large enough, the tenure is offered, every named customer is a distinct
   * active member asking a positive amount and holding no pending or active account, and the branch can
   * cover the total.
   */
  lemma RaiseAcceptedIff(s: Book, app: Application)
    ensures CheckRaise(s, app).None? <==>
            && (exists i :: 0 <= i < |app.requests| && app.requests[i].customerId == app.consented)
            && AllDetailed(app.requests)
            && app.group.Some? && app.group.value.eligible && app.productId in s.products
            && app.tenureDays in s.products[app.productId].tenureOptions
            && |app.group.value.activeMembers| >= s.products[app.productId].minGroupSize
            && AllActive(app.requests, app.group.value.activeMembers)
            && DistinctCustomers(app.requests) && AllPositive(app.requests)
            && NoneBlocked(s, app.requests)
            && BranchFunds.Balance(s.funds, app.group.value.branchId) >= Sum(AmountOf(), app.requests)
    ensures CheckRaise(s, app) != Some(EmptyRequests)
  {
    NoMissingDetailsIff(app.requests);
    if app.group.Some? {
      NoMemberErrorIff(app.group.value.activeMembers, app.requests);
      MemberErrorIsNotEmptyRequests(app.group.value.activeMembers, app.requests);
    }
    MissingDetailsIsNotEmptyRequests(app.requests);
  }

  /** No customer named holds an account that is pending or active. */
  ghost predicate NoneBlocked(s: Book, requests: seq<MemberRequest>) {
    forall i, j ::
      0 <= i < |s.accounts| && s.accounts[i].Some? && 0 <= j < |requests| && requests[j].customerId == s.accounts[i].value.customerId ==>
        s.accounts[i].value.status != AccountStatus.Pending && s.accounts[i].value.status != AccountStatus.Active
  }

  lemma {:induction false} MissingDetailsIsNotEmptyRequests(requests: seq<MemberRequest>)
    ensures FirstMissingDetails(requests) != Some(EmptyRequests)
  {
    if requests != [] {
      MissingDetailsIsNotEmptyRequests(requests[..|requests| - 1]);
    }
  }

  lemma {:induction false} MemberErrorIsNotEmptyRequests(active: seq<CustomerId>, requests: seq<MemberRequest>)
    ensures FirstMemberError(active, requests) != Some(EmptyRequests)
  {
    if requests != [] {
      MemberErrorIsNotEmptyRequests(active, requests[..|requests| - 1]);
    }
  }

  function NewLoan(app: Application, branch: BranchId): Loan {
    Loan(branch, app.productId, app.tenureDays, Sum(AmountOf(), app.requests), PendingApproval, app.raisedBy, None)
  }

  function NewAccount(l: nat, r: MemberRequest): Account
    requires r.amount >= 1
  {
    Account(l, r.customerId, r.amount, r.channel, r.bankDetails, [], None, AccountStatus.Pending, None)
  }

  function NewAccounts(l: nat, requests: seq<MemberRequest>): (r: seq<Option<Account>>)
    requires AllPositive(requests)
    ensures |r| == |requests|
  {
    seq(|requests|, i requires 0 <= i < |requests| && requests[i].amount >= 1 => Some(NewAccount(l, requests[i])))
  }

  /** The loan and its accounts are written together; the approval request only afterwards, if at all. */
  function Raise(s: Book, app: Application, initiated: bool): Book {
    if CheckRaise(s, app).Some? then s
    else
      RaiseAcceptedIff(s, app);
      var l := |s.loans|;
      s.(loans := s.loans + [Some(NewLoan(app, app.group.value.branchId))],
         accounts := s.accounts + NewAccounts(l, app.requests),
         requests := if initiated then s.requests[l := Undecided] else s.requests)
  }

  // ---------------------------------------------------------------- editing and deleting

  function CheckRaiser(s: Book, l: nat, actor: StaffId): Option<LoanError> {
    match LoanAt(s, l)
    case None => Some(LoanNotFound)
    case Some(loan) =>
      if loan.raisedBy != actor then Some(NotRaiser)
      else if loan.status != PendingApproval then Some(NotPending(loan.status))
      else None
  }

  function CheckTenure(s: Book, productId: ProductId, tenureDays: Option<int>): Option<LoanError> {
    if tenureDays.None? then None
    else if productId !in s.products then Some(ProductNotFound)
    else if tenureDays.value !in s.products[productId].tenureOptions then Some(BadTenure)
    else None
  }

  function CheckEdit(s: Book, l: nat, actor: StaffId, changes: Changes): Option<LoanError> {
    if CheckRaiser(s, l, actor).Some? then CheckRaiser(s, l, actor)
    else CheckTenure(s, s.loans[l].value.productId, changes.tenureDays)
  }

  function EditError(accounts: seq<Option<Account>>, l: nat, r: MemberRequest): Option<LoanError> {
    if FindMember(accounts, l, r.customerId).None? then Some(UnknownMember(r.customerId))
    else if r.amount <= 0 then Some(BadAmount(r.customerId))
    else if r.channel == Transfer && r.bankDetails.None? then Some(BankDetailsRequired(r.customerId))
    else None
  }

  /** How many requests are saved before the first bad one stops the loop. */
  function SavedEdits(accounts: seq<Option<Account>>, l: nat, requests: seq<MemberRequest>): (k: nat)
    ensures k <= |requests|
    ensures forall i :: 0 <= i < k ==> EditError(accounts, l, requests[i]).None?
    ensures k < |requests| ==> EditError(accounts, l, requests[k]).Some?
  {
    if requests == [] then 0
    else
      var k := SavedEdits(accounts, l, requests[..|requests| - 1]);
      if k == |requests| - 1 && EditError(accounts, l, requests[k]).None? then k + 1 else k
  }

  function Edited(a: Account, r: MemberRequest): Account
    requires r.amount >= 1
  {
    a.(principal := r.amount, channel := r.channel,
       bankDetails := if r.channel == Transfer then r.bankDetails else None)
  }

  ghost predicate NoEditErrors(accounts: seq<Option<Account>>, l: nat, requests: seq<MemberRequest>) {
    forall i :: 0 <= i < |requests| ==> EditError(accounts, l, requests[i]).None?
  }

  /** Each request overwrites its member's account, one after the other. */
  function ApplyEdits(accounts: seq<Option<Account>>, l: nat, requests: seq<MemberRequest>): (r: seq<Option<Account>>)
    requires NoEditErrors(accounts, l, requests)
    ensures |r| == |accounts|
    ensures forall i :: 0 <= i < |r| ==> (r[i].Some? <==> accounts[i].Some?)
  {
    if requests == [] then accounts
    else
      var last := requests[|requests| - 1];
      var r := ApplyEdits(accounts, l, requests[..|requests| - 1]);
      var i := FindMember(accounts, l, last.customerId).value;
      r[i := Some(Edited(r[i].value, last))]
  }

  function RequestedEdits(changes: Changes): seq<MemberRequest> {
    changes.requests.GetOr([])
  }

  /** The accounts saved by an edit, whether or not it runs to its end. */
  function AccountsAfterEdit(s: Book, l: nat, changes: Changes): seq<Option<Account>> {
    var requests := RequestedEdits(changes);
    ApplyEdits(s.accounts, l, requests[..SavedEdits(s.accounts, l, requests)])
  }

  predicate EditCompletes(s: Book, l: nat, changes: Changes) {
    SavedEdits(s.accounts, l, RequestedEdits(changes)) == |RequestedEdits(changes)|
  }

  /** A bad request stops the edit: earlier accounts stay saved, the loan itself is not. */
  function Edit(s: Book, l: nat, actor: StaffId, changes: Changes): Book {
    if CheckEdit(s, l, actor, changes).Some? then s
    else
      var accounts := AccountsAfterEdit(s, l, changes);
      if !EditCompletes(s, l, changes) then s.(accounts := accounts)
      else
        var loan := s.loans[l].value;
        s.(accounts := accounts,
           loans := s.loans[l := Some(loan.(tenureDays := changes.tenureDays.GetOr(loan.tenureDays),
                                            cumulative := Principals(accounts, l)))])
  }

  function RemoveMembers(accounts: seq<Option<Account>>, l: nat): (r: seq<Option<Account>>)
    ensures |r| == |accounts|
  {
    seq(|accounts|, i requires 0 <= i < |accounts| => if Belongs(accounts[i], l) then None else accounts[i])
  }

  function Delete(s: Book, l: nat, actor: StaffId): Book {
    if CheckRaiser(s, l, actor).Some? then s
    else s.(requests := if l in s.requests && s.requests[l] == Undecided then s.requests[l := Cancelled] else s.requests,
            accounts := RemoveMembers(s.accounts, l),
            loans := s.loans[l := None])
  }

  // ---------------------------------------------------------------- approval and rejection

  function Decide(s: Book, l: nat, approved: bool): Book {
    if l in s.requests && s.requests[l] == Undecided
    then s.(requests := s.requests[l := if approved then RequestApproved else RequestRejected])
    else s
  }

  function HandleApproved(s: Book, l: nat): Book {
    if LoanAt(s, l).Some? && s.loans[l].value.status == PendingApproval
    then SetStatus(s, l, LoanStatus.Approved) else s
  }

  function Closing(): Account -> Account {
    (a: Account) => a.(status := AccountStatus.Closed)
  }

  /** Unguarded: whatever the loan's status, it is rejected and all of its accounts are closed. */
  function RejectTheLoan(s: Book, l: nat): Book {
    if LoanAt(s, l).None? then s
    else SetStatus(s, l, LoanStatus.Rejected).(accounts := UpdateMembers(s.accounts, l, Closing()))
  }

  // ---------------------------------------------------------------- verification

  function CheckLoan(s: Book, l: nat): Option<LoanError> {
    match LoanAt(s, l)
    case None => Some(LoanNotFound)
    case Some(loan) =>
      if loan.status != LoanStatus.Approved && loan.status != VerificationInProgress
      then Some(NotAcceptingVerification(loan.status)) else None
  }

  function CheckMember(s: Book, l: nat, c: CustomerId): Option<LoanError> {
    var i := FindMember(s.accounts, l, c);
    if i.None? then Some(AccountNotFound)
    else if s.accounts[i.value].value.status != AccountStatus.Pending then Some(NotAwaitingDisbursement)
    else None
  }

  function SetStage(s: Book, k: nat, stage: CallStage): Book
    requires k < |s.calls|
  {
    s.(calls := s.calls[k := s.calls[k].(stage := stage)])
  }

  /** The read of the loan, with its guard. */
  function BeginVerify(s: Book, l: nat, c: CustomerId): Book {
    if CheckLoan(s, l).Some? then s
    else s.(calls := s.calls + [VerifyCall(l, c, s.loans[l].value.status == LoanStatus.Approved, Reading)])
  }

  /** The read of the account, with its guards. */
  function ReadAccount(s: Book, k: nat): Book {
    if k >= |s.calls| || !s.calls[k].stage.Reading? then s
    else
      var call := s.calls[k];
      if CheckMember(s, call.loanId, call.customerId).Some? then SetStage(s, k, Ended)
      else
        var i := FindMember(s.accounts, call.loanId, call.customerId).value;
        SetStage(s, k, if call.sawApproved then Marking(i) else Checking(i))
  }

  /** The status write, by id only: it does not look at the status it overwrites. */
  function MarkInProgress(s: Book, k: nat): Book {
    if k >= |s.calls| || !s.calls[k].stage.Marking? then s
    else
      var t := SetStage(s, k, Checking(s.calls[k].stage.accountId));
      if LoanAt(s, s.calls[k].loanId).Some? then SetStatus(t, s.calls[k].loanId, VerificationInProgress) else t
  }

  /** The external checks of the call are under way. */
  predicate Running(s: Book, k: nat) {
    k < |s.calls| && s.calls[k].stage.Checking?
  }

  /** The outcome of a call replaces its account's verification, without another look at the loan. */
  function RecordOutcome(s: Book, k: nat, passed: bool): Book
    requires Running(s, k)
  {
    var call := s.calls[k];
    SetStage(s, k, Ended).(verifications := s.verifications[
      call.stage.accountId := Verification(call.loanId, if passed then Passed else Escalated, None, None)])
  }

  /** An attempt to disburse begins; it has read nothing yet. */
  function StartPayout(s: Book, l: nat): Book {
    s.(payouts := s.payouts + [Payout(l, Opening)])
  }

  /** After a pass the call goes on to try to disburse. */
  function FinishVerify(s: Book, k: nat, passed: bool): Book {
    if !Running(s, k) then s
    else if passed then StartPayout(RecordOutcome(s, k, true), s.calls[k].loanId)
    else RecordOutcome(s, k, false)
  }

  /** A call may fail anywhere, keeping what it has written. */
  function AbortVerify(s: Book, k: nat): Book {
    if k < |s.calls| then SetStage(s, k, Ended) else s
  }

  predicate Blank(note: string) {
    forall i :: 0 <= i < |note| ==> note[i] in " \t\r\n"
  }

  function CheckResolve(s: Book, i: nat, note: string): Option<LoanError> {
    if Blank(note) then Some(NoteRequired)
    else if i !in s.verifications then Some(VerificationNotFound)
    else if s.verifications[i].status != Escalated then Some(NotEscalated)
    else None
  }

  /** The checks of a resolution. */
  function BeginResolve(s: Book, i: nat, actor: StaffId, resolution: Resolution, note: string): Book {
    if CheckResolve(s, i, note).Some? then s
    else s.(resolves := s.resolves + [ResolveCall(i, s.verifications[i].loanId, actor, resolution, note, false)])
  }

  predicate Resolving(s: Book, k: nat) {
    k < |s.resolves| && !s.resolves[k].ended
  }

  function EndResolve(s: Book, k: nat): Book
    requires k < |s.resolves|
  {
    s.(resolves := s.resolves[k := s.resolves[k].(ended := true)])
  }

  /** Who resolved the verification and why; an override also passes it. */
  function Resolved(s: Book, r: ResolveCall): Book {
    if r.accountId !in s.verifications then s
    else
      var v := s.verifications[r.accountId];
      s.(verifications := s.verifications[r.accountId := v.(
           status := if r.resolution == OverridePass then Passed else v.status,
           resolvedBy := Some(r.actor), note := Some(r.note))])
  }

  /** The writes of a resolution, without another look at the verification or the loan. */
  function FinishResolve(s: Book, k: nat): Book {
    if !Resolving(s, k) then s
    else
      var r := s.resolves[k];
      var t := EndResolve(s, k);
      match r.resolution
      case RejectLoan => if LoanAt(s, r.loanId).None? then t else Resolved(RejectTheLoan(t, r.loanId), r)
      case OverridePass => StartPayout(Resolved(t, r), r.loanId)
  }

  // ---------------------------------------------------------------- disbursement

  predicate HasPassed(s: Book, i: nat, l: nat) {
    i in s.verifications && s.verifications[i].loanId == l && s.verifications[i].status == Passed
  }

  predicate AllPassed(s: Book, l: nat) {
    && (exists i :: 0 <= i < |s.accounts| && Belongs(s.accounts[i], l))
    && (forall i :: 0 <= i < |s.accounts| && Belongs(s.accounts[i], l) ==> HasPassed(s, i, l))
  }

  function SetPayout(s: Book, k: nat, stage: PayoutStage): Book
    requires k < |s.payouts|
  {
    s.(payouts := s.payouts[k := s.payouts[k].(stage := stage)])
  }

  predicate InVerification(s: Book, l: nat) {
    LoanAt(s, l).Some? && s.loans[l].value.status == VerificationInProgress
  }

  /** The read of the loan, and its status. */
  function OpenPayout(s: Book, k: nat): Book {
    if k >= |s.payouts| || !s.payouts[k].stage.Opening? then s
    else SetPayout(s, k, if InVerification(s, s.payouts[k].loanId) then Clearing else Over)
  }

  /** The reads of its accounts and their verifications. */
  function ClearPayout(s: Book, k: nat): Book {
    if k >= |s.payouts| || !s.payouts[k].stage.Clearing? then s
    else SetPayout(s, k, if AllPassed(s, s.payouts[k].loanId) then Pricing else Over)
  }

  function ProductFor(s: Book, l: nat): Option<Product> {
    if LoanAt(s, l).Some? && s.loans[l].value.productId in s.products then Some(s.products[s.loans[l].value.productId])
    else None
  }

  /** The read of the product. */
  function PricePayout(s: Book, k: nat): Book {
    if k >= |s.payouts| || !s.payouts[k].stage.Pricing? then s
    else
      match ProductFor(s, s.payouts[k].loanId)
      case Some(product) => SetPayout(s, k, Paying(product))
      case None => SetPayout(s, k, Over)
  }

  function WithSchedule(a: Account, schedule: seq<ScheduleEntry>): Account {
    a.(schedule := schedule, outstanding := Some(a.principal + Sum(EntryInterest(), schedule)),
       status := AccountStatus.Active)
  }

  function Activating(product: Product, tenureDays: int, now: int): Account -> Account {
    (a: Account) => WithSchedule(a, BuildSchedule(product, a.principal, tenureDays, now))
  }

  /** All that the transaction itself demands. */
  predicate CanPay(s: Book, l: nat) {
    && LoanAt(s, l).Some?
    && BranchFunds.CanDebit(s.funds, s.loans[l].value.branchId, s.loans[l].value.cumulative)
  }

  function DisburseLoan(s: Book, l: nat, product: Product, now: int): Book
    requires CanPay(s, l)
  {
    var loan := s.loans[l].value;
    s.(funds := BranchFunds.Debit(s.funds, loan.branchId, loan.cumulative),
       accounts := UpdateMembers(s.accounts, l, Activating(product, loan.tenureDays, now)),
       loans := s.loans[l := Some(loan.(status := LoanStatus.Disbursed, disbursedAt := Some(now)))])
  }

  /** One transaction: everything, or nothing at all. It does not look at the loan's status again. */
  function PayOut(s: Book, l: nat, product: Product, now: int): Book {
    if CanPay(s, l) then DisburseLoan(s, l, product, now) else s
  }

  predicate AboutToPay(s: Book, k: nat) {
    k < |s.payouts| && s.payouts[k].stage.Paying?
  }

  function FinishPayout(s: Book, k: nat, now: int): Book {
    if !AboutToPay(s, k) then s
    else PayOut(SetPayout(s, k, Over), s.payouts[k].loanId, s.payouts[k].stage.product, now)
  }

  // ---------------------------------------------------------------- after disbursement

  function CheckHandover(s: Book, i: nat): Option<LoanError> {
    if AccountAt(s, i).None? then Some(AccountNotFound)
    else
      var a := s.accounts[i].value;
      if a.channel != ChequePickup then Some(NotChequePickup)
      else if a.status != AccountStatus.Active then Some(NotDisbursed)
      else if a.handedOverAt.Some? then Some(AlreadyHandedOver)
      else if a.schedule == [] then None
      else if LoanAt(s, a.loanId).None? then Some(LoanNotFound)
      else if s.loans[a.loanId].value.productId !in s.products then Some(ProductNotFound)
      else None
  }

  function HandedOver(s: Book, i: nat, now: int): Account
    requires CheckHandover(s, i).None?
  {
    var a := s.accounts[i].value;
    if a.schedule == [] then a.(handedOverAt := Some(now))
    else
      var loan := s.loans[a.loanId].value;
      a.(handedOverAt := Some(now),
         schedule := Reanchored(a.schedule, Terms(now, s.products[loan.productId].repaymentPeriodDays, loan.tenureDays)))
  }

  function SetAccount(s: Book, i: nat, a: Account): Book
    requires i < |s.accounts|
  {
    s.(accounts := s.accounts[i := Some(a)])
  }

  function ConfirmHandover(s: Book, i: nat, now: int): Book {
    if CheckHandover(s, i).Some? then s else SetAccount(s, i, HandedOver(s, i, now))
  }

  /** Whether the account has ever been disbursed, which is what repayments presuppose. */
  predicate EverScheduled(s: Book, i: nat) {
    AccountAt(s, i).Some? && s.accounts[i].value.outstanding.Some?
  }

  function Repaid(a: Account, amount: nat): Account
    requires a.outstanding.Some?
  {
    var balance := a.outstanding.value;
    var capped := if amount < balance then amount else balance;
    var rest := if balance - capped < 0 then 0 else balance - capped;
    a.(outstanding := Some(rest), status := if rest == 0 then AccountStatus.Closed else a.status)
  }

  function Reversed(a: Account, amount: nat): Account
    requires a.outstanding.Some?
  {
    var rest := a.outstanding.value + amount;
    a.(outstanding := Some(rest),
       status := if a.status == AccountStatus.Closed && rest > 0 then AccountStatus.Active else a.status)
  }

  /** A penalty is added whatever the account's status has become since it was selected. */
  function Penalized(a: Account, amount: nat): Account
    requires a.outstanding.Some?
  {
    a.(outstanding := Some(a.outstanding.value + amount))
  }

  function Repay(s: Book, i: nat, amount: nat): Book {
    if EverScheduled(s, i) then SetAccount(s, i, Repaid(s.accounts[i].value, amount)) else s
  }

  function Reverse(s: Book, i: nat, amount: nat): Book {
    if EverScheduled(s, i) then SetAccount(s, i, Reversed(s.accounts[i].value, amount)) else s
  }

  function Penalize(s: Book, i: nat, amount: nat): Book {
    if EverScheduled(s, i) then SetAccount(s, i, Penalized(s.accounts[i].value, amount)) else s
  }

  predicate AllSettled(s: Book, l: nat) {
    && (exists i :: 0 <= i < |s.accounts| && Belongs(s.accounts[i], l))
    && (forall i :: 0 <= i < |s.accounts| && Belongs(s.accounts[i], l) ==> s.accounts[i].value.status == AccountStatus.Closed)
  }

  function SyncCompletion(s: Book, l: nat): Book {
    if LoanAt(s, l).None? then s
    else
      var status := s.loans[l].value.status;
      if status != LoanStatus.Disbursed && status != LoanStatus.Closed then s
      else if AllSettled(s, l) && status != LoanStatus.Closed then SetStatus(s, l, LoanStatus.Closed)
      else if !AllSettled(s, l) && status == LoanStatus.Closed then SetStatus(s, l, LoanStatus.Disbursed)
      else s
  }

  // ---------------------------------------------------------------- the state machine

  datatype Action =
    | FundStep(fund: BranchFunds.Action)
    | SaveProduct(productId: ProductId, product: Product)
    | RaiseStep(app: Application, initiated: bool)
    | EditStep(loan: nat, actor: StaffId, changes: Changes)
    | DeleteStep(loan: nat, actor: StaffId)
    | DecideStep(loan: nat, approved: bool)
    | DeliverApproved(loan: nat)
    | DeliverRejected(loan: nat)
    | BeginStep(loan: nat, customer: CustomerId)
    | ReadStep(call: nat)
    | MarkStep(call: nat)
    | FinishStep(call: nat, passed: bool)
    | AbortStep(call: nat)
    | BeginResolveStep(account: nat, actor: StaffId, resolution: Resolution, note: string)
    | FinishResolveStep(resolve: nat)
    | RetryStep(loan: nat)
    | OpenStep(payout: nat)
    | ClearStep(payout: nat)
    | PriceStep(payout: nat)
    | PayStep(payout: nat, now: int)
    | HandoverStep(account: nat, now: int)
    | RepayStep(account: nat, amount: nat)
    | ReverseStep(account: nat, amount: nat)
    | PenaltyStep(account: nat, amount: nat)
    | SyncStep(loan: nat)

  /** An event is delivered any number of times, at any later moment, but only for a request so decided. */
  function Next(s: Book, a: Action): Book {
    match a
    case FundStep(fund) => s.(funds := BranchFunds.Next(s.funds, fund))
    case SaveProduct(id, product) => s.(products := s.products[id := product])
    case RaiseStep(app, initiated) => Raise(s, app, initiated)
    case EditStep(l, actor, changes) => Edit(s, l, actor, changes)
    case DeleteStep(l, actor) => Delete(s, l, actor)
    case DecideStep(l, approved) => Decide(s, l, approved)
    case DeliverApproved(l) => if l in s.requests && s.requests[l] == RequestApproved then HandleApproved(s, l) else s
    case DeliverRejected(l) => if l in s.requests && s.requests[l] == RequestRejected then RejectTheLoan(s, l) else s
    case BeginStep(l, c) => BeginVerify(s, l, c)
    case ReadStep(k) => ReadAccount(s, k)
    case MarkStep(k) => MarkInProgress(s, k)
    case FinishStep(k, passed) => FinishVerify(s, k, passed)
    case AbortStep(k) => AbortVerify(s, k)
    case BeginResolveStep(i, actor, resolution, note) => BeginResolve(s, i, actor, resolution, note)
    case FinishResolveStep(k) => FinishResolve(s, k)
    case RetryStep(l) => StartPayout(s, l)
    case OpenStep(k) => OpenPayout(s, k)
    case ClearStep(k) => ClearPayout(s, k)
    case PriceStep(k) => PricePayout(s, k)
    case PayStep(k, now) => FinishPayout(s, k, now)
    case HandoverStep(i, now) => ConfirmHandover(s, i, now)
    case RepayStep(i, amount) => Repay(s, i, amount)
    case ReverseStep(i, amount) => Reverse(s, i, amount)
    case PenaltyStep(i, amount) => Penalize(s, i, amount)
    case SyncStep(l) => SyncCompletion(s, l)
  }

  function Run(s: Book, actions: seq<Action>): Book {
    if actions == [] then s else Next(Run(s, actions[..|actions| - 1]), actions[|actions| - 1])
  }

  /** A database with no loans yet; branches may already be funded and products configured. */
  ghost predicate Initial(s: Book) {
    && BranchFunds.Sound(s.funds)
    && (forall b :: BranchFunds.Spent(s.funds, b) == 0)
    && s.loans == [] && s.requests == map[] && s.accounts == [] && s.verifications == map[] && s.calls == [] && s.resolves == []
    && s.payouts == []
  }
}
