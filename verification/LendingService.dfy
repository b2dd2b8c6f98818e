/** The loan services over their stored collections; each method is proved to be its step of the state machine. */
module LendingService {
  import opened Common
  import opened Schedule
  import opened Lending
  import LendingMembers
  import LendingPasses
  import BranchFunds

  // ---------------------------------------------------------------- one call among others

  /** A call in flight that only its own caller may move on. */
  datatype Own = OwnCall(call: nat) | OwnResolve(resolve: nat) | OwnPayout(payout: nat)

  predicate Moves(a: Action, own: Own) {
    match own
    case OwnCall(k) => (a.ReadStep? || a.MarkStep? || a.FinishStep? || a.AbortStep?) && a.call == k
    case OwnResolve(k) => a.FinishResolveStep? && a.resolve == k
    case OwnPayout(k) => (a.OpenStep? || a.ClearStep? || a.PriceStep? || a.PayStep?) && a.payout == k
  }

  function Moving(own: Own): Action -> bool {
    (a: Action) => Moves(a, own)
  }

  /** The steps of a run that move `own` on. */
  function Steps(trace: seq<Action>, own: Own): seq<Action> {
    Filter(Moving(own), trace)
  }

  datatype Record = CallRecord(call: VerifyCall) | ResolveRecord(resolve: ResolveCall) | PayoutRecord(payout: Payout)

  /** What the state remembers of a call in flight. */
  function RecordOf(s: Book, own: Own): Option<Record> {
    match own
    case OwnCall(k) => if k < |s.calls| then Some(CallRecord(s.calls[k])) else None
    case OwnResolve(k) => if k < |s.resolves| then Some(ResolveRecord(s.resolves[k])) else None
    case OwnPayout(k) => if k < |s.payouts| then Some(PayoutRecord(s.payouts[k])) else None
  }

  /** `t` comes from `s` by the run `trace`, in which `own` takes exactly `steps`, in this order. */
  ghost predicate Ran(s: Book, t: Book, own: Own, trace: seq<Action>, steps: seq<Action>) {
    t == Run(s, trace) && Steps(trace, own) == steps
  }

  lemma {:induction false} RunAppend(s: Book, x: seq<Action>, y: seq<Action>)
    ensures Run(s, x + y) == Run(Run(s, x), y)
  {
    hide Next;
    if y == [] {
      assert x + y == x;
    } else {
      RunAppend(s, x, y[..|y| - 1]);
      assert (x + y)[..|x + y| - 1] == x + y[..|y| - 1];
    }
  }

  lemma NothingRan(s: Book, own: Own)
    ensures Ran(s, s, own, [], [])
  {
  }

  lemma OneStep(s: Book, a: Action, own: Own)
    ensures Ran(s, Next(s, a), own, [a], if Moves(a, own) then [a] else [])
  {
    hide Next;
    assert [a][..0] == [];
    assert Run(s, [a]) == Next(Run(s, []), a);
    assert Moving(own)(a) == Moves(a, own) && Steps([], own) == [];
    assert Filter(Moving(own), [a]) == if Moves(a, own) then Filter(Moving(own), []) + [a] else Filter(Moving(own), []);
  }

  lemma Then(s: Book, t: Book, u: Book, own: Own, x: seq<Action>, steps: seq<Action>, y: seq<Action>, more: seq<Action>)
    requires Ran(s, t, own, x, steps) && Ran(t, u, own, y, more)
    ensures Ran(s, u, own, x + y, steps + more)
  {
    hide Next;
    RunAppend(s, x, y);
    FilterAppend(Moving(own), x, y);
  }

  /** A step of one's own, then steps of others, then the rest. */
  lemma Chain(s: Book, a: Action, t: Book, others: seq<Action>, u: Book, rest: seq<Action>, v: Book, own: Own, steps: seq<Action>)
    requires t == Next(s, a) && Ran(t, u, own, others, []) && Ran(u, v, own, rest, steps)
    ensures Ran(s, v, own, [a] + others + rest, (if Moves(a, own) then [a] else []) + steps)
  {
    hide Next, Ran;
    var first := if Moves(a, own) then [a] else [];
    OneStep(s, a, own);
    Then(s, t, u, own, [a], first, others, []);
    Then(s, u, v, own, [a] + others, first + [], rest, steps);
    assert first + [] + steps == first + steps;
  }

  // ---------------------------------------------------------------- which step each operation is

  lemma VerifyIs(s: Book, l: nat, c: CustomerId, k: nat)
    ensures Next(s, BeginStep(l, c)) == BeginVerify(s, l, c)
    ensures Next(s, ReadStep(k)) == ReadAccount(s, k)
    ensures Next(s, MarkStep(k)) == MarkInProgress(s, k)
  {
    hide BeginVerify, ReadAccount, MarkInProgress;
  }

  lemma ConcludeIs(s: Book, k: nat, passed: Option<bool>)
    ensures Next(s, LastStep(k, passed)) == Concluded(s, k, passed)
  {
    hide FinishVerify, AbortVerify;
  }

  lemma BeginResolveIs(s: Book, i: nat, actor: StaffId, resolution: Resolution, note: string)
    ensures Next(s, BeginResolveStep(i, actor, resolution, note)) == BeginResolve(s, i, actor, resolution, note)
  {
    hide BeginResolve;
  }

  lemma FinishResolveIs(s: Book, k: nat)
    ensures Next(s, FinishResolveStep(k)) == FinishResolve(s, k)
  {
    hide FinishResolve;
  }

  lemma StartIs(s: Book, l: nat)
    ensures Next(s, RetryStep(l)) == StartPayout(s, l)
  {
    hide StartPayout;
  }

  lemma OpenIs(s: Book, k: nat)
    ensures Next(s, OpenStep(k)) == OpenPayout(s, k)
  {
    hide OpenPayout;
  }

  lemma ClearIs(s: Book, k: nat)
    ensures Next(s, ClearStep(k)) == ClearPayout(s, k)
  {
    hide ClearPayout;
  }

  lemma PriceIs(s: Book, k: nat)
    ensures Next(s, PriceStep(k)) == PricePayout(s, k)
  {
    hide PricePayout;
  }

  lemma PayIs(s: Book, k: nat, now: int)
    ensures Next(s, PayStep(k, now)) == FinishPayout(s, k, now)
  {
    hide FinishPayout;
  }

  /** The last step of a verification call: the upsert, or the abort when there is no image to compare with. */
  function LastStep(k: nat, passed: Option<bool>): Action {
    if passed.Some? then FinishStep(k, passed.value) else AbortStep(k)
  }

  function Concluded(s: Book, k: nat, passed: Option<bool>): Book {
    if passed.Some? then FinishVerify(s, k, passed.value) else AbortVerify(s, k)
  }

  /** The steps of a verification call after its read of the loan, by how it went. */
  predicate CallSteps(steps: seq<Action>, k: nat, saw: bool, passed: Option<bool>, error: Option<LoanError>) {
    if error == None || error == Some(NoBiometricImage)
    then (error == None <==> passed.Some?)
      && steps == [ReadStep(k)] + ((if saw then [MarkStep(k)] else []) + [LastStep(k, passed)])
    else steps == [ReadStep(k)]
  }

  /** After a pass the newest of the `count` attempts is run through; otherwise there is none. */
  ghost predicate Follows(attempt: seq<Action>, started: bool, count: nat, now: int) {
    if started then count >= 1 && IsPayout(Steps(attempt, OwnPayout(count - 1)), count - 1, now)
    else attempt == []
  }

  /** As far as the reads of the attempt let it go on. */
  predicate IsPayout(steps: seq<Action>, k: nat, now: int) {
    || steps == [OpenStep(k)]
    || steps == [OpenStep(k), ClearStep(k)]
    || steps == [OpenStep(k), ClearStep(k), PriceStep(k)]
    || steps == [OpenStep(k), ClearStep(k), PriceStep(k), PayStep(k, now)]
  }

  /** How the attempt went: it stops at the first read that does not let it go on. */
  predicate PayoutSteps(steps: seq<Action>, k: nat, now: int, error: Option<LoanError>) {
    && IsPayout(steps, k, now)
    && match error
       case Some(LoanNotFound) => |steps| == 1
       case Some(ProductNotFound) => |steps| == 3
       case Some(InsufficientFunds) => |steps| == 4
       case Some(_) => false
       case None => |steps| != 3
  }

  class LendingStore {
    const fundStore: BranchFunds.BranchFundStore
    var products: map<ProductId, Product>
    var loans: seq<Option<Loan>>
    var requests: map<nat, RequestStatus>
    var accounts: seq<Option<Account>>
    var verifications: map<nat, Verification>
    var calls: seq<VerifyCall>
    var resolves: seq<ResolveCall>
    var payouts: seq<Payout>

    function State(): Book
      reads this, fundStore
    {
      Book(fundStore.State(), products, loans, requests, accounts, verifications, calls, resolves, payouts)
    }

    constructor (fundStore: BranchFunds.BranchFundStore, products: map<ProductId, Product>)
      ensures this.fundStore == fundStore
      ensures State() == Book(fundStore.State(), products, [], map[], [], map[], [], [], [])
    {
      this.fundStore := fundStore;
      this.products := products;
      loans, requests, accounts, verifications, calls, resolves, payouts := [], map[], [], map[], [], [], [];
    }

    // ---------------------------------------------------------------- raising

    method CheckBankDetails(memberLoanRequests: seq<MemberRequest>) returns (error: Option<LoanError>)
      ensures error == FirstMissingDetails(memberLoanRequests)
    {
      error := None;
      for i := 0 to |memberLoanRequests|
        invariant error == FirstMissingDetails(memberLoanRequests[..i])
      {
        assert memberLoanRequests[..i + 1][..i] == memberLoanRequests[..i];
        var request := memberLoanRequests[i];
        if error.None? && request.channel == Transfer && request.bankDetails.None? {
          error := Some(BankDetailsRequired(request.customerId));
        }
      }
      assert memberLoanRequests[..|memberLoanRequests|] == memberLoanRequests;
    }

    method CheckMembers(active: seq<CustomerId>, memberLoanRequests: seq<MemberRequest>) returns (error: Option<LoanError>)
      ensures error == FirstMemberError(active, memberLoanRequests)
    {
      error := None;
      var requestedCustomerIds: set<CustomerId> := {};
      for i := 0 to |memberLoanRequests|
        invariant error == FirstMemberError(active, memberLoanRequests[..i])
        invariant forall c :: c in requestedCustomerIds <==> Names(memberLoanRequests[..i], c)
      {
        assert memberLoanRequests[..i + 1][..i] == memberLoanRequests[..i];
        var request := memberLoanRequests[i];
        if error.None? {
          if request.customerId !in active {
            error := Some(NotActiveMember(request.customerId));
          } else if request.customerId in requestedCustomerIds {
            error := Some(DuplicateMember(request.customerId));
          } else if request.amount <= 0 {
            error := Some(BadAmount(request.customerId));
          }
        }
        requestedCustomerIds := requestedCustomerIds + {request.customerId};
        NamesSnoc(memberLoanRequests, i);
      }
      assert memberLoanRequests[..|memberLoanRequests|] == memberLoanRequests;
    }

    lemma NamesSnoc(requests: seq<MemberRequest>, i: nat)
      requires i < |requests|
      ensures forall c :: Names(requests[..i + 1], c) <==> Names(requests[..i], c) || c == requests[i].customerId
    {
      forall c
        ensures Names(requests[..i + 1], c) <==> Names(requests[..i], c) || c == requests[i].customerId
      {
        if Names(requests[..i], c) {
          var j :| 0 <= j < i && requests[..i][j].customerId == c;
          assert requests[..i + 1][j].customerId == c;
        }
        if c == requests[i].customerId {
          assert requests[..i + 1][i].customerId == c;
        }
      }
    }

    method FindOpenAccount(memberLoanRequests: seq<MemberRequest>) returns (found: bool)
      ensures found == SomeOpenAccount(accounts, memberLoanRequests)
    {
      found := false;
      for i := 0 to |accounts|
        invariant found <==> exists j :: 0 <= j < i && Open(accounts[j]) && Names(memberLoanRequests, accounts[j].value.customerId)
      {
        if Open(accounts[i]) && Names(memberLoanRequests, accounts[i].value.customerId) {
          found := true;
        }
      }
    }

    method TotalRequested(memberLoanRequests: seq<MemberRequest>) returns (total: int)
      ensures total == Sum(AmountOf(), memberLoanRequests)
    {
      total := 0;
      for i := 0 to |memberLoanRequests|
        invariant total == Sum(AmountOf(), memberLoanRequests[..i])
      {
        assert memberLoanRequests[..i + 1] == memberLoanRequests[..i] + [memberLoanRequests[i]];
        SumSnoc(AmountOf(), memberLoanRequests[..i], memberLoanRequests[i]);
        total := total + memberLoanRequests[i].amount;
      }
      assert memberLoanRequests[..|memberLoanRequests|] == memberLoanRequests;
    }

    /** `initiated` tells whether the approval request could be started after the loan had been written. */
    method RaiseApplication(app: Application, initiated: bool) returns (r: Result<nat, LoanError>)
      modifies this
      ensures State() == Raise(old(State()), app, initiated)
      ensures r == match CheckRaise(old(State()), app) case Some(e) => Err(e) case None => Ok(|old(loans)|)
    {
      ghost var before := State();
      RaiseAcceptedIff(before, app);
      if !Names(app.requests, app.consented) {
        return Err(ConsentMismatch);
      }
      var error := CheckBankDetails(app.requests);
      if error.Some? {
        return Err(error.value);
      }
      if app.group.None? {
        return Err(GroupNotFound);
      }
      var group := app.group.value;
      if !group.eligible {
        return Err(GroupIneligible);
      }
      if app.productId !in products {
        return Err(ProductNotFound);
      }
      if app.tenureDays !in products[app.productId].tenureOptions {
        return Err(BadTenure);
      }
      if |group.activeMembers| < products[app.productId].minGroupSize {
        return Err(GroupTooSmall);
      }
      error := CheckMembers(group.activeMembers, app.requests);
      if error.Some? {
        return Err(error.value);
      }
      var existing := FindOpenAccount(app.requests);
      if existing {
        return Err(AlreadyHasLoan);
      }
      var cumulativeAmountKobo := TotalRequested(app.requests);
      if fundStore.GetBalanceOf(group.branchId) < cumulativeAmountKobo {
        return Err(InsufficientFunds);
      }
      var l := |loans|;
      CreateLoan(app, l, cumulativeAmountKobo);
      if initiated {
        requests := requests[l := Undecided];
      }
      return Ok(l);
    }

    /** The transaction of an accepted application. */
    method CreateLoan(app: Application, l: nat, cumulativeAmountKobo: int)
      requires app.group.Some? && AllPositive(app.requests)
      requires cumulativeAmountKobo == Sum(AmountOf(), app.requests)
      modifies this`loans, this`accounts
      ensures loans == old(loans) + [Some(NewLoan(app, app.group.value.branchId))]
      ensures accounts == old(accounts) + NewAccounts(l, app.requests)
    {
      loans := loans + [Some(Loan(app.group.value.branchId, app.productId, app.tenureDays, cumulativeAmountKobo,
                                  PendingApproval, app.raisedBy, None))];
      for i := 0 to |app.requests|
        invariant loans == old(loans) + [Some(NewLoan(app, app.group.value.branchId))]
        invariant accounts == old(accounts) + NewAccounts(l, app.requests)[..i]
      {
        assert app.requests[i].amount >= 1;
        accounts := accounts + [Some(NewAccount(l, app.requests[i]))];
      }
    }

    // ---------------------------------------------------------------- editing and deleting

    method AssertEditable(l: nat, actor: StaffId) returns (error: Option<LoanError>)
      ensures error == CheckRaiser(State(), l, actor)
    {
      if l >= |loans| || loans[l].None? {
        return Some(LoanNotFound);
      }
      var loan := loans[l].value;
      if loan.raisedBy != actor {
        return Some(NotRaiser);
      }
      if loan.status != PendingApproval {
        return Some(NotPending(loan.status));
      }
      return None;
    }

    /** Saves the requests one account at a time, up to the first bad one. */
    method SaveMemberRequests(l: nat, memberLoanRequests: seq<MemberRequest>) returns (error: Option<LoanError>)
      modifies this`accounts
      ensures var k := SavedEdits(old(accounts), l, memberLoanRequests);
              && accounts == ApplyEdits(old(accounts), l, memberLoanRequests[..k])
              && error == if k == |memberLoanRequests| then None else EditError(old(accounts), l, memberLoanRequests[k])
    {
      var found := accounts;
      error := None;
      var i := 0;
      while i < |memberLoanRequests|
        invariant 0 <= i <= |memberLoanRequests| && error.None?
        invariant SavedEdits(found, l, memberLoanRequests[..i]) == i
        invariant NoEditErrors(found, l, memberLoanRequests[..i])
        invariant accounts == ApplyEdits(found, l, memberLoanRequests[..i])
      {
        assert memberLoanRequests[..i + 1][..i] == memberLoanRequests[..i];
        var request := memberLoanRequests[i];
        error := EditError(found, l, request);
        if error.Some? {
          SavedEditsStop(found, l, memberLoanRequests, i);
          return;
        }
        var account := FindMember(found, l, request.customerId).value;
        accounts := accounts[account := Some(Edited(accounts[account].value, request))];
        i := i + 1;
      }
      assert memberLoanRequests[..|memberLoanRequests|] == memberLoanRequests;
    }

    lemma SavedEditsStop(found: seq<Option<Account>>, l: nat, edits: seq<MemberRequest>, i: nat)
      requires i < |edits| && EditError(found, l, edits[i]).Some?
      requires NoEditErrors(found, l, edits[..i])
      ensures SavedEdits(found, l, edits) == i
    {
      forall j | 0 <= j < i
        ensures EditError(found, l, edits[j]).None?
      {
        assert edits[..i][j] == edits[j];
      }
    }

    method TotalPrincipal(l: nat) returns (total: int)
      ensures total == Principals(accounts, l)
    {
      total := 0;
      for i := 0 to |accounts|
        invariant total == Principals(accounts[..i], l)
      {
        assert accounts[..i + 1] == accounts[..i] + [accounts[i]];
        SumSnoc(PrincipalOn(l), accounts[..i], accounts[i]);
        if Belongs(accounts[i], l) {
          total := total + accounts[i].value.principal;
        }
      }
      assert accounts[..|accounts|] == accounts;
    }

    method UpdatePendingApplication(l: nat, actor: StaffId, changes: Changes) returns (error: Option<LoanError>)
      modifies this
      ensures State() == Edit(old(State()), l, actor, changes)
      ensures error.None? <==> CheckEdit(old(State()), l, actor, changes).None? && EditCompletes(old(State()), l, changes)
      ensures error.None? ==> LoanAt(State(), l).Some? && loans[l].value.cumulative == Principals(accounts, l)
    {
      error := AssertEditable(l, actor);
      if error.Some? {
        return;
      }
      var loan := loans[l].value;
      if changes.tenureDays.Some? {
        if loan.productId !in products {
          return Some(ProductNotFound);
        }
        if changes.tenureDays.value !in products[loan.productId].tenureOptions {
          return Some(BadTenure);
        }
        loan := loan.(tenureDays := changes.tenureDays.value);
      }
      if changes.requests.Some? {
        error := SaveMemberRequests(l, changes.requests.value);
        if error.Some? {
          return;
        }
      }
      var total := TotalPrincipal(l);
      loans := loans[l := Some(loan.(cumulative := total))];
    }

    method DeleteLoan(l: nat, actor: StaffId) returns (error: Option<LoanError>)
      modifies this
      ensures State() == Delete(old(State()), l, actor)
      ensures error == CheckRaiser(old(State()), l, actor)
    {
      error := AssertEditable(l, actor);
      if error.Some? {
        return;
      }
      if l in requests && requests[l] == Undecided {
        requests := requests[l := Cancelled];
      }
      DeleteAccounts(l);
      loans := loans[l := None];
    }

    method DeleteAccounts(l: nat)
      modifies this`accounts
      ensures accounts == RemoveMembers(old(accounts), l)
    {
      var all := accounts;
      for i := 0 to |all|
        invariant |accounts| == |all|
        invariant accounts[..i] == RemoveMembers(all, l)[..i] && accounts[i..] == all[i..]
      {
        assert accounts[i] == accounts[i..][0];
        if Belongs(all[i], l) {
          accounts := accounts[i := None];
        }
      }
    }

    // ---------------------------------------------------------------- approval and rejection

    method HandleWorkflowApproved(l: nat)
      modifies this`loans
      ensures State() == HandleApproved(old(State()), l)
    {
      if l < |loans| && loans[l].Some? && loans[l].value.status == PendingApproval {
        loans := loans[l := Some(loans[l].value.(status := LoanStatus.Approved))];
      }
    }

    /** Shared by the workflow's rejections and by escalations resolved against the loan. */
    method RejectLoanAndAccounts(l: nat) returns (error: Option<LoanError>)
      modifies this`loans, this`accounts
      ensures State() == RejectTheLoan(old(State()), l)
      ensures error == if LoanAt(old(State()), l).None? then Some(LoanNotFound) else None
    {
      if l >= |loans| || loans[l].None? {
        return Some(LoanNotFound);
      }
      loans := loans[l := Some(loans[l].value.(status := LoanStatus.Rejected))];
      CloseAccounts(l);
      return None;
    }

    method CloseAccounts(l: nat)
      modifies this`accounts
      ensures accounts == UpdateMembers(old(accounts), l, Closing())
    {
      var all := accounts;
      for i := 0 to |all|
        invariant |accounts| == |all|
        invariant accounts[..i] == UpdateMembers(all, l, Closing())[..i] && accounts[i..] == all[i..]
      {
        assert accounts[i] == accounts[i..][0];
        if Belongs(all[i], l) {
          accounts := accounts[i := Some(all[i].value.(status := AccountStatus.Closed))];
        }
      }
    }

    // ---------------------------------------------------------------- disbursement

    method EveryMemberPassed(l: nat) returns (all: bool)
      ensures all == AllPassed(State(), l)
      ensures all <==> LendingPasses.AllCleared(State(), l, {})
    {
      LendingPasses.AllPassedIff(State(), l);
      all := true;
      var some := false;
      for i := 0 to |accounts|
        invariant some <==> exists j :: 0 <= j < i && Belongs(accounts[j], l)
        invariant all <==> forall j :: 0 <= j < i && Belongs(accounts[j], l) ==> HasPassed(State(), j, l)
      {
        if Belongs(accounts[i], l) {
          some := true;
          if !(i in verifications && verifications[i].loanId == l && verifications[i].status == Passed) {
            assert !HasPassed(State(), i, l);
            all := false;
          }
        }
      }
      all := all && some;
    }

    method ActivateAccounts(l: nat, product: Product, tenureDays: int, disbursementDate: int)
      modifies this`accounts
      ensures accounts == UpdateMembers(old(accounts), l, Activating(product, tenureDays, disbursementDate))
    {
      var all := accounts;
      ghost var f := Activating(product, tenureDays, disbursementDate);
      for i := 0 to |all|
        invariant |accounts| == |all|
        invariant forall j :: 0 <= j < i ==> accounts[j] == UpdateMember(all[j], l, f)
        invariant forall j :: i <= j < |all| ==> accounts[j] == all[j]
      {
        if Belongs(all[i], l) {
          var activated := Activate(all[i].value, product, tenureDays, disbursementDate);
          accounts := accounts[i := Some(activated)];
        }
      }
    }

    method Activate(account: Account, product: Product, tenureDays: int, disbursementDate: int) returns (r: Account)
      ensures r == Activating(product, tenureDays, disbursementDate)(account)
    {
      var schedule := GenerateSchedule(product, account.principal, tenureDays, disbursementDate);
      var totalInterestKobo := TotalInterest(schedule);
      return account.(schedule := schedule, outstanding := Some(account.principal + totalInterestKobo),
                      status := AccountStatus.Active);
    }

    method TotalInterest(schedule: seq<ScheduleEntry>) returns (total: int)
      ensures total == Sum(EntryInterest(), schedule)
    {
      total := 0;
      for i := 0 to |schedule|
        invariant total == Sum(EntryInterest(), schedule[..i])
      {
        assert schedule[..i + 1] == schedule[..i] + [schedule[i]];
        SumSnoc(EntryInterest(), schedule[..i], schedule[i]);
        total := total + schedule[i].interestPortion;
      }
      assert schedule[..|schedule|] == schedule;
    }

    // ---------------------------------------------------------------- other callers

    method Adopt(after: Book)
      modifies this, fundStore
      ensures State() == after
    {
      fundStore.balances, fundStore.fundings, fundStore.calls := after.funds.balances, after.funds.fundings, after.funds.calls;
      products, loans, requests, accounts := after.products, after.loans, after.requests, after.accounts;
      verifications, calls, resolves, payouts := after.verifications, after.calls, after.resolves, after.payouts;
    }

    /** Any steps of other callers; what `own` has in flight stays as it is. */
    method Interfere(own: Own) returns (ghost trace: seq<Action>)
      requires RecordOf(State(), own).Some?
      modifies this, fundStore
      ensures Ran(old(State()), State(), own, trace, [])
      ensures RecordOf(State(), own) == old(RecordOf(State(), own))
    {
      ghost var start, record := State(), RecordOf(State(), own);
      trace := [];
      NothingRan(start, own);
      var steps: nat := *;
      while steps > 0
        invariant Ran(start, State(), own, trace, [])
        invariant RecordOf(State(), own) == record
      {
        var action: Action := *;
        if !Moves(action, own) {
          ghost var before := State();
          OthersLeaveIt(before, action, own);
          Adopt(Next(State(), action));
          OneStep(before, action, own);
          Then(start, before, State(), own, trace, [], [action], []);
          trace := trace + [action];
        }
        steps := steps - 1;
      }
    }

    lemma OthersLeaveIt(s: Book, a: Action, own: Own)
      requires RecordOf(s, own).Some? && !Moves(a, own)
      ensures RecordOf(Next(s, a), own) == RecordOf(s, own)
    {
      hide Next;
      if a.BeginStep? || a.ReadStep? || a.MarkStep? || a.AbortStep? {
        CallLeavesIt(s, a, own);
      } else if a.FinishStep? || a.BeginResolveStep? || a.FinishResolveStep? {
        OutcomeLeavesIt(s, a, own);
      } else if a.RetryStep? || a.OpenStep? || a.ClearStep? || a.PriceStep? || a.PayStep? {
        PayoutLeavesIt(s, a, own);
      } else {
        KeepsCalls(s, a);
      }
    }

    lemma CallLeavesIt(s: Book, a: Action, own: Own)
      requires RecordOf(s, own).Some? && !Moves(a, own)
      requires a.BeginStep? || a.ReadStep? || a.MarkStep? || a.AbortStep?
      ensures RecordOf(Next(s, a), own) == RecordOf(s, own)
    {
    }

    lemma OutcomeLeavesIt(s: Book, a: Action, own: Own)
      requires RecordOf(s, own).Some? && !Moves(a, own)
      requires a.FinishStep? || a.BeginResolveStep? || a.FinishResolveStep?
      ensures RecordOf(Next(s, a), own) == RecordOf(s, own)
    {
    }

    lemma PayoutLeavesIt(s: Book, a: Action, own: Own)
      requires RecordOf(s, own).Some? && !Moves(a, own)
      requires a.RetryStep? || a.OpenStep? || a.ClearStep? || a.PriceStep? || a.PayStep?
      ensures RecordOf(Next(s, a), own) == RecordOf(s, own)
    {
    }

    lemma KeepsCalls(s: Book, a: Action)
      requires !(a.BeginStep? || a.ReadStep? || a.MarkStep? || a.AbortStep?)
      requires !(a.FinishStep? || a.BeginResolveStep? || a.FinishResolveStep?)
      requires !(a.RetryStep? || a.OpenStep? || a.ClearStep? || a.PriceStep? || a.PayStep?)
      ensures Next(s, a).calls == s.calls && Next(s, a).resolves == s.resolves && Next(s, a).payouts == s.payouts
    {
    }

    // ---------------------------------------------------------------- attempts to disburse

    method SetPayoutStage(k: nat, stage: PayoutStage)
      requires k < |payouts|
      modifies this`payouts
      ensures State() == SetPayout(old(State()), k, stage)
    {
      payouts := payouts[k := payouts[k].(stage := stage)];
    }

    /** The read of the loan: only one in verification goes on. */
    method ReadForPayout(k: nat) returns (error: Option<LoanError>)
      requires k < |payouts| && payouts[k].stage.Opening?
      modifies this`payouts
      ensures State() == OpenPayout(old(State()), k)
      ensures error == if LoanAt(old(State()), old(payouts)[k].loanId).None? then Some(LoanNotFound) else None
    {
      var l := payouts[k].loanId;
      if l >= |loans| || loans[l].None? {
        SetPayoutStage(k, Over);
        return Some(LoanNotFound);
      }
      SetPayoutStage(k, if loans[l].value.status == VerificationInProgress then Clearing else Over);
      return None;
    }

    /** The reads of the accounts and their verifications. */
    method CheckMembersPassed(k: nat)
      requires k < |payouts| && payouts[k].stage.Clearing?
      modifies this`payouts
      ensures State() == ClearPayout(old(State()), k)
      ensures payouts[k].stage == if LendingPasses.AllCleared(old(State()), old(payouts)[k].loanId, {}) then Pricing else Over
    {
      LendingPasses.AllPassedIff(State(), payouts[k].loanId);
      var allPassed := EveryMemberPassed(payouts[k].loanId);
      SetPayoutStage(k, if allPassed then Pricing else Over);
    }

    /** The read of the product. */
    method ReadProduct(k: nat) returns (error: Option<LoanError>)
      requires k < |payouts| && payouts[k].stage.Pricing?
      modifies this`payouts
      ensures State() == PricePayout(old(State()), k)
      ensures error == if ProductFor(old(State()), old(payouts)[k].loanId).None? then Some(ProductNotFound) else None
      ensures error.None? ==> AboutToPay(State(), k)
    {
      var l := payouts[k].loanId;
      if l < |loans| && loans[l].Some? && loans[l].value.productId in products {
        SetPayoutStage(k, Paying(products[loans[l].value.productId]));
        return None;
      }
      SetPayoutStage(k, Over);
      return Some(ProductNotFound);
    }

    /** The transaction: a guarded debit, and then the accounts and the loan, whatever they have become. */
    method Disburse(k: nat, now: int) returns (error: Option<LoanError>)
      requires AboutToPay(State(), k)
      modifies this`payouts, this`loans, this`accounts, fundStore
      ensures State() == FinishPayout(old(State()), k, now)
      ensures error == if CanPay(old(State()), old(payouts)[k].loanId) then None else Some(InsufficientFunds)
    {
      var l, product := payouts[k].loanId, payouts[k].stage.product;
      SetPayoutStage(k, Over);
      if l >= |loans| || loans[l].None? {
        return Some(InsufficientFunds);
      }
      var loan := loans[l].value;
      var debited := fundStore.DebitBranch(loan.branchId, loan.cumulative);
      if !debited {
        return Some(InsufficientFunds);
      }
      ActivateAccounts(l, product, loan.tenureDays, now);
      loans := loans[l := Some(loan.(status := LoanStatus.Disbursed, disbursedAt := Some(now)))];
      return None;
    }

    /** The attempt from its read of the product. */
    method PriceAndDisburse(k: nat, now: int) returns (error: Option<LoanError>, ghost trace: seq<Action>)
      requires k < |payouts| && payouts[k].stage.Pricing?
      modifies this, fundStore
      ensures Ran(old(State()), State(), OwnPayout(k), trace,
                  [PriceStep(k)] + if error == Some(ProductNotFound) then [] else [PayStep(k, now)])
      ensures error == None || error == Some(ProductNotFound) || error == Some(InsufficientFunds)
    {
      hide Next, Ran, PricePayout, FinishPayout;
      ghost var start := State();
      var own := OwnPayout(k);
      PriceIs(start, k);
      error := ReadProduct(k);
      if error.Some? {
        OneStep(start, PriceStep(k), own);
        assert [PriceStep(k)] + [] == [PriceStep(k)];
        return error, [PriceStep(k)];
      }
      ghost var priced := State();
      ghost var others := Interfere(own);
      ghost var before := State();
      PayIs(before, k, now);
      error := Disburse(k, now);
      OneStep(before, PayStep(k, now), own);
      Chain(start, PriceStep(k), priced, others, before, [PayStep(k, now)], State(), own, [PayStep(k, now)]);
      trace := [PriceStep(k)] + others + [PayStep(k, now)];
    }

    /** The attempt from its reads of the verifications. */
    method ClearAndDisburse(k: nat, now: int) returns (error: Option<LoanError>, ghost trace: seq<Action>, ghost steps: seq<Action>)
      requires k < |payouts| && payouts[k].stage.Clearing?
      modifies this, fundStore
      ensures Ran(old(State()), State(), OwnPayout(k), trace, steps) && PayoutSteps([OpenStep(k)] + steps, k, now, error)
      ensures error != Some(LoanNotFound)
    {
      hide Next, Ran;
      ghost var start := State();
      var own := OwnPayout(k);
      ClearIs(start, k);
      CheckMembersPassed(k);
      if payouts[k].stage.Over? {
        OneStep(start, ClearStep(k), own);
        return None, [ClearStep(k)], [ClearStep(k)];
      }
      ghost var cleared := State();
      ghost var others := Interfere(own);
      ghost var before := State();
      ghost var rest;
      error, rest := PriceAndDisburse(k, now);
      ghost var more := [PriceStep(k)] + if error == Some(ProductNotFound) then [] else [PayStep(k, now)];
      Chain(start, ClearStep(k), cleared, others, before, rest, State(), own, more);
      trace, steps := [ClearStep(k)] + others + rest, [ClearStep(k)] + more;
    }

    /** The attempt from its read of the loan. */
    method RunPayout(k: nat, now: int) returns (error: Option<LoanError>, ghost trace: seq<Action>, ghost steps: seq<Action>)
      requires k < |payouts| && payouts[k].stage.Opening?
      modifies this, fundStore
      ensures Ran(old(State()), State(), OwnPayout(k), trace, steps) && PayoutSteps(steps, k, now, error)
    {
      hide Next, Ran;
      ghost var start := State();
      var own := OwnPayout(k);
      OpenIs(start, k);
      error := ReadForPayout(k);
      if error.Some? || payouts[k].stage.Over? {
        OneStep(start, OpenStep(k), own);
        return error, [OpenStep(k)], [OpenStep(k)];
      }
      ghost var looked := State();
      ghost var others := Interfere(own);
      ghost var before := State();
      ghost var rest, more;
      error, rest, more := ClearAndDisburse(k, now);
      Chain(start, OpenStep(k), looked, others, before, rest, State(), own, more);
      trace, steps := [OpenStep(k)] + others + rest, [OpenStep(k)] + more;
    }

    /** An attempt that a verification call has started: other callers first, then the attempt; its errors are logged only. */
    method TryCheckAndDisburse(k: nat, now: int) returns (ghost trace: seq<Action>)
      requires k < |payouts| && payouts[k].stage.Opening?
      modifies this, fundStore
      ensures State() == Run(old(State()), trace) && IsPayout(Steps(trace, OwnPayout(k)), k, now)
    {
      hide Next, Run, Steps;
      ghost var start := State();
      var own := OwnPayout(k);
      ghost var others := Interfere(own);
      ghost var before := State();
      var ignored;
      ghost var rest, steps;
      ignored, rest, steps := RunPayout(k, now);
      Then(start, before, State(), own, others, [], rest, steps);
      assert [] + steps == steps;
      trace := others + rest;
    }

    /**
     * Meant to be safe to call repeatedly. Other callers, other attempts for the same loan among them, run
     * between all of its database operations: what happens is a run of the state machine in which this
     * attempt takes its own steps in order.
     */
    method CheckAndDisburseLoan(l: nat, now: int) returns (error: Option<LoanError>, ghost trace: seq<Action>)
      modifies this, fundStore
      ensures State() == Run(old(State()), trace) && trace != [] && trace[0] == RetryStep(l)
      ensures PayoutSteps(Steps(trace, OwnPayout(|old(payouts)|)), |old(payouts)|, now, error)
    {
      hide Next;
      ghost var start, own := State(), OwnPayout(|payouts|);
      StartIs(start, l);
      payouts := payouts + [Payout(l, Opening)];
      ghost var begun := State();
      ghost var rest, steps;
      error, rest, steps := RunPayout(|payouts| - 1, now);
      NothingRan(begun, own);
      Chain(start, RetryStep(l), begun, [], begun, rest, State(), own, steps);
      trace := [RetryStep(l)] + [] + rest;
      assert [] + steps == steps && trace[0] == RetryStep(l);
    }

    // ---------------------------------------------------------------- verification

    /** The read of the loan and its guard. */
    method ReadLoan(l: nat, customer: CustomerId) returns (error: Option<LoanError>)
      modifies this`calls
      ensures State() == BeginVerify(old(State()), l, customer)
      ensures error == CheckLoan(old(State()), l)
    {
      if l >= |loans| || loans[l].None? {
        return Some(LoanNotFound);
      }
      var loan := loans[l].value;
      if loan.status != LoanStatus.Approved && loan.status != VerificationInProgress {
        return Some(NotAcceptingVerification(loan.status));
      }
      calls := calls + [VerifyCall(l, customer, loan.status == LoanStatus.Approved, Reading)];
      return None;
    }

    /** The read of the account and its guards; a refused call is over. */
    method ReadMember(k: nat) returns (error: Option<LoanError>)
      requires k < |calls| && calls[k].stage.Reading?
      modifies this`calls
      ensures State() == ReadAccount(old(State()), k)
      ensures error == CheckMember(old(State()), old(calls)[k].loanId, old(calls)[k].customerId)
    {
      var call := calls[k];
      var member := FindMember(accounts, call.loanId, call.customerId);
      if member.None? {
        calls := calls[k := call.(stage := Ended)];
        return Some(AccountNotFound);
      }
      if accounts[member.value].value.status != AccountStatus.Pending {
        calls := calls[k := call.(stage := Ended)];
        return Some(NotAwaitingDisbursement);
      }
      calls := calls[k := call.(stage := if call.sawApproved then Marking(member.value) else Checking(member.value))];
      return None;
    }

    /** The unguarded status write. */
    method MarkLoan(k: nat)
      requires k < |calls| && calls[k].stage.Marking?
      modifies this`calls, this`loans
      ensures State() == MarkInProgress(old(State()), k)
    {
      var call := calls[k];
      calls := calls[k := call.(stage := Checking(call.stage.accountId))];
      if call.loanId < |loans| && loans[call.loanId].Some? {
        loans := loans[call.loanId := Some(loans[call.loanId].value.(status := VerificationInProgress))];
      }
    }

    method ConcludeVerification(k: nat, passed: Option<bool>) returns (error: Option<LoanError>)
      requires Running(State(), k)
      modifies this`calls, this`verifications, this`payouts
      ensures State() == Concluded(old(State()), k, passed)
      ensures error == if passed.Some? then None else Some(NoBiometricImage)
    {
      if passed.None? {
        calls := calls[k := calls[k].(stage := Ended)];
        return Some(NoBiometricImage);
      }
      RecordVerification(k, passed.value);
      return None;
    }

    /** Upserts the verification of the call's account; after a pass the call goes on to try to disburse. */
    method RecordVerification(k: nat, passed: bool)
      requires Running(State(), k)
      modifies this`calls, this`verifications, this`payouts
      ensures State() == FinishVerify(old(State()), k, passed)
    {
      var call := calls[k];
      calls := calls[k := call.(stage := Ended)];
      var status := if passed then Passed else Escalated;
      verifications := verifications[call.stage.accountId := Verification(call.loanId, status, None, None)];
      if passed {
        payouts := payouts + [Payout(call.loanId, Opening)];
      }
    }

    /** The call after its read of the account. */
    method MarkAndConclude(k: nat, passed: Option<bool>) returns (error: Option<LoanError>, ghost trace: seq<Action>)
      requires k < |calls|
      requires if calls[k].sawApproved then calls[k].stage.Marking? else calls[k].stage.Checking?
      modifies this, fundStore
      ensures error == if passed.Some? then None else Some(NoBiometricImage)
      ensures Ran(old(State()), State(), OwnCall(k), trace,
                  (if old(calls)[k].sawApproved then [MarkStep(k)] else []) + [LastStep(k, passed)])
      ensures passed == Some(true) ==> payouts != [] && payouts[|payouts| - 1].stage.Opening?
    {
      hide Next, Ran;
      ghost var start, last := State(), LastStep(k, passed);
      var own := OwnCall(k);
      if calls[k].sawApproved {
        VerifyIs(start, 0, "", k);
        MarkLoan(k);
        ghost var marked := State();
        ghost var others := Interfere(own);
        ghost var before := State();
        ConcludeIs(before, k, passed);
        error := ConcludeVerification(k, passed);
        OneStep(before, last, own);
        Chain(start, MarkStep(k), marked, others, before, [last], State(), own, [last]);
        trace := [MarkStep(k)] + others + [last];
      } else {
        ConcludeIs(start, k, passed);
        error := ConcludeVerification(k, passed);
        OneStep(start, last, own);
        assert [] + [last] == [last];
        trace := [last];
      }
    }

    /** The call after its read of the loan. */
    method CheckAndConclude(k: nat, passed: Option<bool>)
      returns (error: Option<LoanError>, ghost trace: seq<Action>, ghost steps: seq<Action>)
      requires k < |calls| && calls[k].stage.Reading?
      modifies this, fundStore
      ensures Ran(old(State()), State(), OwnCall(k), trace, steps)
      ensures CallSteps(steps, k, old(calls)[k].sawApproved, passed, error)
      ensures error.None? && passed == Some(true) ==> payouts != [] && payouts[|payouts| - 1].stage.Opening?
    {
      hide Next, Ran;
      ghost var start, saw := State(), calls[k].sawApproved;
      var own := OwnCall(k);
      VerifyIs(start, 0, "", k);
      error := ReadMember(k);
      if error.Some? {
        OneStep(start, ReadStep(k), own);
        return error, [ReadStep(k)], [ReadStep(k)];
      }
      ghost var read := State();
      ghost var others := Interfere(own);
      ghost var before := State();
      ghost var rest;
      error, rest := MarkAndConclude(k, passed);
      ghost var more := (if saw then [MarkStep(k)] else []) + [LastStep(k, passed)];
      Chain(start, ReadStep(k), read, others, before, rest, State(), own, more);
      trace, steps := [ReadStep(k)] + others + rest, [ReadStep(k)] + more;
    }

    /**
     * One verification call, with other callers between all of its database operations: whatever they do,
     * what happens is a run of the state machine in which this call takes its own steps in order, and after a
     * pass another in which its attempt to disburse does. `passed` is None when there is no biometric image to
     * compare with; the attempt's errors are logged only.
     */
    method InitiateMemberVerification(l: nat, customer: CustomerId, passed: Option<bool>, now: int)
      returns (error: Option<LoanError>, ghost trace: seq<Action>, ghost attempt: seq<Action>)
      modifies this, fundStore
      ensures State() == Run(Run(old(State()), trace), attempt)
      ensures CheckLoan(old(State()), l).Some? ==> error == CheckLoan(old(State()), l) && trace == [] && attempt == []
      ensures CheckLoan(old(State()), l).None? ==>
                && trace != [] && trace[0] == BeginStep(l, customer)
                && CallSteps(Steps(trace, OwnCall(|old(calls)|)), |old(calls)|,
                             old(State()).loans[l].value.status == LoanStatus.Approved, passed, error)
                && Follows(attempt, error.None? && passed == Some(true), |Run(old(State()), trace).payouts|, now)
    {
      hide Next;
      trace, attempt := [], [];
      ghost var start := State();
      var k := |calls|;
      VerifyIs(start, l, customer, k);
      error := ReadLoan(l, customer);
      if error.Some? {
        return;
      }
      ghost var begun := State();
      ghost var others := Interfere(OwnCall(k));
      ghost var before := State();
      ghost var rest, steps;
      error, rest, steps := CheckAndConclude(k, passed);
      Chain(start, BeginStep(l, customer), begun, others, before, rest, State(), OwnCall(k), steps);
      trace := [BeginStep(l, customer)] + others + rest;
      assert trace[0] == BeginStep(l, customer);
      if error.None? && passed == Some(true) {
        attempt := TryCheckAndDisburse(|payouts| - 1, now);
      }
    }

    /** The checks of a resolution. */
    method Refusal(i: nat, note: string) returns (error: Option<LoanError>)
      ensures error == CheckResolve(State(), i, note)
    {
      if Blank(note) {
        return Some(NoteRequired);
      }
      if i !in verifications {
        return Some(VerificationNotFound);
      }
      if verifications[i].status != Escalated {
        return Some(NotEscalated);
      }
      return None;
    }

    method TakeUpEscalation(i: nat, actor: StaffId, resolution: Resolution, note: string)
      requires CheckResolve(State(), i, note).None?
      modifies this`resolves
      ensures State() == BeginResolve(old(State()), i, actor, resolution, note)
    {
      resolves := resolves + [ResolveCall(i, verifications[i].loanId, actor, resolution, note, false)];
    }

    /** The writes of a resolution; after an override it goes on to try to disburse. */
    method ApplyResolution(k: nat) returns (error: Option<LoanError>)
      requires Resolving(State(), k)
      modifies this
      ensures State() == FinishResolve(old(State()), k)
      ensures error == if old(resolves)[k].resolution == RejectLoan && LoanAt(old(State()), old(resolves)[k].loanId).None?
                       then Some(LoanNotFound) else None
    {
      var r := resolves[k];
      resolves := resolves[k := r.(ended := true)];
      if r.resolution == RejectLoan {
        error := RejectLoanAndAccounts(r.loanId);
        if error.Some? {
          return;
        }
        SaveResolution(r);
        return None;
      }
      SaveResolution(r);
      payouts := payouts + [Payout(r.loanId, Opening)];
      return None;
    }

    method SaveResolution(r: ResolveCall)
      modifies this`verifications
      ensures State() == Resolved(old(State()), r)
      ensures r.accountId in old(verifications) ==>
                && r.accountId in verifications
                && LendingPasses.ResolvedAs(old(verifications)[r.accountId], verifications[r.accountId],
                                            if r.resolution == OverridePass then Passed else old(verifications)[r.accountId].status,
                                            r.actor, r.note)
                && LendingPasses.OthersSame(old(verifications), verifications, r.accountId)
    {
      if r.accountId in verifications {
        var v := verifications[r.accountId];
        if r.resolution == OverridePass {
          v := v.(status := Passed);
        }
        verifications := verifications[r.accountId := v.(resolvedBy := Some(r.actor), note := Some(r.note))];
      }
    }

    /** The checks, other callers, and the writes. */
    method CheckAndResolve(i: nat, actor: StaffId, resolution: Resolution, note: string)
      returns (error: Option<LoanError>, ghost trace: seq<Action>)
      requires CheckResolve(State(), i, note).None?
      modifies this, fundStore
      ensures Ran(old(State()), State(), OwnResolve(|old(resolves)|), trace, [FinishResolveStep(|old(resolves)|)])
      ensures trace != [] && trace[0] == BeginResolveStep(i, actor, resolution, note)
      ensures resolution == OverridePass ==> payouts != [] && payouts[|payouts| - 1].stage.Opening?
    {
      hide Next, Ran, FinishResolve;
      ghost var start, begin := State(), BeginResolveStep(i, actor, resolution, note);
      var k := |resolves|;
      var own := OwnResolve(k);
      BeginResolveIs(start, i, actor, resolution, note);
      TakeUpEscalation(i, actor, resolution, note);
      ghost var begun := State();
      ghost var others := Interfere(own);
      ghost var before := State();
      FinishResolveIs(before, k);
      OverrideStarts(before, k);
      error := ApplyResolution(k);
      OneStep(before, FinishResolveStep(k), own);
      Chain(start, begin, begun, others, before, [FinishResolveStep(k)], State(), own, [FinishResolveStep(k)]);
      trace := [begin] + others + [FinishResolveStep(k)];
      assert [] + [FinishResolveStep(k)] == [FinishResolveStep(k)] && trace[0] == begin;
    }

    /** One resolution, with other callers between its checks and its writes, and throughout the attempt that follows an override. */
    method ResolveVerification(i: nat, actor: StaffId, resolution: Resolution, note: string, now: int)
      returns (error: Option<LoanError>, ghost trace: seq<Action>, ghost attempt: seq<Action>)
      modifies this, fundStore
      ensures State() == Run(Run(old(State()), trace), attempt)
      ensures CheckResolve(old(State()), i, note).Some? ==>
                error == CheckResolve(old(State()), i, note) && trace == [] && attempt == []
      ensures CheckResolve(old(State()), i, note).None? ==>
                && trace != [] && trace[0] == BeginResolveStep(i, actor, resolution, note)
                && Steps(trace, OwnResolve(|old(resolves)|)) == [FinishResolveStep(|old(resolves)|)]
                && Follows(attempt, resolution == OverridePass, |Run(old(State()), trace).payouts|, now)
    {
      hide Next, FinishResolve, BeginResolve;
      trace, attempt := [], [];
      error := Refusal(i, note);
      if error.Some? {
        return;
      }
      error, trace := CheckAndResolve(i, actor, resolution, note);
      if resolution == OverridePass {
        attempt := TryCheckAndDisburse(|payouts| - 1, now);
      }
    }

    lemma OverrideStarts(s: Book, k: nat)
      requires Resolving(s, k)
      ensures s.resolves[k].resolution == OverridePass ==>
                FinishResolve(s, k).payouts == s.payouts + [Payout(s.resolves[k].loanId, Opening)]
    {
    }

    // ---------------------------------------------------------------- after disbursement

    method ReanchorSchedule(schedule: seq<ScheduleEntry>, terms: Terms) returns (r: seq<ScheduleEntry>)
      ensures r == Reanchored(schedule, terms)
    {
      var entries := new ScheduleEntry[|schedule|](i requires 0 <= i < |schedule| => schedule[i]);
      assert entries[..] == schedule;
      ReanchorInPlace(entries, terms);
      return entries[..];
    }

    method ConfirmChequeHandover(i: nat, now: int) returns (error: Option<LoanError>)
      modifies this`accounts
      ensures State() == ConfirmHandover(old(State()), i, now)
      ensures error == CheckHandover(old(State()), i)
    {
      if i >= |accounts| || accounts[i].None? {
        return Some(AccountNotFound);
      }
      var account := accounts[i].value;
      if account.channel != ChequePickup {
        return Some(NotChequePickup);
      }
      if account.status != AccountStatus.Active {
        return Some(NotDisbursed);
      }
      if account.handedOverAt.Some? {
        return Some(AlreadyHandedOver);
      }
      var schedule := account.schedule;
      if schedule != [] {
        if account.loanId >= |loans| || loans[account.loanId].None? {
          return Some(LoanNotFound);
        }
        var loan := loans[account.loanId].value;
        if loan.productId !in products {
          return Some(ProductNotFound);
        }
        schedule := ReanchorSchedule(schedule, Terms(now, products[loan.productId].repaymentPeriodDays, loan.tenureDays));
      }
      accounts := accounts[i := Some(account.(handedOverAt := Some(now), schedule := schedule))];
      return None;
    }

    method EveryMemberSettled(l: nat) returns (all: bool)
      ensures all == AllSettled(State(), l)
    {
      all := true;
      var some := false;
      for i := 0 to |accounts|
        invariant some <==> exists j :: 0 <= j < i && Belongs(accounts[j], l)
        invariant all <==> forall j :: 0 <= j < i && Belongs(accounts[j], l) ==> accounts[j].value.status == AccountStatus.Closed
      {
        if Belongs(accounts[i], l) {
          some := true;
          all := all && accounts[i].value.status == AccountStatus.Closed;
        }
      }
      all := all && some;
    }

    method SyncCompletionStatus(l: nat)
      modifies this`loans
      ensures State() == SyncCompletion(old(State()), l)
    {
      if l >= |loans| || loans[l].None? {
        return;
      }
      var loan := loans[l].value;
      if loan.status != LoanStatus.Disbursed && loan.status != LoanStatus.Closed {
        return;
      }
      var allSettled := EveryMemberSettled(l);
      if allSettled && loan.status != LoanStatus.Closed {
        loans := loans[l := Some(loan.(status := LoanStatus.Closed))];
      } else if !allSettled && loan.status == LoanStatus.Closed {
        loans := loans[l := Some(loan.(status := LoanStatus.Disbursed))];
      }
    }

    /** The interest column of the loan list: charged where there is a schedule, estimated where not. */
    method TotalInterestShown(l: nat) returns (total: int)
      requires LoanAt(State(), l).Some?
      ensures total == LendingMembers.ShownInterest(State(), l)
    {
      ghost var f := LendingMembers.ShownFor(l, ProductFor(State(), l), loans[l].value.tenureDays);
      total := 0;
      for i := 0 to |accounts|
        invariant total == Sum(f, accounts[..i])
      {
        assert accounts[..i + 1] == accounts[..i] + [accounts[i]];
        SumSnoc(f, accounts[..i], accounts[i]);
        if Belongs(accounts[i], l) {
          var account := accounts[i].value;
          if account.schedule != [] {
            var charged := TotalInterest(account.schedule);
            total := total + charged;
          } else if loans[l].value.productId in products {
            var product := products[loans[l].value.productId];
            total := total + EstimatedInterest(product, account.principal, loans[l].value.tenureDays);
          }
        }
      }
      assert accounts[..|accounts|] == accounts;
    }
  }
}
