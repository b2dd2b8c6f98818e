/**
 * When an attempt to disburse may pay: every member passed, by verification or by override. What an attempt
 * with nobody in between does, and what it takes for one to pay although a pass has been lost.
 */
module LendingPasses {
  import opened Common
  import opened Schedule
  import opened Lending
  import opened LendingInvariant
  import opened LendingCoherence
  import opened LendingMoney
  import opened LendingAttempts
  import OvertakenWrites

  // ---------------------------------------------------------------- every member passed

  /** Account `i` exists, and on loan `l`. */
  predicate Member(s: Book, l: nat, i: nat) {
    i < |s.accounts| && s.accounts[i].Some? && s.accounts[i].value.loanId == l
  }

  /** There is a verification document of account `i` for loan `l`, and it says PASSED. */
  predicate Cleared(s: Book, l: nat, i: nat) {
    i in s.verifications && s.verifications[i].loanId == l && s.verifications[i].status == Passed
  }

  /** Loan `l` has members, and each is cleared or among `passing`. */
  ghost predicate AllCleared(s: Book, l: nat, passing: set<nat>) {
    (exists i: nat :: Member(s, l, i)) && (forall i: nat :: Member(s, l, i) && i !in passing ==> Cleared(s, l, i))
  }

  /** All that a disbursement of `l` needs, if the members of `passing` pass. */
  ghost predicate Ready(s: Book, l: nat, passing: set<nat>) {
    && l < |s.loans| && s.loans[l].Some? && s.loans[l].value.status == VerificationInProgress
    && AllCleared(s, l, passing)
    && s.loans[l].value.productId in s.products
    && s.loans[l].value.branchId in s.funds.balances
    && s.funds.balances[s.loans[l].value.branchId] >= s.loans[l].value.cumulative
  }

  lemma AllPassedIff(s: Book, l: nat)
    ensures AllPassed(s, l) <==> AllCleared(s, l, {})
  {
    if exists i: nat :: Member(s, l, i) {
      var i: nat :| Member(s, l, i);
      assert Belongs(s.accounts[i], l);
    }
    if AllPassed(s, l) {
      var i :| 0 <= i < |s.accounts| && Belongs(s.accounts[i], l);
      assert Member(s, l, i);
      forall j: nat | Member(s, l, j)
        ensures Cleared(s, l, j)
      {
        assert Belongs(s.accounts[j], l);
      }
    }
    if AllCleared(s, l, {}) {
      forall j | 0 <= j < |s.accounts| && Belongs(s.accounts[j], l)
        ensures HasPassed(s, j, l)
      {
        assert Member(s, l, j);
      }
    }
  }

  /** The reads of the verifications let an attempt go on exactly when every member has a PASSED one for this loan. */
  lemma ClearsIff(s: Book, k: nat)
    requires k < |s.payouts| && s.payouts[k].stage.Clearing?
    ensures var t := ClearPayout(s, k);
            && t == s.(payouts := s.payouts[k := t.payouts[k]]) && t.payouts[k].loanId == s.payouts[k].loanId
            && t.payouts[k].stage == if AllCleared(s, s.payouts[k].loanId, {}) then Pricing else Over
  {
    AllPassedIff(s, s.payouts[k].loanId);
  }

  lemma CanDisburseIff(s: Book, l: nat)
    ensures CanDisburse(s, l) <==> Ready(s, l, {})
  {
    AllPassedIff(s, l);
  }

  /**
   * An attempt with nobody in between disburses exactly a loan in verification all of whose members have passed,
   * with its product there and enough branch funds; otherwise it changes no document.
   */
  lemma UndisturbedDisbursesIff(s: Book, l: nat, now: int)
    ensures var t := Attempted(s, l, now);
            && (Ready(s, l, {}) ==> DisbursedExactly(s, t.(payouts := s.payouts), l, now) && t.(payouts := s.payouts) != s)
            && (!Ready(s, l, {}) ==> t.(payouts := s.payouts) == s)
  {
    hide Attempted, DisburseLoan, Ready;
    CanDisburseIff(s, l);
    AttemptsRepeatable(s, l, now, now);
    if CanDisburse(s, l) {
      var t := Attempted(s, l, now).(payouts := s.payouts);
      assert t.loans[l].value.status == LoanStatus.Disbursed;
    }
  }

  /** When its transaction comes no member has lost the pass. */
  lemma UndisturbedNotLate(s: Book, l: nat, now: int)
    ensures var k := |s.payouts|;
            !LatePayout(PricePayout(ClearPayout(OpenPayout(StartPayout(s, l), k), k), k), PayStep(k, now))
  {
    hide CanPay, ProductFor, InVerification;
    var k := |s.payouts|;
    var looked := OpenPayout(StartPayout(s, l), k);
    var cleared := ClearPayout(looked, k);
    assert looked.accounts == s.accounts && looked.verifications == s.verifications;
    assert cleared.accounts == s.accounts && cleared.verifications == s.verifications;
    assert AllPassed(looked, l) ==> MembersPassed(PricePayout(cleared, k), l);
  }

  // ---------------------------------------------------------------- a pass lost on the way

  /** Step `j` of the run is the read by which attempt `k` found every member of `l` passed. */
  ghost predicate ClearsAt(s: Book, actions: seq<Action>, j: nat, k: nat, l: nat) {
    && j < |actions| && actions[j] == ClearStep(k)
    && var u := Run(s, actions[..j]);
       k < |u.payouts| && u.payouts[k] == Payout(l, Clearing) && AllCleared(u, l, {})
  }

  /** Step `m` records that account `i` failed its verification for `l`. */
  predicate EscalatesAt(s: Book, actions: seq<Action>, m: nat, i: nat, l: nat) {
    && m < |actions| && actions[m].FinishStep? && !actions[m].passed
    && var u := Run(s, actions[..m]);
       && Running(u, actions[m].call) && u.calls[actions[m].call].loanId == l
       && u.calls[actions[m].call].stage.accountId == i
  }

  predicate BeyondClearing(s: Book, k: nat, l: nat) {
    k < |s.payouts| && s.payouts[k].loanId == l && (s.payouts[k].stage.Pricing? || s.payouts[k].stage.Paying?)
  }

  lemma ClearsInto(s: Book, a: Action, k: nat, l: nat)
    requires BeyondClearing(Next(s, a), k, l)
    ensures BeyondClearing(s, k, l) ||
            (a == ClearStep(k) && k < |s.payouts| && s.payouts[k] == Payout(l, Clearing) && AllCleared(s, l, {}))
  {
    hide Next;
    NextMoves(s, a);
    if k < |s.payouts| && a == ClearStep(k) {
      AllPassedIff(s, s.payouts[k].loanId);
    }
  }

  lemma {:induction false} ClearFound(s: Book, actions: seq<Action>, k: nat, l: nat) returns (j: nat)
    requires Initial(s) && BeyondClearing(Run(s, actions), k, l)
    ensures ClearsAt(s, actions, j, k, l)
  {
    hide Next, AllCleared;
    j := 0;
    if actions != [] {
      var front := actions[..|actions| - 1];
      ClearsInto(Run(s, front), actions[|actions| - 1], k, l);
      if BeyondClearing(Run(s, front), k, l) {
        j := ClearFound(s, front, k, l);
        AtFront(s, actions, j);
      } else {
        j := |front|;
      }
    }
  }

  /** No step adds members to a loan that exists. */
  ghost predicate AddsNoMember(s: Book, t: Book) {
    |s.loans| <= |t.loans| && forall i: nat, l: nat :: l < |s.loans| && Member(t, l, i) ==> Member(s, l, i)
  }

  lemma UpdatesAddNone(s: Book, t: Book)
    requires Updates(s, t)
    ensures AddsNoMember(s, t)
  {
    forall i: nat, l: nat | Member(t, l, i)
      ensures Member(s, l, i)
    {
      assert SameMember(s.accounts[i], t.accounts[i]);
    }
  }

  lemma RaiseAddsNone(s: Book, app: Application, initiated: bool)
    ensures AddsNoMember(s, Raise(s, app, initiated))
  {
    RaiseAcceptedIff(s, app);
    if CheckRaise(s, app).None? {
      assert forall i: nat :: i < |app.requests| ==> NewAccounts(|s.loans|, app.requests)[i].value.loanId == |s.loans|;
    }
  }

  lemma DeleteAddsNone(s: Book, l: nat, actor: StaffId)
    ensures AddsNoMember(s, Delete(s, l, actor))
  {
  }

  lemma AccountStepAddsNone(s: Book, a: Action)
    requires a.HandoverStep? || a.RepayStep? || a.ReverseStep? || a.PenaltyStep?
    ensures AddsNoMember(s, Next(s, a))
  {
    hide PayOut, Raise, Edit, Delete, FinishVerify, FinishResolve, RejectTheLoan;
  }

  lemma SameAddsNone(s: Book, t: Book)
    requires t.accounts == s.accounts && t.loans == s.loans
    ensures AddsNoMember(s, t)
  {
  }

  lemma DecidingAddsNone(s: Book, a: Action)
    requires Deciding(a)
    ensures AddsNoMember(s, Next(s, a))
  {
    hide Next, AddsNoMember, PayOut, RejectTheLoan;
    if Attempt(s, a).Some? {
      AttemptShape(s, a);
      PayUpdates(Before(s, a), Attempt(s, a).value, ProductPaid(s, a), a.now);
      UpdatesAddNone(Before(s, a), Next(s, a));
      SameAddsNone(s, Before(s, a));
      AddsNoneTransitive(s, Before(s, a), Next(s, a));
    } else if Rejecting(s, a).Some? {
      var t := RejectTheLoan(s, Rejecting(s, a).value);
      RejectShape(s, a);
      RejectUpdates(s, Rejecting(s, a).value);
      UpdatesAddNone(s, t);
      SameAddsNone(t, Next(s, a));
      AddsNoneTransitive(s, t, Next(s, a));
    } else {
      IdleShape(s, a);
      SameAddsNone(s, Next(s, a));
    }
  }

  lemma AddsNoneTransitive(s: Book, t: Book, u: Book)
    requires AddsNoMember(s, t) && AddsNoMember(t, u)
    ensures AddsNoMember(s, u)
  {
  }

  lemma OfficeAddsNone(s: Book, a: Action)
    requires a.RaiseStep? || a.EditStep? || a.DeleteStep?
    ensures AddsNoMember(s, Next(s, a))
  {
    hide AddsNoMember, Raise, Edit, Delete;
    match a {
      case RaiseStep(app, initiated) => RaiseAddsNone(s, app, initiated);
      case EditStep(l, actor, changes) =>
        EditUpdates(s, l, actor, changes);
        UpdatesAddNone(s, Edit(s, l, actor, changes));
      case DeleteStep(l, actor) => DeleteAddsNone(s, l, actor);
    }
  }

  lemma NextAddsNone(s: Book, a: Action)
    ensures AddsNoMember(s, Next(s, a))
  {
    hide Next, AddsNoMember;
    if Quiet(a) {
      QuietShape(s, a);
      StatusOnlyUpdates(s, Next(s, a));
      UpdatesAddNone(s, Next(s, a));
    } else if Deciding(a) {
      DecidingAddsNone(s, a);
    } else if a.RaiseStep? || a.EditStep? || a.DeleteStep? {
      OfficeAddsNone(s, a);
    } else {
      AccountStepAddsNone(s, a);
    }
  }

  /** A member at the end of a run was one at every earlier point at which the loan existed. */
  lemma {:induction false} MemberBefore(s: Book, actions: seq<Action>, j: nat, l: nat, i: nat)
    requires j <= |actions| && l < |Run(s, actions[..j]).loans| && Member(Run(s, actions), l, i)
    ensures Member(Run(s, actions[..j]), l, i) && l < |Run(s, actions).loans|
    decreases |actions|
  {
    hide Next;
    if j == |actions| {
      assert actions[..j] == actions;
    } else {
      var front := actions[..|actions| - 1];
      assert front[..j] == actions[..j];
      LoansGrow(s, front, j);
      NextAddsNone(Run(s, front), actions[|actions| - 1]);
      MemberBefore(s, front, j, l, i);
    }
  }

  lemma {:induction false} LoansGrow(s: Book, actions: seq<Action>, j: nat)
    requires j <= |actions|
    ensures |Run(s, actions[..j]).loans| <= |Run(s, actions).loans|
    decreases |actions|
  {
    hide Next;
    if j == |actions| {
      assert actions[..j] == actions;
    } else {
      var front := actions[..|actions| - 1];
      assert front[..j] == actions[..j];
      LoansGrow(s, front, j);
      NextAddsNone(Run(s, front), actions[|actions| - 1]);
    }
  }

  lemma FinishLoses(s: Book, k: nat, passed: bool, i: nat, l: nat)
    requires Base(s) && Cleared(s, l, i) && !Cleared(FinishVerify(s, k, passed), l, i)
    ensures !passed && Running(s, k) && s.calls[k].loanId == l && s.calls[k].stage.accountId == i
  {
    assert UnderVerification(s, i, l);
    assert CallOk(s, s.calls[k]);
  }

  lemma ResolveKeepsCleared(s: Book, k: nat, i: nat, l: nat)
    requires Cleared(s, l, i)
    ensures Cleared(FinishResolve(s, k), l, i)
  {
  }

  lemma VerificationsKept(s: Book, a: Action)
    requires !a.FinishStep? && !a.FinishResolveStep?
    ensures Next(s, a).verifications == s.verifications
  {
    hide Next;
    if Quiet(a) {
      QuietShape(s, a);
    } else if a.EditStep? {
      EditShape(s, a.loan, a.actor, a.changes);
      EditIs(s, a);
    } else if Attempt(s, a).Some? {
      AttemptShape(s, a);
      PayKeepsVerifications(Before(s, a), Attempt(s, a).value, ProductPaid(s, a), a.now);
    } else {
      OtherVerificationsKept(s, a);
    }
  }

  lemma EditIs(s: Book, a: Action)
    requires a.EditStep?
    ensures Next(s, a) == Edit(s, a.loan, a.actor, a.changes)
  {
  }

  lemma PayKeepsVerifications(s: Book, l: nat, product: Product, now: int)
    ensures PayOut(s, l, product, now).verifications == s.verifications && PayOut(s, l, product, now).resolves == s.resolves
  {
  }

  lemma OtherVerificationsKept(s: Book, a: Action)
    requires !Quiet(a) && !a.FinishStep? && !a.FinishResolveStep? && !a.EditStep? && Attempt(s, a).None?
    ensures Next(s, a).verifications == s.verifications
  {
    hide PayOut, Edit, FinishVerify, FinishResolve;
  }

  /** Only an escalation recorded for it takes a pass away. */
  lemma PassLost(s: Book, a: Action, i: nat, l: nat)
    requires Base(s) && Cleared(s, l, i) && !Cleared(Next(s, a), l, i)
    ensures a.FinishStep? && !a.passed && Running(s, a.call)
    ensures s.calls[a.call].loanId == l && s.calls[a.call].stage.accountId == i
  {
    hide FinishVerify, FinishResolve, Base;
    if a.FinishStep? {
      FinishLoses(s, a.call, a.passed, i, l);
    } else if a.FinishResolveStep? {
      ResolveKeepsCleared(s, a.resolve, i, l);
    } else {
      VerificationsKept(s, a);
    }
  }

  lemma {:induction false} EscalationFound(s: Book, actions: seq<Action>, j: nat, i: nat, l: nat) returns (m: nat)
    requires Base(s) && j <= |actions| && Cleared(Run(s, actions[..j]), l, i) && !Cleared(Run(s, actions), l, i)
    ensures j <= m && EscalatesAt(s, actions, m, i, l)
    decreases |actions|
  {
    hide Next;
    assert j < |actions| by { assert actions[..|actions|] == actions; }
    var front := actions[..|actions| - 1];
    assert front[..j] == actions[..j];
    if Cleared(Run(s, front), l, i) {
      m := |front|;
      RunBase(s, front);
      PassLost(Run(s, front), actions[|actions| - 1], i, l);
    } else {
      m := EscalationFound(s, front, j, i, l);
      AtFront(s, actions, m);
    }
  }

  /** Since attempt `k` read the verifications an escalation has been recorded for a member, which still lacks its pass. */
  ghost predicate LostSinceClear(s: Book, actions: seq<Action>, k: nat, l: nat) {
    exists j: nat, m: nat, i: nat ::
      && j < m && ClearsAt(s, actions, j, k, l) && EscalatesAt(s, actions, m, i, l)
      && Member(Run(s, actions), l, i) && !Cleared(Run(s, actions), l, i)
  }

  lemma PayerBeyondClearing(s: Book, a: Action, l: nat)
    requires PaysOut(s, a, l)
    ensures BeyondClearing(s, a.payout, l)
  {
  }

  lemma LateIff(s: Book, a: Action, l: nat)
    requires PaysOut(s, a, l)
    ensures LatePayout(s, a) <==> exists i: nat :: Member(s, l, i) && !Cleared(s, l, i)
  {
    if LatePayout(s, a) {
      var i :| 0 <= i < |s.accounts| && Belongs(s.accounts[i], l) && !HasPassed(s, i, l);
      assert Member(s, l, i) && !Cleared(s, l, i);
    }
    if exists i: nat :: Member(s, l, i) && !Cleared(s, l, i) {
      var i: nat :| Member(s, l, i) && !Cleared(s, l, i);
      assert Belongs(s.accounts[i], l) && !HasPassed(s, i, l);
    }
  }

  /**
   * In every run: a payment finds a member without a pass exactly when that member's pass was lost, to an
   * escalation recorded after this attempt's own read of the verifications.
   */
  lemma LatePayoutIff(s: Book, actions: seq<Action>, a: Action, l: nat)
    requires Initial(s) && PaysOut(Run(s, actions), a, l)
    ensures LatePayout(Run(s, actions), a) <==> LostSinceClear(s, actions, a.payout, l)
  {
    hide Next, Run;
    var u := Run(s, actions);
    LateIff(u, a, l);
    if LatePayout(u, a) {
      var i: nat :| Member(u, l, i) && !Cleared(u, l, i);
      PayerBeyondClearing(u, a, l);
      var j := ClearFound(s, actions, a.payout, l);
      ClearedLoanExists(s, actions, j, a.payout, l);
      MemberBefore(s, actions, j, l, i);
      InitialSound(s);
      var m := EscalationFound(s, actions, j, i, l);
      assert actions[j] != actions[m];
    }
  }

  lemma ClearedLoanExists(s: Book, actions: seq<Action>, j: nat, k: nat, l: nat)
    requires Initial(s) && ClearsAt(s, actions, j, k, l)
    ensures l < |Run(s, actions[..j]).loans|
  {
    hide Next;
    InitialSound(s);
    RunBase(s, actions[..j]);
    assert PayoutOk(Run(s, actions[..j]), Run(s, actions[..j]).payouts[k]);
  }

  // ---------------------------------------------------------------- what a resolution writes

  /** The verification of the account as it was, resolved by this actor with this note. */
  predicate ResolvedAs(v: Verification, w: Verification, status: VerificationStatus, actor: StaffId, note: string) {
    w.loanId == v.loanId && w.status == status && w.resolvedBy == Some(actor) && w.note == Some(note)
  }

  predicate OthersSame(v: map<nat, Verification>, w: map<nat, Verification>, i: nat) {
    w.Keys == v.Keys && forall j :: j in v && j != i ==> w[j] == v[j]
  }

  /**
   * An override passes the member and starts an attempt to disburse its loan, a rejection leaves the
   * verification escalated, rejects the loan and closes its accounts; both name who resolved it and why.
   */
  lemma ResolutionWrites(s: Book, k: nat)
    requires Resolving(s, k) && s.resolves[k].accountId in s.verifications
    ensures var r, t := s.resolves[k], FinishResolve(s, k);
            var v := s.verifications[r.accountId];
            && (r.resolution == OverridePass ==>
                  && r.accountId in t.verifications
                  && ResolvedAs(v, t.verifications[r.accountId], Passed, r.actor, r.note)
                  && OthersSame(s.verifications, t.verifications, r.accountId)
                  && SameDocuments(s, t) && t.payouts == s.payouts + [Payout(r.loanId, Opening)])
            && (r.resolution == RejectLoan && LoanAt(s, r.loanId).Some? ==>
                  && r.accountId in t.verifications
                  && ResolvedAs(v, t.verifications[r.accountId], v.status, r.actor, r.note)
                  && OthersSame(s.verifications, t.verifications, r.accountId)
                  && t.payouts == s.payouts && t.funds == s.funds && RejectedExactly(s, t, r.loanId))
            && (r.resolution == RejectLoan && LoanAt(s, r.loanId).None? ==> SameDocuments(s, t) && t.verifications == s.verifications)
  {
  }

  /** The loan is REJECTED and all of its accounts CLOSED; nothing else about them or any other changes. */
  ghost predicate RejectedExactly(s: Book, t: Book, l: nat)
    requires LoanAt(s, l).Some?
  {
    && t.loans == s.loans[l := Some(s.loans[l].value.(status := LoanStatus.Rejected))]
    && |t.accounts| == |s.accounts|
    && (forall i: nat :: i < |s.accounts| && !Member(s, l, i) ==> t.accounts[i] == s.accounts[i])
    && (forall i: nat :: Member(s, l, i) ==> t.accounts[i] == Some(s.accounts[i].value.(status := AccountStatus.Closed)))
  }

  ghost predicate ResolvesNamed(s: Book) {
    forall k :: 0 <= k < |s.resolves| ==> s.resolves[k].accountId in s.verifications
  }

  lemma ResolvesSame(s: Book, a: Action)
    requires !a.FinishStep? && !a.FinishResolveStep? && !a.BeginResolveStep?
    ensures Next(s, a).resolves == s.resolves
  {
    hide PayOut;
    if Attempt(s, a).Some? {
      hide Next;
      AttemptShape(s, a);
      PayKeepsVerifications(Before(s, a), Attempt(s, a).value, ProductPaid(s, a), a.now);
    }
  }

  lemma NextResolvesNamed(s: Book, a: Action)
    requires ResolvesNamed(s)
    ensures ResolvesNamed(Next(s, a))
  {
    if a.FinishStep? || a.FinishResolveStep? || a.BeginResolveStep? {
      hide PayOut, Raise, Edit, Delete;
      assert ResolvesNamed(Next(s, a));
    } else {
      hide Next;
      ResolvesSame(s, a);
      VerificationsKept(s, a);
    }
  }

  /** In every run a resolution in flight is of a verification that exists, so its writes always meet one. */
  lemma {:induction false} RunResolvesNamed(s: Book, actions: seq<Action>)
    requires Initial(s)
    ensures ResolvesNamed(Run(s, actions))
  {
    hide Next;
    if actions != [] {
      RunResolvesNamed(s, actions[..|actions| - 1]);
      NextResolvesNamed(Run(s, actions[..|actions| - 1]), actions[|actions| - 1]);
    }
  }

  // ---------------------------------------------------------------- the last member passes

  /** The steps of an attempt with nobody in between. */
  function PaySteps(k: nat, now: int): seq<Action> {
    [OpenStep(k)] + [ClearStep(k)] + [PriceStep(k)] + [PayStep(k, now)]
  }

  lemma AttemptUnrolled(s: Book, front: seq<Action>, t: Book, l: nat, now: int)
    requires Run(s, front) == StartPayout(t, l)
    ensures Run(s, front + PaySteps(|t.payouts|, now)) == Attempted(t, l, now)
  {
    hide Next, Run, OpenPayout, ClearPayout, PricePayout, FinishPayout;
    var k := |t.payouts|;
    var f1 := front + [OpenStep(k)];
    var f2 := f1 + [ClearStep(k)];
    var f3 := f2 + [PriceStep(k)];
    assert front + PaySteps(k, now) == f3 + [PayStep(k, now)];
    OvertakenWrites.RunOpen(s, front, k);
    OvertakenWrites.RunClear(s, f1, k);
    OvertakenWrites.RunPrice(s, f2, k);
    OvertakenWrites.RunPay(s, f3, k, now);
  }

  /**
   * `t` is `s` with the verifications `passes`, and loan `l` is disbursed, its branch debited once, its accounts
   * active and owing principal and interest, if and only if all members but those now passing had passed before.
   */
  ghost predicate DisbursedIffReady(s: Book, t: Book, passes: map<nat, Verification>, l: nat, passing: set<nat>, now: int) {
    && t.verifications == passes
    && var s', t' := s.(verifications := passes), t.(calls := s.calls, resolves := s.resolves, payouts := s.payouts);
       && (Ready(s, l, passing) ==> DisbursedExactly(s', t', l, now))
       && (!Ready(s, l, passing) ==> t' == s')
  }

  lemma AttemptAfterPass(s: Book, u: Book, l: nat, i: nat, now: int)
    requires u == s.(verifications := u.verifications, calls := u.calls, resolves := u.resolves)
    requires i in u.verifications && OthersSame(s.verifications[i := u.verifications[i]], u.verifications, i)
    requires Cleared(u, l, i)
    ensures DisbursedIffReady(s, Attempted(u, l, now), u.verifications, l, {i}, now)
  {
    hide Attempted, DisbursedExactly, Ready;
    UndisturbedDisbursesIff(u, l, now);
    assert Ready(u, l, {}) <==> Ready(s, l, {i}) by {
      ReadyOnceCleared(s, u, l, i);
    }
    AttemptKeepsRest(u, l, now);
    if Ready(s, l, {i}) {
      var t := Attempted(u, l, now);
      DisbursedCarried(u, t.(payouts := u.payouts), s.(verifications := u.verifications),
                       t.(calls := s.calls, resolves := s.resolves, payouts := s.payouts), l, now);
    }
  }

  lemma ReadyOnceCleared(s: Book, u: Book, l: nat, i: nat)
    requires u == s.(verifications := u.verifications, calls := u.calls, resolves := u.resolves)
    requires i in u.verifications && OthersSame(s.verifications[i := u.verifications[i]], u.verifications, i)
    requires Cleared(u, l, i)
    ensures Ready(u, l, {}) <==> Ready(s, l, {i})
  {
    assert forall j: nat :: Member(u, l, j) <==> Member(s, l, j);
    assert forall j: nat :: j != i ==> (Cleared(u, l, j) <==> Cleared(s, l, j));
    assert AllCleared(u, l, {}) <==> AllCleared(s, l, {i});
  }

  lemma AttemptKeepsRest(u: Book, l: nat, now: int)
    ensures var t := Attempted(u, l, now);
            t == u.(funds := t.funds, loans := t.loans, accounts := t.accounts, payouts := t.payouts)
  {
    hide Attempted;
    AttemptRuns(u, l, now);
  }

  lemma DisbursedCarried(s: Book, t: Book, s': Book, t': Book, l: nat, now: int)
    requires DisbursedExactly(s, t, l, now)
    requires s'.funds == s.funds && s'.loans == s.loans && s'.accounts == s.accounts
    requires t' == s'.(funds := t.funds, loans := t.loans, accounts := t.accounts)
    ensures DisbursedExactly(s', t', l, now)
  {
  }

  /** One override and the attempt it starts, with nobody in between. */
  function OverrideSteps(i: nat, actor: StaffId, note: string, resolve: nat, payout: nat, now: int): seq<Action> {
    [BeginResolveStep(i, actor, OverridePass, note)] + [FinishResolveStep(resolve)] + PaySteps(payout, now)
  }

  function Overridden(v: Verification, actor: StaffId, note: string): Verification {
    Verification(v.loanId, Passed, Some(actor), Some(note))
  }

  lemma OverrideStarts(s: Book, i: nat, actor: StaffId, note: string)
    requires i in s.verifications && s.verifications[i].status == Escalated && !Blank(note)
    ensures var k, v := |s.resolves|, s.verifications[i];
            var r := ResolveCall(i, v.loanId, actor, OverridePass, note, false);
            var u := s.(verifications := s.verifications[i := Overridden(v, actor, note)], resolves := s.resolves + [r.(ended := true)]);
            Next(Next(s, BeginResolveStep(i, actor, OverridePass, note)), FinishResolveStep(k)) == StartPayout(u, v.loanId)
  {
    var k, v := |s.resolves|, s.verifications[i];
    var r := ResolveCall(i, v.loanId, actor, OverridePass, note, false);
    var begun := s.(resolves := s.resolves + [r]);
    assert Next(s, BeginResolveStep(i, actor, OverridePass, note)) == begun;
    var ended := s.(resolves := s.resolves + [r.(ended := true)]);
    assert EndResolve(begun, k) == ended;
    assert Resolved(ended, r) == ended.(verifications := s.verifications[i := Overridden(v, actor, note)]);
  }

  /**
   * An override of an escalated member, with nobody in between, leaves its verification PASSED under this actor
   * and note and no other changed. If every other member had passed, the product is there and the branch can
   * cover it, the loan ends DISBURSED and debited once; otherwise no other document changes.
   */
  lemma OverrideDisbursesIff(s: Book, i: nat, actor: StaffId, note: string, now: int)
    requires i in s.verifications && s.verifications[i].status == Escalated && !Blank(note)
    ensures var t := Run(s, OverrideSteps(i, actor, note, |s.resolves|, |s.payouts|, now));
            DisbursedIffReady(s, t, s.verifications[i := Overridden(s.verifications[i], actor, note)],
                              s.verifications[i].loanId, {i}, now)
  {
    hide Next, Run, Attempted, DisbursedIffReady, StartPayout;
    var k, v, p := |s.resolves|, s.verifications[i], |s.payouts|;
    var begin := BeginResolveStep(i, actor, OverridePass, note);
    var r := ResolveCall(i, v.loanId, actor, OverridePass, note, true);
    var u := s.(verifications := s.verifications[i := Overridden(v, actor, note)], resolves := s.resolves + [r]);
    OverrideStarts(s, i, actor, note);
    RunNothing(s);
    OvertakenWrites.RunStep(s, [], begin);
    assert [] + [begin] == [begin];
    OvertakenWrites.RunStep(s, [begin], FinishResolveStep(k));
    AttemptUnrolled(s, [begin] + [FinishResolveStep(k)], u, v.loanId, now);
    AttemptAfterPass(s, u, v.loanId, i, now);
  }

  lemma RunNothing(s: Book)
    ensures Run(s, []) == s
  {
  }

  /** A verification that passes is recorded, and then an attempt is made. */
  function PassSteps(call: nat, payout: nat, now: int): seq<Action> {
    [FinishStep(call, true)] + PaySteps(payout, now)
  }

  /** The same for a member that passes its verification. */
  lemma PassDisbursesIff(s: Book, k: nat, now: int)
    requires Running(s, k)
    ensures var t, call := Run(s, PassSteps(k, |s.payouts|, now)), s.calls[k];
            DisbursedIffReady(s, t, s.verifications[call.stage.accountId := Verification(call.loanId, Passed, None, None)],
                              call.loanId, {call.stage.accountId}, now)
  {
    hide Next, Run, Attempted, DisbursedIffReady, StartPayout;
    var l, i := s.calls[k].loanId, s.calls[k].stage.accountId;
    var u := RecordOutcome(s, k, true);
    RunNothing(s);
    OvertakenWrites.RunStep(s, [], FinishStep(k, true));
    assert [] + [FinishStep(k, true)] == [FinishStep(k, true)];
    FinishIs(s, k);
    AttemptUnrolled(s, [FinishStep(k, true)], u, l, now);
    AttemptAfterPass(s, u, l, i, now);
  }

  lemma FinishIs(s: Book, k: nat)
    requires Running(s, k)
    ensures Next(s, FinishStep(k, true)) == StartPayout(RecordOutcome(s, k, true), s.calls[k].loanId)
  {
  }

  /** A verification that fails is recorded as escalated, replacing what was there, and nothing else happens. */
  lemma FailureEscalates(s: Book, k: nat)
    requires Running(s, k)
    ensures var t, call := Next(s, FinishStep(k, false)), s.calls[k];
            && t.verifications == s.verifications[call.stage.accountId := Verification(call.loanId, Escalated, None, None)]
            && SameDocuments(s, t) && t.payouts == s.payouts && t.resolves == s.resolves
  {
  }
}
