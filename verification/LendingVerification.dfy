/**
 * Verifying the members of a loan one after the other: which calls are let through, what each of them does, and
 * that the loan is disbursed with the last member that passes, and not before.
 */
module LendingVerification {
  import opened Common
  import opened Schedule
  import opened Lending
  import opened LendingInvariant
  import opened LendingMoney
  import opened LendingPasses
  import OvertakenWrites

  // ---------------------------------------------------------------- which calls are let through

  /** A verification call goes past its read of the loan exactly if it is APPROVED or in verification, and remembers which. */
  lemma VerificationBegins(s: Book, l: nat, c: CustomerId)
    ensures var accepting := l < |s.loans| && s.loans[l].Some? &&
                             (s.loans[l].value.status == LoanStatus.Approved || s.loans[l].value.status == VerificationInProgress);
            BeginVerify(s, l, c)
            == if accepting then s.(calls := s.calls + [VerifyCall(l, c, s.loans[l].value.status == LoanStatus.Approved, Reading)]) else s
  {
  }

  /** And past its read of the account exactly if the customer is a member of the loan whose account is pending. */
  lemma VerificationReads(s: Book, k: nat, i: nat)
    requires Base(s) && k < |s.calls| && s.calls[k].stage.Reading?
    requires IsOn(s, i, s.calls[k].loanId) && s.accounts[i].value.customerId == s.calls[k].customerId
    ensures ReadAccount(s, k).calls
            == s.calls[k := s.calls[k].(stage :=
                 if s.accounts[i].value.status != AccountStatus.Pending then Ended
                 else if s.calls[k].sawApproved then Marking(i) else Checking(i))]
  {
    FindMemberExact(s, s.calls[k].loanId, i);
  }

  lemma StrangerNotVerified(s: Book, k: nat)
    requires k < |s.calls| && s.calls[k].stage.Reading?
    requires forall i: nat :: IsOn(s, i, s.calls[k].loanId) ==> s.accounts[i].value.customerId != s.calls[k].customerId
    ensures ReadAccount(s, k).calls == s.calls[k := s.calls[k].(stage := Ended)]
  {
    var found := FindMember(s.accounts, s.calls[k].loanId, s.calls[k].customerId);
    if found.Some? {
      assert IsOn(s, found.value, s.calls[k].loanId);
    }
  }

  /** A resolution is taken up exactly for an escalated verification, with a note that is not blank. */
  lemma ResolutionBegins(s: Book, i: nat, actor: StaffId, resolution: Resolution, note: string)
    ensures var accepted := i in s.verifications && s.verifications[i].status == Escalated &&
                            exists c :: 0 <= c < |note| && note[c] !in {' ', '\t', '\r', '\n'};
            BeginResolve(s, i, actor, resolution, note)
            == if accepted then s.(resolves := s.resolves + [ResolveCall(i, s.verifications[i].loanId, actor, resolution, note, false)])
               else s
  {
  }

  // ---------------------------------------------------------------- one member

  /** APPROVED or VERIFICATION_IN_PROGRESS. */
  predicate Accepting(s: Book, l: nat) {
    && l < |s.loans| && s.loans[l].Some?
    && (s.loans[l].value.status == LoanStatus.Approved || s.loans[l].value.status == VerificationInProgress)
  }

  /** A member of a loan that accepts verifications, whose account is still pending. */
  predicate Awaiting(s: Book, l: nat, i: nat) {
    Accepting(s, l) && IsOn(s, i, l) && s.accounts[i].value.status == AccountStatus.Pending
  }

  /** The reads and the status write of one call, with nobody in between. */
  function StartSteps(s: Book, l: nat, i: nat): seq<Action>
    requires Awaiting(s, l, i)
  {
    var k := |s.calls|;
    [BeginStep(l, s.accounts[i].value.customerId)] + [ReadStep(k)] +
    if s.loans[l].value.status == LoanStatus.Approved then [MarkStep(k)] else []
  }

  /** The loan is in verification and the call is about to record its outcome. */
  function Started(s: Book, l: nat, i: nat): Book
    requires Awaiting(s, l, i)
  {
    SetStatus(s, l, VerificationInProgress).(calls := s.calls + [
      VerifyCall(l, s.accounts[i].value.customerId, s.loans[l].value.status == LoanStatus.Approved, Checking(i))])
  }

  lemma StartReads(s: Book, l: nat, i: nat)
    requires Base(s) && Awaiting(s, l, i)
    ensures var k, c := |s.calls|, s.accounts[i].value.customerId;
            var saw := s.loans[l].value.status == LoanStatus.Approved;
            Next(Next(s, BeginStep(l, c)), ReadStep(k))
            == s.(calls := s.calls + [VerifyCall(l, c, saw, if saw then Marking(i) else Checking(i))])
  {
    var k, c, saw := |s.calls|, s.accounts[i].value.customerId, s.loans[l].value.status == LoanStatus.Approved;
    var begun := s.(calls := s.calls + [VerifyCall(l, c, saw, Reading)]);
    assert Next(s, BeginStep(l, c)) == begun;
    FindMemberExact(s, l, i);
    assert Next(begun, ReadStep(k)) == ReadAccount(begun, k);
  }

  lemma MarkStarts(s: Book, l: nat, i: nat)
    requires Awaiting(s, l, i) && s.loans[l].value.status == LoanStatus.Approved
    ensures var k, c := |s.calls|, s.accounts[i].value.customerId;
            Next(s.(calls := s.calls + [VerifyCall(l, c, true, Marking(i))]), MarkStep(k)) == Started(s, l, i)
  {
  }

  lemma StartRuns(s: Book, l: nat, i: nat)
    requires Base(s) && Awaiting(s, l, i)
    ensures Run(s, StartSteps(s, l, i)) == Started(s, l, i)
  {
    var k, c := |s.calls|, s.accounts[i].value.customerId;
    var saw := s.loans[l].value.status == LoanStatus.Approved;
    var begin, read := BeginStep(l, c), ReadStep(k);
    StartReads(s, l, i);
    hide Next;
    OvertakenWrites.RunStep(s, [], begin);
    assert [] + [begin] == [begin];
    OvertakenWrites.RunStep(s, [begin], read);
    if saw {
      MarkStarts(s, l, i);
      OvertakenWrites.RunStep(s, [begin] + [read], MarkStep(k));
    } else {
      assert [begin] + [read] + [] == [begin] + [read];
      assert s.loans[l := s.loans[l]] == s.loans;
      assert s.loans[l].value.(status := VerificationInProgress) == s.loans[l].value;
    }
  }

  lemma {:induction false} RunAppend(s: Book, x: seq<Action>, y: seq<Action>)
    ensures Run(s, x + y) == Run(Run(s, x), y)
  {
    hide Next;
    if y == [] {
      assert x + y == x;
    } else {
      RunAppend(s, x, y[..|y| - 1]);
      assert (x + y)[..|x + y| - 1] == x + y[..|y| - 1];
    }
  }

  /** A whole call, with nobody in between, in which the member passes and an attempt to disburse follows. */
  function PassingSteps(s: Book, l: nat, i: nat, now: int): seq<Action>
    requires Awaiting(s, l, i)
  {
    StartSteps(s, l, i) + PassSteps(|s.calls|, |s.payouts|, now)
  }

  function PassedNow(s: Book, l: nat, i: nat): Book
    requires Awaiting(s, l, i)
  {
    SetStatus(s, l, VerificationInProgress).(verifications := s.verifications[i := Verification(l, Passed, None, None)])
  }

  /**
   * Whatever it was before, the member's verification is then PASSED and the loan in verification. With every
   * other member passed, the product there and funds enough, the loan is disbursed; otherwise nothing else changes.
   */
  lemma MemberPasses(s: Book, l: nat, i: nat, now: int)
    requires Base(s) && Awaiting(s, l, i)
    ensures var t, u := Run(s, PassingSteps(s, l, i, now)), PassedNow(s, l, i);
            var t' := t.(calls := s.calls, resolves := s.resolves, payouts := s.payouts);
            && (Ready(u, l, {}) ==> DisbursedExactly(u, t', l, now))
            && (!Ready(u, l, {}) ==> t' == u)
  {
    hide Next, Run, DisbursedExactly, Ready;
    StartRuns(s, l, i);
    var w, k := Started(s, l, i), |s.calls|;
    RunAppend(s, StartSteps(s, l, i), PassSteps(k, |s.payouts|, now));
    PassDisbursesIff(w, k, now);
    var u := PassedNow(s, l, i);
    ReadyPassed(s, l, i, w, u);
    if Ready(u, l, {}) {
      var t := Run(w, PassSteps(k, |w.payouts|, now));
      var w' := w.(verifications := u.verifications);
      DisbursedShape(w', t.(calls := w.calls, resolves := w.resolves, payouts := w.payouts), l, now);
      DisbursedCarried(w', t.(calls := w.calls, resolves := w.resolves, payouts := w.payouts), u,
                       t.(calls := s.calls, resolves := s.resolves, payouts := s.payouts), l, now);
    }
  }

  lemma DisbursedShape(s: Book, t: Book, l: nat, now: int)
    requires DisbursedExactly(s, t, l, now)
    ensures t == s.(funds := t.funds, loans := t.loans, accounts := t.accounts)
  {
  }

  lemma ReadyPassed(s: Book, l: nat, i: nat, w: Book, u: Book)
    requires Awaiting(s, l, i) && w == Started(s, l, i) && u == PassedNow(s, l, i)
    ensures Ready(u, l, {}) <==> Ready(w, l, {i})
  {
    assert forall j: nat :: Member(u, l, j) <==> Member(w, l, j);
    assert forall j: nat :: j != i ==> (Cleared(u, l, j) <==> Cleared(w, l, j));
    assert Cleared(u, l, i);
    assert AllCleared(u, l, {}) <==> AllCleared(w, l, {i});
  }

  /** A member that fails is escalated, replacing what was recorded before; the loan stays in verification. */
  lemma MemberFails(s: Book, l: nat, i: nat)
    requires Base(s) && Awaiting(s, l, i)
    ensures var t := Run(s, StartSteps(s, l, i) + [FinishStep(|s.calls|, false)]);
            t.(calls := s.calls)
            == SetStatus(s, l, VerificationInProgress).(verifications := s.verifications[i := Verification(l, Escalated, None, None)])
  {
    hide Run, Next;
    StartRuns(s, l, i);
    OvertakenWrites.RunStep(s, StartSteps(s, l, i), FinishStep(|s.calls|, false));
    OvertakenWrites.RunFinish(s, StartSteps(s, l, i), |s.calls|, false);
  }

  // ---------------------------------------------------------------- all members in turn

  /** The members are verified one after the other, each passing, the last one listed last. */
  ghost function InTurn(s: Book, l: nat, members: seq<nat>, now: int): Book {
    if members == [] then s
    else
      var front, i := InTurn(s, l, members[..|members| - 1], now), members[|members| - 1];
      if Awaiting(front, l, i) then Run(front, PassingSteps(front, l, i, now)) else front
  }

  function PassedAll(v: map<nat, Verification>, l: nat, members: seq<nat>): map<nat, Verification> {
    if members == [] then v
    else PassedAll(v, l, members[..|members| - 1])[members[|members| - 1] := Verification(l, Passed, None, None)]
  }

  /** All that is known of the loan while members have passed: in verification, and nothing disbursed. */
  ghost predicate SoFar(s: Book, t: Book, l: nat, members: seq<nat>) {
    && t == s.(loans := t.loans, verifications := PassedAll(s.verifications, l, members), calls := t.calls,
              resolves := t.resolves, payouts := t.payouts)
    && LoanAt(s, l).Some?
    && t.loans == if members == [] then s.loans else s.loans[l := Some(s.loans[l].value.(status := VerificationInProgress))]
  }

  /** Members to verify: pending, not passed yet, each listed once. */
  ghost predicate Listed(s: Book, l: nat, members: seq<nat>) {
    && (forall k :: 0 <= k < |members| ==> Awaiting(s, l, members[k]) && !Cleared(s, l, members[k]))
    && (forall j, k :: 0 <= j < k < |members| ==> members[j] != members[k])
  }

  lemma {:induction false} PassedAllAt(v: map<nat, Verification>, l: nat, members: seq<nat>, i: nat)
    ensures i in members ==> i in PassedAll(v, l, members) && PassedAll(v, l, members)[i] == Verification(l, Passed, None, None)
    ensures i !in members ==> (i in PassedAll(v, l, members) <==> i in v)
    ensures i !in members && i in v ==> PassedAll(v, l, members)[i] == v[i]
  {
    if members != [] {
      assert members == members[..|members| - 1] + [members[|members| - 1]];
      PassedAllAt(v, l, members[..|members| - 1], i);
    }
  }

  lemma SoFarBase(s: Book, t: Book, l: nat, members: seq<nat>, i: nat)
    requires SoFar(s, t, l, members) && Awaiting(s, l, i)
    ensures Awaiting(t, l, i) && (forall j: nat :: Member(t, l, j) <==> Member(s, l, j))
    ensures SetStatus(t, l, VerificationInProgress).loans == s.loans[l := Some(s.loans[l].value.(status := VerificationInProgress))]
  {
  }

  /** While one of the members listed is still to come, none is disbursed. */
  lemma {:induction false} InTurnWaits(s: Book, l: nat, members: seq<nat>, now: int, last: nat)
    requires Base(s) && Listed(s, l, members + [last])
    ensures SoFar(s, InTurn(s, l, members, now), l, members) && Base(InTurn(s, l, members, now))
  {
    hide Next, Base;
    assert (members + [last])[|members|] == last;
    if members != [] {
      var front, i := members[..|members| - 1], members[|members| - 1];
      assert (members + [last])[|front|] == i;
      ListedFront(s, l, members, last);
      InTurnWaits(s, l, front, now, i);
      var t := InTurn(s, l, front, now);
      SoFarBase(s, t, l, front, i);
      MemberPasses(t, l, i, now);
      var u := PassedNow(t, l, i);
      assert !Ready(u, l, {}) by {
        PassedAllAt(s.verifications, l, members, last);
        assert u.verifications == PassedAll(s.verifications, l, members);
        assert Awaiting(s, l, last) && !Cleared(s, l, last) by {
          assert (members + [last])[|members|] == last;
        }
        assert Member(u, l, last) && !Cleared(u, l, last);
      }
      RunKeepsBase(t, PassingSteps(t, l, i, now));
    }
  }

  lemma RunKeepsBase(s: Book, actions: seq<Action>)
    requires Base(s)
    ensures Base(Run(s, actions))
  {
    RunBase(s, actions);
  }

  lemma ListedFront(s: Book, l: nat, members: seq<nat>, last: nat)
    requires members != [] && Listed(s, l, members + [last])
    ensures Listed(s, l, members[..|members| - 1] + [members[|members| - 1]])
    ensures last !in members
  {
    var all := members + [last];
    assert forall k :: 0 <= k < |members| ==> all[k] == members[k];
    assert all[|members|] == last;
    assert members[..|members| - 1] + [members[|members| - 1]] == members;
  }

  /** With all of its members passed the loan is ready. */
  lemma LastReady(s: Book, l: nat, members: seq<nat>, u: Book, last: nat)
    requires Accepting(s, l) && Member(s, l, last)
    requires forall i: nat :: Member(s, l, i) ==> i in members || Cleared(s, l, i)
    requires s.loans[l].value.productId in s.products && s.loans[l].value.branchId in s.funds.balances
    requires s.funds.balances[s.loans[l].value.branchId] >= s.loans[l].value.cumulative
    requires u.funds == s.funds && u.products == s.products && u.accounts == s.accounts
    requires u.loans == SetStatus(s, l, VerificationInProgress).loans && u.verifications == PassedAll(s.verifications, l, members)
    ensures Ready(u, l, {})
  {
    forall i: nat | Member(u, l, i)
      ensures Cleared(u, l, i)
    {
      PassedAllAt(s.verifications, l, members, i);
      assert Member(s, l, i);
    }
    assert Member(u, l, last);
  }

  /**
   * If every member of an approved loan passes in turn, in whatever order, none of them disbursed before, the
   * product there and funds enough, the last pass disburses it: the branch is debited once, every account is
   * active and owes principal and interest. Up to then the balance is untouched (`InTurnWaits`).
   */
  lemma MembersPassInTurn(s: Book, l: nat, members: seq<nat>, last: nat, now: int)
    requires Base(s) && Listed(s, l, members + [last])
    requires forall i: nat :: Member(s, l, i) ==> i in members + [last] || Cleared(s, l, i)
    requires Accepting(s, l) && s.loans[l].value.productId in s.products && s.loans[l].value.branchId in s.funds.balances
    requires s.funds.balances[s.loans[l].value.branchId] >= s.loans[l].value.cumulative
    ensures var t := InTurn(s, l, members + [last], now);
            var passed := SetStatus(s, l, VerificationInProgress).(verifications := PassedAll(s.verifications, l, members + [last]));
            DisbursedExactly(passed, t.(calls := s.calls, resolves := s.resolves, payouts := s.payouts), l, now)
  {
    hide Next, Base, DisbursedExactly;
    assert (members + [last])[|members|] == last && (members + [last])[..|members|] == members;
    InTurnWaits(s, l, members, now, last);
    var w := InTurn(s, l, members, now);
    SoFarBase(s, w, l, members, last);
    MemberPasses(w, l, last, now);
    var u := PassedNow(w, l, last);
    assert u.verifications == PassedAll(s.verifications, l, members + [last]);
    LastReady(s, l, members + [last], u, last);
    var t := Run(w, PassingSteps(w, l, last, now));
    var passed := SetStatus(s, l, VerificationInProgress).(verifications := PassedAll(s.verifications, l, members + [last]));
    DisbursedShape(u, t.(calls := w.calls, resolves := w.resolves, payouts := w.payouts), l, now);
    DisbursedCarried(u, t.(calls := w.calls, resolves := w.resolves, payouts := w.payouts), passed,
                     t.(calls := s.calls, resolves := s.resolves, payouts := s.payouts), l, now);
  }
}
