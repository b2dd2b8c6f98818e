/**
 * What each of the smaller operations of the loan lifecycle accepts and does, in terms of the documents
 * themselves: raising, editing, deleting, deciding, handing over, repaying and reversing.
 */
module LendingEffects {
  import opened Common
  import opened Schedule
  import opened Lending
  import opened LendingInvariant
  import opened LendingMoney
  import LendingPasses

  // ---------------------------------------------------------------- raising

  /** Pending, unscheduled, for the customer, amount, channel and bank details of the request. */
  predicate RaisedFor(a: Account, l: nat, r: MemberRequest) {
    && a.loanId == l && a.customerId == r.customerId && a.principal == r.amount && a.channel == r.channel
    && a.bankDetails == r.bankDetails && a.schedule == [] && a.outstanding == None && a.handedOverAt == None
    && a.status == AccountStatus.Pending
  }

  predicate RaisedLoan(loan: Loan, app: Application) {
    && app.group.Some? && loan.branchId == app.group.value.branchId
    && loan.productId == app.productId && loan.tenureDays == app.tenureDays
    && loan.cumulative == Sum(AmountOf(), app.requests) && loan.status == PendingApproval
    && loan.raisedBy == app.raisedBy && loan.disbursedAt == None
  }

  /** One pending loan with the application's terms, and one account for each of its requests, in their order. */
  ghost predicate RaisedExactly(s: Book, t: Book, app: Application, initiated: bool) {
    var l := |s.loans|;
    && t == s.(loans := t.loans, accounts := t.accounts, requests := t.requests)
    && |t.loans| == l + 1 && t.loans[..l] == s.loans && t.loans[l].Some? && RaisedLoan(t.loans[l].value, app)
    && |t.accounts| == |s.accounts| + |app.requests| && t.accounts[..|s.accounts|] == s.accounts
    && (forall i: nat :: i < |app.requests| ==>
          t.accounts[|s.accounts| + i].Some? && RaisedFor(t.accounts[|s.accounts| + i].value, l, app.requests[i]))
    && t.requests == if initiated then s.requests[l := Undecided] else s.requests
  }

  lemma RaisedAccount(l: nat, requests: seq<MemberRequest>, i: nat)
    requires AllPositive(requests) && i < |requests|
    ensures NewAccounts(l, requests)[i].Some? && RaisedFor(NewAccounts(l, requests)[i].value, l, requests[i])
  {
  }

  lemma RaisedFrom(s: Book, t: Book, app: Application, initiated: bool, added: seq<Option<Account>>, loan: Loan)
    requires t == s.(loans := s.loans + [Some(loan)], accounts := s.accounts + added,
                     requests := if initiated then s.requests[|s.loans| := Undecided] else s.requests)
    requires RaisedLoan(loan, app) && |added| == |app.requests|
    requires forall i: nat :: i < |added| ==> added[i].Some? && RaisedFor(added[i].value, |s.loans|, app.requests[i])
    ensures RaisedExactly(s, t, app, initiated)
  {
    hide RaisedFor, RaisedLoan;
    forall i: nat | i < |app.requests|
      ensures t.accounts[|s.accounts| + i].Some? && RaisedFor(t.accounts[|s.accounts| + i].value, |s.loans|, app.requests[i])
    {
      assert t.accounts[|s.accounts| + i] == added[i];
    }
  }

  /** An application that meets all conditions is written exactly; any other leaves everything as it is. */
  lemma RaiseWrites(s: Book, app: Application, initiated: bool)
    ensures CheckRaise(s, app).None? ==> RaisedExactly(s, Raise(s, app, initiated), app, initiated)
    ensures CheckRaise(s, app).Some? ==> Raise(s, app, initiated) == s
  {
    hide RaisedFor, RaisedExactly, CheckRaise, NoneBlocked, AllActive, AllDetailed, DistinctCustomers;
    RaiseAcceptedIff(s, app);
    if CheckRaise(s, app).None? {
      var added := NewAccounts(|s.loans|, app.requests);
      forall i: nat | i < |added|
        ensures added[i].Some? && RaisedFor(added[i].value, |s.loans|, app.requests[i])
      {
        RaisedAccount(|s.loans|, app.requests, i);
      }
      RaisedFrom(s, Raise(s, app, initiated), app, initiated, added, NewLoan(app, app.group.value.branchId));
    }
  }

  // ---------------------------------------------------------------- editing

  /** Only whoever raised the loan may act on it, and only while it is pending. */
  predicate MayChange(s: Book, l: nat, actor: StaffId) {
    && l < |s.loans| && s.loans[l].Some?
    && s.loans[l].value.raisedBy == actor && s.loans[l].value.status == PendingApproval
  }

  /** An edit is taken up exactly by the raiser of a pending loan, with a tenure, if any, that the loan's product offers. */
  lemma EditAcceptedIff(s: Book, l: nat, actor: StaffId, changes: Changes)
    ensures CheckEdit(s, l, actor, changes).None? <==>
            && MayChange(s, l, actor)
            && (changes.tenureDays.Some? ==>
                  && s.loans[l].value.productId in s.products
                  && changes.tenureDays.value in s.products[s.loans[l].value.productId].tenureOptions)
    ensures CheckEdit(s, l, actor, changes).Some? ==> Edit(s, l, actor, changes) == s
  {
  }

  /** The request names a member, asks a positive amount, and has bank details if it is a transfer. */
  ghost predicate GoodRequest(s: Book, l: nat, r: MemberRequest) {
    && (exists i: nat :: IsOn(s, i, l) && s.accounts[i].value.customerId == r.customerId)
    && r.amount >= 1 && (r.channel == Transfer ==> r.bankDetails.Some?)
  }

  lemma EditErrorIff(s: Book, l: nat, r: MemberRequest)
    ensures EditError(s.accounts, l, r).None? <==> GoodRequest(s, l, r)
  {
    var found := FindMember(s.accounts, l, r.customerId);
    if found.Some? {
      assert IsOn(s, found.value, l);
    } else {
      forall i: nat | IsOn(s, i, l)
        ensures s.accounts[i].value.customerId != r.customerId
      {
        assert Belongs(s.accounts[i], l);
      }
    }
  }

  /** An edit runs to its end exactly when all its requests are good; otherwise it stops at the first that is not. */
  lemma EditCompletesIff(s: Book, l: nat, changes: Changes)
    ensures EditCompletes(s, l, changes) <==>
            (changes.requests.Some? ==> forall k :: 0 <= k < |changes.requests.value| ==> GoodRequest(s, l, changes.requests.value[k]))
    ensures changes.requests.Some? ==>
              var edits := changes.requests.value;
              var saved := SavedEdits(s.accounts, l, edits);
              && (forall k :: 0 <= k < saved ==> GoodRequest(s, l, edits[k]))
              && (saved < |edits| ==> !GoodRequest(s, l, edits[saved]))
  {
    var edits := RequestedEdits(changes);
    forall k | 0 <= k < |edits|
      ensures EditError(s.accounts, l, edits[k]).None? <==> GoodRequest(s, l, edits[k])
    {
      EditErrorIff(s, l, edits[k]);
    }
  }

  /** Request `k` is the last one of `edits` that names `c`. */
  predicate NamedLast(edits: seq<MemberRequest>, c: CustomerId, k: nat) {
    k < |edits| && edits[k].customerId == c && forall j :: k < j < |edits| ==> edits[j].customerId != c
  }

  /** The member holds what the request asks; bank details are kept for transfers only. */
  predicate AsAsked(a: Account, b: Account, r: MemberRequest) {
    && b.principal == r.amount && b.channel == r.channel
    && b.bankDetails == (if r.channel == Transfer then r.bankDetails else None)
    && b.loanId == a.loanId && b.customerId == a.customerId && b.schedule == a.schedule
    && b.outstanding == a.outstanding && b.status == a.status && b.handedOverAt == a.handedOverAt
  }

  lemma {:induction false} LastRequestNamed(edits: seq<MemberRequest>, c: CustomerId)
    ensures LastRequest(edits, c).Some? <==> exists k: nat :: NamedLast(edits, c, k)
    ensures forall k: nat :: NamedLast(edits, c, k) ==> LastRequest(edits, c) == Some(edits[k])
    ensures LastRequest(edits, c).None? ==> forall k :: 0 <= k < |edits| ==> edits[k].customerId != c
  {
    if edits != [] {
      var front := edits[..|edits| - 1];
      LastRequestNamed(front, c);
      if edits[|edits| - 1].customerId == c {
        assert NamedLast(edits, c, |edits| - 1);
      } else {
        forall k: nat
          ensures NamedLast(edits, c, k) <==> NamedLast(front, c, k)
        {
          assert k < |front| ==> edits[k] == front[k];
          assert forall j :: 0 <= j < |front| ==> edits[j] == front[j];
        }
      }
    }
  }

  lemma {:induction false} SavedMember(s: Book, l: nat, edits: seq<MemberRequest>, i: nat)
    requires Base(s) && NoEditErrors(s.accounts, l, edits) && i < |s.accounts|
    ensures var b := ApplyEdits(s.accounts, l, edits)[i];
            && (!IsOn(s, i, l) ==> b == s.accounts[i])
            && (IsOn(s, i, l) ==>
                  && b.Some?
                  && (forall k: nat :: NamedLast(edits, s.accounts[i].value.customerId, k) ==>
                        AsAsked(s.accounts[i].value, b.value, edits[k]))
                  && ((forall k :: 0 <= k < |edits| ==> edits[k].customerId != s.accounts[i].value.customerId) ==>
                        b == s.accounts[i]))
  {
    EditedAsRequested(s, l, edits, i);
    if IsOn(s, i, l) {
      var c := s.accounts[i].value.customerId;
      LastRequestNamed(edits, c);
      forall k: nat | NamedLast(edits, c, k)
        ensures edits[k].amount >= 1
      {
        assert EditError(s.accounts, l, edits[k]).None?;
      }
    }
  }

  /**
   * After an edit each member holds amount, channel and bank details of the last request for it among those saved,
   * or what it held before; accounts of other loans stay. If the edit finished, the loan has the tenure asked for
   * and the total of the principals as its cumulative amount, and if not, the loan is as it was.
   */
  lemma EditWrites(s: Book, l: nat, actor: StaffId, changes: Changes, i: nat)
    requires Base(s) && CheckEdit(s, l, actor, changes).None? && i < |s.accounts|
    ensures var t, edits := Edit(s, l, actor, changes), changes.requests.GetOr([]);
            var saved := edits[..SavedEdits(s.accounts, l, edits)];
            && |t.accounts| == |s.accounts| && t == s.(accounts := t.accounts, loans := t.loans)
            && (!IsOn(s, i, l) ==> t.accounts[i] == s.accounts[i])
            && (IsOn(s, i, l) ==>
                  && t.accounts[i].Some?
                  && (forall k: nat :: NamedLast(saved, s.accounts[i].value.customerId, k) ==>
                        AsAsked(s.accounts[i].value, t.accounts[i].value, saved[k]))
                  && ((forall k :: 0 <= k < |saved| ==> saved[k].customerId != s.accounts[i].value.customerId) ==>
                        t.accounts[i] == s.accounts[i]))
            && t.loans == if !EditCompletes(s, l, changes) then s.loans
                          else s.loans[l := Some(s.loans[l].value.(
                                 tenureDays := if changes.tenureDays.Some? then changes.tenureDays.value else s.loans[l].value.tenureDays,
                                 cumulative := Principals(t.accounts, l)))]
  {
    var edits := RequestedEdits(changes);
    SavedMember(s, l, edits[..SavedEdits(s.accounts, l, edits)], i);
  }

  // ---------------------------------------------------------------- deleting and deciding

  /** The raiser of a pending loan deletes it with exactly its accounts and withdraws its request; nobody else can. */
  lemma DeleteWrites(s: Book, l: nat, actor: StaffId)
    ensures CheckRaiser(s, l, actor).None? <==> MayChange(s, l, actor)
    ensures !MayChange(s, l, actor) ==> Delete(s, l, actor) == s
    ensures MayChange(s, l, actor) ==>
              var t := Delete(s, l, actor);
              && t == s.(loans := s.loans[l := None], accounts := t.accounts, requests := t.requests)
              && |t.accounts| == |s.accounts|
              && (forall i: nat :: i < |s.accounts| ==> t.accounts[i] == if IsOn(s, i, l) then None else s.accounts[i])
              && t.requests == if RequestOf(s, l) == Some(Undecided) then s.requests[l := Cancelled] else s.requests
  {
  }

  /** An approval moves a loan that is PENDING_APPROVAL to APPROVED; delivered to any other it changes nothing. */
  lemma ApprovalWrites(s: Book, l: nat)
    ensures var pending := l < |s.loans| && s.loans[l].Some? && s.loans[l].value.status == PendingApproval;
            HandleApproved(s, l) == if pending then s.(loans := s.loans[l := Some(s.loans[l].value.(status := LoanStatus.Approved))]) else s
  {
  }

  /** A rejection closes the loan and its accounts, whatever their status. */
  lemma RejectionWrites(s: Book, l: nat)
    ensures LoanAt(s, l).None? ==> RejectTheLoan(s, l) == s
    ensures LoanAt(s, l).Some? ==>
              var t := RejectTheLoan(s, l);
              t == s.(loans := t.loans, accounts := t.accounts) && LendingPasses.RejectedExactly(s, t, l)
  {
  }

  // ---------------------------------------------------------------- handing over

  /** A disbursed cheque not yet handed over; if it has a schedule its loan and product must be there. */
  predicate Deliverable(s: Book, i: nat) {
    && i < |s.accounts| && s.accounts[i].Some?
    && var a := s.accounts[i].value;
       && a.channel == ChequePickup && a.status == AccountStatus.Active && a.handedOverAt == None
       && (a.schedule != [] ==>
             && a.loanId < |s.loans| && s.loans[a.loanId].Some?
             && s.loans[a.loanId].value.productId in s.products)
  }

  /**
   * A handover is accepted exactly for an active cheque not handed over before. It notes the instant and dates
   * instalment number k that many periods of 86,400,000 milliseconds after it, the last when the tenure ends.
   */
  lemma HandoverWrites(s: Book, i: nat, now: int)
    ensures CheckHandover(s, i).None? <==> Deliverable(s, i)
    ensures !Deliverable(s, i) ==> ConfirmHandover(s, i, now) == s
    ensures Deliverable(s, i) ==>
              && AccountAt(ConfirmHandover(s, i, now), i).Some?
              && var t, a, b := ConfirmHandover(s, i, now), s.accounts[i].value, ConfirmHandover(s, i, now).accounts[i].value;
                 && t == s.(accounts := s.accounts[i := Some(b)])
                 && b == a.(handedOverAt := Some(now), schedule := b.schedule) && |b.schedule| == |a.schedule|
                 && forall k :: 0 <= k < |a.schedule| ==>
                      var loan := s.loans[a.loanId].value;
                      && b.schedule[k] == a.schedule[k].(dueDate := b.schedule[k].dueDate)
                      && b.schedule[k].dueDate
                         == now + 86_400_000 * if a.schedule[k].installmentNumber == |a.schedule| then loan.tenureDays
                                               else a.schedule[k].installmentNumber * s.products[loan.productId].repaymentPeriodDays
  {
  }

  // ---------------------------------------------------------------- repaying

  /** A repayment lowers the balance by its amount, at most to zero, and closes the account exactly when nothing is left. */
  lemma RepaymentWrites(s: Book, i: nat, amount: nat)
    requires i < |s.accounts| && s.accounts[i].Some? && s.accounts[i].value.outstanding.Some?
    ensures AccountAt(Repay(s, i, amount), i).Some?
    ensures var t, a, b := Repay(s, i, amount), s.accounts[i].value, Repay(s, i, amount).accounts[i].value;
            var balance := a.outstanding.value;
            && t == s.(accounts := s.accounts[i := Some(b)])
            && b == a.(outstanding := b.outstanding, status := b.status) && b.outstanding.Some?
            && b.outstanding.value >= 0
            && (amount <= balance ==> b.outstanding.value + amount == balance)
            && (amount > balance ==> b.outstanding.value == 0)
            && b.status == if b.outstanding.value == 0 then AccountStatus.Closed else a.status
  {
  }

  /** A reversal, and a penalty, add their amount to the balance; a reversal reopens a closed account that then owes something. */
  lemma ReversalWrites(s: Book, i: nat, amount: nat)
    requires i < |s.accounts| && s.accounts[i].Some? && s.accounts[i].value.outstanding.Some?
    ensures var a := s.accounts[i].value;
            var raised := a.(outstanding := Some(a.outstanding.value + amount));
            && Penalize(s, i, amount) == s.(accounts := s.accounts[i := Some(raised)])
            && Reverse(s, i, amount)
               == s.(accounts := s.accounts[i := Some(
                    if a.status == AccountStatus.Closed && a.outstanding.value + amount > 0
                    then raised.(status := AccountStatus.Active) else raised)])
  {
  }

  /**
   * Reversing what a repayment took off the balance restores an account, closed or not, exactly if it was closed
   * when, and only when, it owed nothing.
   */
  lemma ReversalUndoesIff(s: Book, i: nat, amount: nat)
    requires i < |s.accounts| && s.accounts[i].Some? && s.accounts[i].value.outstanding.Some?
    requires s.accounts[i].value.status == AccountStatus.Active || s.accounts[i].value.status == AccountStatus.Closed
    requires s.accounts[i].value.outstanding.value >= 0
    ensures var a := s.accounts[i].value;
            var taken := if amount <= a.outstanding.value then amount else a.outstanding.value;
            Reverse(Repay(s, i, amount), i, taken) == s <==> (a.status == AccountStatus.Closed <==> a.outstanding.value == 0)
  {
    var a, t := s.accounts[i].value, Repay(s, i, amount);
    var taken := if amount <= a.outstanding.value then amount else a.outstanding.value;
    RepaymentWrites(s, i, amount);
    ReversalWrites(t, i, taken);
    var u := Reverse(t, i, taken);
    assert u.accounts == s.accounts[i := u.accounts[i]];
    if a.status == AccountStatus.Closed <==> a.outstanding.value == 0 {
      assert u.accounts[i] == s.accounts[i];
      assert s.accounts[i := s.accounts[i]] == s.accounts;
    } else {
      assert u.accounts[i].value.status != a.status;
    }
  }
}
