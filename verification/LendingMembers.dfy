/** What a member sees of a loan: the interest quoted before and charged after disbursement; one open loan per customer. */
module LendingMembers {
  import opened Common
  import opened Schedule
  import opened Lending
  import opened LendingInvariant
  import opened LendingCoherence
  import opened LendingMoney
  import opened LendingAttempts

  // ---------------------------------------------------------------- the interest shown for a loan

  /** Interest from the schedule once there is one, an estimate from the product until then. */
  function ShownFor(l: nat, product: Option<Product>, tenureDays: int): Option<Account> -> int {
    (a: Option<Account>) =>
      if !Belongs(a, l) then 0
      else if a.value.schedule != [] then Sum(EntryInterest(), a.value.schedule)
      else if product.None? then 0
      else EstimatedInterest(product.value, a.value.principal, tenureDays)
  }

  function ShownInterest(s: Book, l: nat): int
    requires LoanAt(s, l).Some?
  {
    Sum(ShownFor(l, ProductFor(s, l), s.loans[l].value.tenureDays), s.accounts)
  }

  /** The terms of a loan that can no longer be edited. */
  predicate SameTerms(s: Book, t: Book, l: nat) {
    && LoanAt(s, l).Some? && LoanAt(t, l).Some?
    && s.loans[l].value.status != PendingApproval && t.loans[l].value.status != PendingApproval
    && t.loans[l].value.productId == s.loans[l].value.productId
    && t.loans[l].value.tenureDays == s.loans[l].value.tenureDays
  }

  /** Approved, and the product as it was. */
  predicate SameQuote(s: Book, t: Book, l: nat) {
    SameTerms(s, t, l) && ProductFor(t, l) == ProductFor(s, l)
  }

  lemma ShownCarried(s: Book, t: Book, l: nat)
    requires SameQuote(s, t, l) && |t.accounts| == |s.accounts|
    requires forall i :: 0 <= i < |s.accounts| && (Belongs(s.accounts[i], l) || Belongs(t.accounts[i], l)) ==>
               SameMember(s.accounts[i], t.accounts[i]) && t.accounts[i].value.principal == s.accounts[i].value.principal &&
               t.accounts[i].value.schedule == s.accounts[i].value.schedule
    ensures ShownInterest(t, l) == ShownInterest(s, l)
  {
    var f := ShownFor(l, ProductFor(s, l), s.loans[l].value.tenureDays);
    SumEqual(f, t.accounts, f, s.accounts);
  }

  /** Whatever else changes, the interest charged under the product does not. */
  predicate SamePricing(p: Product, q: Product) {
    p.interestRate == q.interestRate && p.interestType == q.interestType && p.repaymentPeriodDays == q.repaymentPeriodDays
  }

  lemma ChargedAsEstimated(a: Account, shown: Product, paid: Product, tenureDays: int, now: int, l: nat)
    requires a.schedule == [] && a.loanId == l && SamePricing(shown, paid)
    ensures var f := ShownFor(l, Some(shown), tenureDays);
            f(Some(Activating(paid, tenureDays, now)(a))) == f(Some(a))
  {
    EstimateMatchesSchedule(paid, a.principal, tenureDays, now);
  }

  /** Disbursing under the pricing shown replaces every estimate by a schedule that contains exactly that interest. */
  lemma EstimateIsCharged(s: Book, l: nat, paid: Product, now: int)
    requires Sound(s) && LoanAt(s, l).Some? && !IsDisbursed(s, l)
    requires ProductFor(s, l).Some? && SamePricing(ProductFor(s, l).value, paid)
    ensures LoanAt(PayOut(s, l, paid, now), l).Some?
    ensures ShownInterest(PayOut(s, l, paid, now), l) == ShownInterest(s, l)
  {
    if CanPay(s, l) {
      var loan, shown := s.loans[l].value, ProductFor(s, l).value;
      var f, accounts := ShownFor(l, Some(shown), loan.tenureDays), PayOut(s, l, paid, now).accounts;
      forall i | 0 <= i < |s.accounts|
        ensures f(accounts[i]) == f(s.accounts[i])
      {
        if Belongs(s.accounts[i], l) {
          assert AccountOk(s.accounts[i].value, loan);
          ChargedAsEstimated(s.accounts[i].value, shown, paid, loan.tenureDays, now, l);
        }
      }
      SumEqual(f, accounts, f, s.accounts);
    }
  }

  /** What a member of `l` owes beyond its principal. */
  function OwedBeyond(l: nat): Option<Account> -> int {
    (a: Option<Account>) => if Belongs(a, l) then a.value.outstanding.GetOr(0) - a.value.principal else 0
  }

  /** Once disbursed, the interest shown is what the members owe beyond their principals; so is the estimate before, by `EstimateIsCharged`. */
  lemma ShownIsOwed(s: Book, l: nat, paid: Product, now: int)
    requires CanPay(s, l)
    ensures var t := PayOut(s, l, paid, now);
            LoanAt(t, l).Some? && ShownInterest(t, l) == Sum(OwedBeyond(l), t.accounts)
  {
    var t, loan := PayOut(s, l, paid, now), s.loans[l].value;
    var f := ShownFor(l, ProductFor(t, l), loan.tenureDays);
    forall i | 0 <= i < |t.accounts|
      ensures f(t.accounts[i]) == OwedBeyond(l)(t.accounts[i])
    {
      if Belongs(s.accounts[i], l) {
        BuiltScheduleSound(paid, s.accounts[i].value.principal, loan.tenureDays, now);
      }
    }
    SumEqual(f, t.accounts, OwedBeyond(l), t.accounts);
  }

  lemma PayShown(s: Book, k: nat, paid: Product, now: int, l: nat)
    requires Sound(s) && SameQuote(s, s, l)
    requires k == l && CanPay(s, l) ==>
               !IsDisbursed(s, l) && ProductFor(s, l).Some? && SamePricing(ProductFor(s, l).value, paid)
    ensures SameQuote(s, PayOut(s, k, paid, now), l)
    ensures ShownInterest(PayOut(s, k, paid, now), l) == ShownInterest(s, l)
  {
    if k == l {
      if CanPay(s, l) {
        EstimateIsCharged(s, l, paid, now);
      }
    } else {
      ShownCarried(s, PayOut(s, k, paid, now), l);
    }
  }

  lemma QuietShown(s: Book, t: Book, l: nat)
    requires SameQuote(s, s, l) && StatusOnly(s, t) && t.products == s.products
    ensures SameQuote(s, t, l) && ShownInterest(t, l) == ShownInterest(s, l)
  {
    assert SameButStatus(s.loans[l], t.loans[l]);
  }

  lemma DeleteShown(s: Book, k: nat, actor: StaffId, l: nat)
    requires SameQuote(s, s, l)
    ensures SameQuote(s, Delete(s, k, actor), l) && ShownInterest(Delete(s, k, actor), l) == ShownInterest(s, l)
  {
    ShownCarried(s, Delete(s, k, actor), l);
  }

  lemma RaiseShown(s: Book, app: Application, initiated: bool, l: nat)
    requires Sound(s) && SameQuote(s, s, l)
    ensures SameQuote(s, Raise(s, app, initiated), l)
    ensures ShownInterest(Raise(s, app, initiated), l) == ShownInterest(s, l)
  {
    if CheckRaise(s, app).None? {
      RaiseAcceptedIff(s, app);
      var f, added := ShownFor(l, ProductFor(s, l), s.loans[l].value.tenureDays), NewAccounts(|s.loans|, app.requests);
      SumAppend(f, s.accounts, added);
      SumZero(f, added);
    }
  }

  lemma EditShown(s: Book, k: nat, actor: StaffId, changes: Changes, l: nat)
    requires Sound(s) && SameQuote(s, s, l)
    ensures SameQuote(s, Edit(s, k, actor, changes), l)
    ensures ShownInterest(Edit(s, k, actor, changes), l) == ShownInterest(s, l)
  {
    EditShape(s, k, actor, changes);
    if CheckEdit(s, k, actor, changes).None? {
      var t := Edit(s, k, actor, changes);
      forall i | 0 <= i < |s.accounts| && (Belongs(s.accounts[i], l) || Belongs(t.accounts[i], l))
        ensures t.accounts[i] == s.accounts[i]
      {
        assert EditedFrom(s.accounts[i], t.accounts[i]);
      }
      ShownCarried(s, t, l);
    }
  }

  lemma RejectShown(s: Book, k: nat, l: nat)
    requires SameQuote(s, s, l)
    ensures SameQuote(s, RejectTheLoan(s, k), l)
    ensures ShownInterest(RejectTheLoan(s, k), l) == ShownInterest(s, l)
  {
    ShownCarried(s, RejectTheLoan(s, k), l);
  }

  lemma HandoverShown(s: Book, i: nat, now: int, l: nat)
    requires Sound(s) && SameQuote(s, s, l)
    ensures SameQuote(s, ConfirmHandover(s, i, now), l)
    ensures ShownInterest(ConfirmHandover(s, i, now), l) == ShownInterest(s, l)
  {
    if CheckHandover(s, i).None? {
      var a := s.accounts[i].value;
      var loan := s.loans[a.loanId].value;
      assert AccountOk(a, loan);
      ReanchorKeepsAmounts(a.schedule, a.principal,
                           Terms(now, s.products[loan.productId].repaymentPeriodDays, loan.tenureDays));
      SumUpdate(ShownFor(l, ProductFor(s, l), s.loans[l].value.tenureDays), s.accounts, i, Some(HandedOver(s, i, now)));
    }
  }

  lemma BalanceStepShown(s: Book, i: nat, b: Account, l: nat)
    requires SameQuote(s, s, l) && AccountAt(s, i).Some?
    requires b == s.accounts[i].value.(outstanding := b.outstanding, status := b.status)
    ensures SameQuote(s, SetAccount(s, i, b), l) && ShownInterest(SetAccount(s, i, b), l) == ShownInterest(s, l)
  {
    ShownCarried(s, SetAccount(s, i, b), l);
  }

  lemma SameShown(s: Book, t: Book, l: nat)
    requires SameQuote(s, s, l) && t.loans == s.loans && t.accounts == s.accounts && t.products == s.products
    ensures SameQuote(s, t, l) && ShownInterest(t, l) == ShownInterest(s, l)
  {
  }

  lemma OtherShown(s: Book, a: Action, l: nat)
    requires Sound(s) && SameQuote(s, s, l) && !Quiet(a) && !Deciding(a)
    ensures SameQuote(s, Next(s, a), l) && ShownInterest(Next(s, a), l) == ShownInterest(s, l)
  {
    match a {
      case RaiseStep(app, initiated) => RaiseShown(s, app, initiated, l);
      case EditStep(k, actor, changes) => EditShown(s, k, actor, changes, l);
      case DeleteStep(k, actor) => DeleteShown(s, k, actor, l);
      case HandoverStep(i, now) => HandoverShown(s, i, now, l);
      case RepayStep(i, amount) => if EverScheduled(s, i) { BalanceStepShown(s, i, Repaid(s.accounts[i].value, amount), l); }
      case ReverseStep(i, amount) => if EverScheduled(s, i) { BalanceStepShown(s, i, Reversed(s.accounts[i].value, amount), l); }
      case PenaltyStep(i, amount) => if EverScheduled(s, i) { BalanceStepShown(s, i, Penalized(s.accounts[i].value, amount), l); }
    }
  }

  /** A save that cannot change what is shown for `l`: another product, the same pricing, or too late to matter. */
  predicate KeepsPrice(s: Book, a: Action, l: nat)
    requires LoanAt(s, l).Some?
  {
    a.SaveProduct? && a.productId == s.loans[l].value.productId && !IsDisbursed(s, l) ==>
      a.productId in s.products && SamePricing(s.products[a.productId], a.product)
  }

  /** Every attempt about to pay `l` out for the first time holds a product priced as the one shown. */
  ghost predicate PayoutsPriced(s: Book, l: nat) {
    !IsDisbursed(s, l) ==>
      forall k: nat :: AboutToPay(s, k) && s.payouts[k].loanId == l ==>
        ProductFor(s, l).Some? && SamePricing(ProductFor(s, l).value, s.payouts[k].stage.product)
  }

  lemma OtherProducts(s: Book, a: Action)
    requires !Quiet(a) && !Deciding(a)
    ensures Next(s, a).products == s.products
  {
  }

  lemma ProductsKept(s: Book, a: Action)
    requires !a.SaveProduct?
    ensures Next(s, a).products == s.products
  {
    hide Next;
    if Quiet(a) {
      QuietShape(s, a);
    } else if !Deciding(a) {
      OtherProducts(s, a);
    } else if Attempt(s, a).Some? {
      AttemptShape(s, a);
    } else if Rejecting(s, a).Some? {
      RejectShape(s, a);
    } else {
      IdleShape(s, a);
    }
  }

  /** What attempts hold stays priced as shown, as long as the product is. */
  lemma PricesKept(s: Book, a: Action, l: nat)
    requires Base(s) && SameTerms(s, Next(s, a), l) && PayoutsPriced(s, l) && KeepsPrice(s, a, l)
    ensures PayoutsPriced(Next(s, a), l)
  {
    hide Next;
    var t := Next(s, a);
    NextMoves(s, a);
    if IsDisbursed(s, l) {
      StaysDisbursed(s, a, l);
    }
    if a.SaveProduct? {
      SaveOnly(s, a);
    } else {
      ProductsKept(s, a);
    }
    forall k: nat | !IsDisbursed(t, l) && AboutToPay(t, k) && t.payouts[k].loanId == l
      ensures ProductFor(t, l).Some? && SamePricing(ProductFor(t, l).value, t.payouts[k].stage.product)
    {
      assert t.payouts[k] == Moved(s, a, k);
    }
  }

  lemma SaveOnly(s: Book, a: Action)
    requires a.SaveProduct?
    ensures Next(s, a) == s.(products := s.products[a.productId := a.product])
  {
  }

  lemma StepShown(s: Book, a: Action, l: nat)
    requires Sound(s) && SameQuote(s, s, l) && !a.SaveProduct? && !Repeats(s, a, l) && PayoutsPriced(s, l)
    ensures SameQuote(s, Next(s, a), l) && ShownInterest(Next(s, a), l) == ShownInterest(s, l)
  {
    hide Next, PayOut;
    if Quiet(a) {
      QuietShape(s, a);
      QuietShown(s, Next(s, a), l);
    } else if !Deciding(a) {
      OtherShown(s, a, l);
    } else if Attempt(s, a).Some? {
      AttemptShape(s, a);
      BeforeSound(s, a);
      SameShown(s, Before(s, a), l);
      PayShown(Before(s, a), Attempt(s, a).value, ProductPaid(s, a), a.now, l);
    } else if Rejecting(s, a).Some? {
      RejectShape(s, a);
      RejectShown(s, Rejecting(s, a).value, l);
      SameShown(RejectTheLoan(s, Rejecting(s, a).value), Next(s, a), l);
    } else {
      IdleShape(s, a);
      SameShown(s, Next(s, a), l);
    }
  }

  lemma SaveShown(s: Book, a: Action, l: nat)
    requires Sound(s) && SameTerms(s, s, l) && a.SaveProduct? && KeepsPrice(s, a, l)
    ensures SameTerms(s, Next(s, a), l) && ShownInterest(Next(s, a), l) == ShownInterest(s, l)
  {
    var t, loan := s.(products := s.products[a.productId := a.product]), s.loans[l].value;
    assert Next(s, a) == t;
    var f, g := ShownFor(l, ProductFor(s, l), loan.tenureDays), ShownFor(l, ProductFor(t, l), loan.tenureDays);
    forall i | 0 <= i < |s.accounts|
      ensures g(s.accounts[i]) == f(s.accounts[i])
    {
      if Belongs(s.accounts[i], l) {
        assert AccountOk(s.accounts[i].value, loan);
      }
    }
    SumEqual(g, s.accounts, f, s.accounts);
  }

  /** No save before the loan's disbursement changes the rate, the type or the period of its product. */
  ghost predicate KeepsPrices(s: Book, actions: seq<Action>, l: nat) {
    actions != [] ==>
      var front := actions[..|actions| - 1];
      && KeepsPrices(s, front, l)
      && (LoanAt(Run(s, front), l).Some? ==> KeepsPrice(Run(s, front), actions[|actions| - 1], l))
  }

  /**
   * From approval on, the interest shown for a loan never changes, through disbursement and beyond, as long as
   * its product keeps rate, type and period until then, attempts already under way hold them too, and the
   * loan is not paid out again.
   */
  lemma {:induction false} QuoteHolds(s: Book, actions: seq<Action>, l: nat)
    requires Sound(s) && Timely(s, actions) && Unrepeated(s, actions, l)
    requires SameTerms(s, s, l) && PayoutsPriced(s, l) && KeepsPrices(s, actions, l)
    ensures SameTerms(s, Run(s, actions), l) && PayoutsPriced(Run(s, actions), l)
    ensures ShownInterest(Run(s, actions), l) == ShownInterest(s, l)
  {
    hide Next;
    if actions != [] {
      var front, a := actions[..|actions| - 1], actions[|actions| - 1];
      QuoteHolds(s, front, l);
      RunSound(s, front);
      if a.SaveProduct? {
        SaveShown(Run(s, front), a, l);
      } else {
        StepShown(Run(s, front), a, l);
      }
      PricesKept(Run(s, front), a, l);
    }
  }

  /** In particular over timely runs in which attempts for the loan do not overlap, wherever they start. */
  lemma ApartQuoteHolds(s: Book, actions: seq<Action>, l: nat)
    requires Sound(s) && Timely(s, actions) && AloneOn(s, l) && ApartOn(s, actions, l)
    requires SameTerms(s, s, l) && PayoutsPriced(s, l) && KeepsPrices(s, actions, l)
    ensures SameTerms(s, Run(s, actions), l)
    ensures ShownInterest(Run(s, actions), l) == ShownInterest(s, l)
  {
    hide Next, AloneOn, ApartOn;
    ApartIsUnrepeated(s, actions, l);
    QuoteHolds(s, actions, l);
  }

  // ---------------------------------------------------------------- one open loan per customer

  ghost predicate OneOpenLoan(s: Book) {
    forall i, j :: 0 <= i < j < |s.accounts| && Open(s.accounts[i]) && Open(s.accounts[j]) ==>
      s.accounts[i].value.customerId != s.accounts[j].value.customerId
  }

  ghost predicate OpensNone(s: Book, t: Book) {
    && |t.accounts| == |s.accounts|
    && forall i :: 0 <= i < |t.accounts| && Open(t.accounts[i]) ==>
         Open(s.accounts[i]) && t.accounts[i].value.customerId == s.accounts[i].value.customerId
  }

  lemma OpensNoneKeepsOne(s: Book, t: Book)
    requires OneOpenLoan(s) && OpensNone(s, t)
    ensures OneOpenLoan(t)
  {
  }

  lemma RaiseKeepsOneOpen(s: Book, app: Application, initiated: bool)
    requires OneOpenLoan(s)
    ensures OneOpenLoan(Raise(s, app, initiated))
  {
    RaiseAcceptedIff(s, app);
    if CheckRaise(s, app).None? {
      var t, n := Raise(s, app, initiated), |s.accounts|;
      forall i, j | 0 <= i < j < |t.accounts| && Open(t.accounts[i]) && Open(t.accounts[j])
        ensures t.accounts[i].value.customerId != t.accounts[j].value.customerId
      {
        if j >= n {
          assert t.accounts[j].value.customerId == app.requests[j - n].customerId;
          assert Names(app.requests, t.accounts[j].value.customerId);
          if i < n {
            assert t.accounts[i] == s.accounts[i];
          } else {
            assert t.accounts[i].value.customerId == app.requests[i - n].customerId;
          }
        }
      }
    }
  }

  lemma EditOpensNone(s: Book, l: nat, actor: StaffId, changes: Changes)
    ensures OpensNone(s, Edit(s, l, actor, changes))
  {
    EditShape(s, l, actor, changes);
    var t := Edit(s, l, actor, changes);
    forall i | 0 <= i < |t.accounts| && Open(t.accounts[i])
      ensures Open(s.accounts[i]) && t.accounts[i].value.customerId == s.accounts[i].value.customerId
    {
      assert EditedFrom(s.accounts[i], t.accounts[i]);
    }
  }

  lemma OtherOpensNone(s: Book, a: Action)
    requires !Quiet(a) && !Deciding(a) && !a.RaiseStep? && !a.ReverseStep?
    ensures OpensNone(s, Next(s, a))
  {
    if a.EditStep? {
      EditOpensNone(s, a.loan, a.actor, a.changes);
    }
  }

  lemma RejectOpensNone(s: Book, l: nat)
    ensures OpensNone(s, RejectTheLoan(s, l))
  {
  }

  /** The customer of account `i` has another open one. */
  predicate HasOtherOpen(s: Book, i: nat)
    requires AccountAt(s, i).Some?
  {
    exists j :: 0 <= j < |s.accounts| && j != i && Open(s.accounts[j]) &&
                s.accounts[j].value.customerId == s.accounts[i].value.customerId
  }

  /** A reversal reopens a closed account although its customer has since taken another loan. */
  predicate ReopensSecond(s: Book, i: nat, amount: nat) {
    && EverScheduled(s, i)
    && s.accounts[i].value.status == AccountStatus.Closed && s.accounts[i].value.outstanding.value + amount > 0
    && HasOtherOpen(s, i)
  }

  /** A late payment activates a closed account although its customer has since taken another loan. */
  predicate ActivatesSecond(s: Book, l: nat) {
    exists i: nat :: i < |s.accounts| && Belongs(s.accounts[i], l) && !Open(s.accounts[i]) && HasOtherOpen(s, i)
  }

  predicate OpensSecond(s: Book, a: Action) {
    || (a.ReverseStep? && ReopensSecond(s, a.account, a.amount))
    || (Attempt(s, a).Some? && PaysOut(s, a, Attempt(s, a).value) && ActivatesSecond(s, Attempt(s, a).value))
  }

  lemma BothOpen(t: Book, i: nat, j: nat)
    requires i < |t.accounts| && j < |t.accounts| && i != j && Open(t.accounts[i]) && Open(t.accounts[j])
    requires t.accounts[i].value.customerId == t.accounts[j].value.customerId
    ensures !OneOpenLoan(t)
  {
    if i < j {
      assert Open(t.accounts[i]);
    } else {
      assert Open(t.accounts[j]);
    }
  }

  lemma ReverseKeepsOneOpenIff(s: Book, i: nat, amount: nat)
    requires OneOpenLoan(s)
    ensures OneOpenLoan(Reverse(s, i, amount)) <==> !ReopensSecond(s, i, amount)
  {
    if EverScheduled(s, i) {
      var t := Reverse(s, i, amount);
      if ReopensSecond(s, i, amount) {
        var j :| 0 <= j < |s.accounts| && j != i && Open(s.accounts[j]) &&
                 s.accounts[j].value.customerId == s.accounts[i].value.customerId;
        BothOpen(t, i, j);
      } else {
        forall j, k | 0 <= j < k < |t.accounts| && Open(t.accounts[j]) && Open(t.accounts[k])
          ensures t.accounts[j].value.customerId != t.accounts[k].value.customerId
        {
        }
      }
    }
  }

  lemma PaidAccount(s: Book, l: nat, product: Product, now: int, i: nat)
    requires CanPay(s, l) && i < |s.accounts|
    ensures var a := AccountAt(PayOut(s, l, product, now), i);
            && (a.Some? <==> s.accounts[i].Some?)
            && (a.Some? ==> a.value.customerId == s.accounts[i].value.customerId)
            && (Open(a) <==> Open(s.accounts[i]) || Belongs(s.accounts[i], l))
  {
  }

  lemma PaidLength(s: Book, l: nat, product: Product, now: int)
    ensures |PayOut(s, l, product, now).accounts| == |s.accounts|
  {
  }

  lemma PayKeepsOneOpenIff(s: Book, l: nat, product: Product, now: int)
    requires Base(s) && OneOpenLoan(s) && CanPay(s, l)
    ensures OneOpenLoan(PayOut(s, l, product, now)) <==> !ActivatesSecond(s, l)
  {
    hide PayOut, LinksOk, RefsOk;
    PaidLength(s, l, product, now);
    forall i: nat | i < |s.accounts|
      ensures var a := AccountAt(PayOut(s, l, product, now), i);
              && (a.Some? <==> s.accounts[i].Some?)
              && (a.Some? ==> a.value.customerId == s.accounts[i].value.customerId)
              && (Open(a) <==> Open(s.accounts[i]) || Belongs(s.accounts[i], l))
    {
      PaidAccount(s, l, product, now, i);
    }
    var t := PayOut(s, l, product, now);
    if ActivatesSecond(s, l) {
      var i: nat :| i < |s.accounts| && Belongs(s.accounts[i], l) && !Open(s.accounts[i]) && HasOtherOpen(s, i);
      var j :| 0 <= j < |s.accounts| && j != i && Open(s.accounts[j]) &&
               s.accounts[j].value.customerId == s.accounts[i].value.customerId;
      BothOpen(t, i, j);
    }
    if !OneOpenLoan(t) {
      var j: nat, k: nat :| j < k < |t.accounts| && Open(t.accounts[j]) && Open(t.accounts[k]) &&
                            t.accounts[j].value.customerId == t.accounts[k].value.customerId;
      PaidApart(s, l, j, k);
    }
  }

  /** Two accounts of one customer are on different loans; if both are open after a payment, it opened one of them. */
  lemma PaidApart(s: Book, l: nat, j: nat, k: nat)
    requires Base(s) && OneOpenLoan(s) && j < k < |s.accounts| && s.accounts[j].Some? && s.accounts[k].Some?
    requires s.accounts[j].value.customerId == s.accounts[k].value.customerId
    requires Belongs(s.accounts[j], l) || Open(s.accounts[j])
    requires Belongs(s.accounts[k], l) || Open(s.accounts[k])
    ensures ActivatesSecond(s, l)
  {
    if Open(s.accounts[j]) {
      assert HasOtherOpen(s, k);
    } else {
      assert HasOtherOpen(s, j);
    }
  }

  lemma AttemptKeepsOneOpenIff(s: Book, a: Action)
    requires Base(s) && OneOpenLoan(s) && Attempt(s, a).Some?
    ensures OneOpenLoan(Next(s, a)) <==> !OpensSecond(s, a)
  {
    hide Next;
    AttemptShape(s, a);
    var b, l := Before(s, a), Attempt(s, a).value;
    PayoutBase(s, a.payout, Over);
    assert OneOpenLoan(b) && (ActivatesSecond(b, l) <==> ActivatesSecond(s, l)) by {
      assert forall i: nat :: AccountAt(s, i).Some? ==> (HasOtherOpen(b, i) <==> HasOtherOpen(s, i));
    }
    if CanPay(s, l) {
      PayKeepsOneOpenIff(b, l, ProductPaid(s, a), a.now);
    }
  }

  lemma OtherKeepsOneOpen(s: Book, a: Action)
    requires OneOpenLoan(s) && Attempt(s, a).None? && !a.ReverseStep?
    ensures OneOpenLoan(Next(s, a))
  {
    hide Next;
    if a.RaiseStep? {
      RaiseIs(s, a);
      RaiseKeepsOneOpen(s, a.app, a.initiated);
    } else {
      if Quiet(a) {
        QuietShape(s, a);
      } else if !Deciding(a) {
        OtherOpensNone(s, a);
      } else if Rejecting(s, a).Some? {
        RejectShape(s, a);
        RejectOpensNone(s, Rejecting(s, a).value);
      } else {
        IdleShape(s, a);
      }
      OpensNoneKeepsOne(s, Next(s, a));
    }
  }

  lemma RaiseIs(s: Book, a: Action)
    requires a.RaiseStep?
    ensures Next(s, a) == Raise(s, a.app, a.initiated)
  {
  }

  lemma ReverseIs(s: Book, a: Action)
    requires a.ReverseStep?
    ensures Next(s, a) == Reverse(s, a.account, a.amount)
  {
  }

  /** A step keeps one open account per customer exactly when it does not open a second one in one of two ways. */
  lemma OneOpenStepIff(s: Book, a: Action)
    requires Base(s) && OneOpenLoan(s)
    ensures OneOpenLoan(Next(s, a)) <==> !OpensSecond(s, a)
  {
    hide Next;
    if a.ReverseStep? {
      ReverseIs(s, a);
      ReverseKeepsOneOpenIff(s, a.account, a.amount);
    } else if Attempt(s, a).Some? {
      AttemptKeepsOneOpenIff(s, a);
    } else {
      OtherKeepsOneOpen(s, a);
    }
  }

  ghost predicate OneOpenThroughout(s: Book, actions: seq<Action>) {
    OneOpenLoan(Run(s, actions)) && (actions != [] ==> OneOpenThroughout(s, actions[..|actions| - 1]))
  }

  /** No step along the run opens a second account. */
  ghost predicate NoSecondOpened(s: Book, actions: seq<Action>) {
    actions != [] ==>
      var front := actions[..|actions| - 1];
      NoSecondOpened(s, front) && !OpensSecond(Run(s, front), actions[|actions| - 1])
  }

  /** Over any run whatsoever a customer has at most one open loan at every point exactly when no step opens a second. */
  lemma {:induction false} OneOpenRunIff(s: Book, actions: seq<Action>)
    requires Base(s) && OneOpenLoan(s)
    ensures OneOpenThroughout(s, actions) <==> NoSecondOpened(s, actions)
    ensures NoSecondOpened(s, actions) ==> OneOpenLoan(Run(s, actions))
  {
    hide Next;
    if actions != [] {
      var front := actions[..|actions| - 1];
      OneOpenRunIff(s, front);
      RunBase(s, front);
      if NoSecondOpened(s, front) {
        OneOpenStepIff(Run(s, front), actions[|actions| - 1]);
      }
    }
  }
}
