/**
 * Attempts to disburse that overlap. A loan is paid out a second time exactly when a transaction runs on it
 * although another attempt has paid it since this one read it; attempts that do not overlap never do that.
 */
module LendingAttempts {
  import opened Common
  import opened Schedule
  import opened Lending
  import opened LendingInvariant
  import opened LendingCoherence
  import opened LendingMoney
  import BranchFunds

  // ---------------------------------------------------------------- how attempts move

  /** An attempt that found its loan in verification and has neither given up nor run its transaction. */
  predicate UnderWay(s: Book, k: nat, l: nat) {
    && k < |s.payouts| && s.payouts[k].loanId == l
    && (s.payouts[k].stage.Clearing? || s.payouts[k].stage.Pricing? || s.payouts[k].stage.Paying?)
  }

  /** The step is the read by which attempt `k` finds loan `l` in verification. */
  predicate Reads(s: Book, a: Action, k: nat, l: nat) {
    && a.OpenStep? && a.payout == k && k < |s.payouts| && s.payouts[k] == Payout(l, Opening)
    && InVerification(s, l)
  }

  /** What a step makes of attempt `k`. */
  function Moved(s: Book, a: Action, k: nat): Payout
    requires k < |s.payouts|
  {
    var p := s.payouts[k];
    if a.OpenStep? && a.payout == k && p.stage.Opening? then
      p.(stage := if InVerification(s, p.loanId) then Clearing else Over)
    else if a.ClearStep? && a.payout == k && p.stage.Clearing? then
      p.(stage := if AllPassed(s, p.loanId) then Pricing else Over)
    else if a.PriceStep? && a.payout == k && p.stage.Pricing? then
      p.(stage := if ProductFor(s, p.loanId).Some? then Paying(ProductFor(s, p.loanId).value) else Over)
    else if a.PayStep? && a.payout == k && p.stage.Paying? then p.(stage := Over)
    else p
  }

  /** Attempts are only ever added, not yet begun, and moved by their own steps. */
  ghost predicate Moves(s: Book, a: Action, t: Book) {
    && |s.payouts| <= |t.payouts|
    && (forall k: nat :: k < |s.payouts| ==> t.payouts[k] == Moved(s, a, k))
    && (forall k: nat :: |s.payouts| <= k < |t.payouts| ==> t.payouts[k].stage.Opening?)
  }

  predicate MovesPayout(a: Action) {
    a.RetryStep? || a.FinishStep? || a.FinishResolveStep? || a.OpenStep? || a.ClearStep? || a.PriceStep? || a.PayStep?
  }

  lemma PayoutsLeft(s: Book, a: Action)
    requires !MovesPayout(a)
    ensures Next(s, a).payouts == s.payouts
  {
    hide PayOut;
  }

  lemma ReadsMove(s: Book, k: nat)
    ensures Moves(s, OpenStep(k), OpenPayout(s, k))
    ensures Moves(s, ClearStep(k), ClearPayout(s, k))
    ensures Moves(s, PriceStep(k), PricePayout(s, k))
  {
  }

  lemma StartMoves(s: Book, l: nat)
    ensures Moves(s, RetryStep(l), StartPayout(s, l))
  {
  }

  lemma FinishMoves(s: Book, call: nat, passed: bool)
    ensures Moves(s, FinishStep(call, passed), FinishVerify(s, call, passed))
  {
  }

  lemma FinishResolveMoves(s: Book, resolve: nat)
    ensures Moves(s, FinishResolveStep(resolve), FinishResolve(s, resolve))
  {
  }

  lemma PayMoves(s: Book, a: Action)
    requires a.PayStep?
    ensures Moves(s, a, Next(s, a))
  {
    if Attempt(s, a).Some? {
      hide Next;
      AttemptShape(s, a);
      assert Next(s, a).payouts == Before(s, a).payouts;
    } else {
      assert Next(s, a) == s;
    }
  }

  lemma OwnStepMoves(s: Book, a: Action)
    requires MovesPayout(a) && !a.PayStep?
    ensures Moves(s, a, Next(s, a))
  {
    hide Moves, OpenPayout, ClearPayout, PricePayout, StartPayout, FinishVerify, FinishResolve;
    match a {
      case RetryStep(l) => StartMoves(s, l);
      case FinishStep(i, passed) => FinishMoves(s, i, passed);
      case FinishResolveStep(i) => FinishResolveMoves(s, i);
      case OpenStep(i) => ReadsMove(s, i);
      case ClearStep(i) => ReadsMove(s, i);
      case PriceStep(i) => ReadsMove(s, i);
    }
  }

  lemma NextMoves(s: Book, a: Action)
    ensures Moves(s, a, Next(s, a))
  {
    hide Next;
    if !MovesPayout(a) {
      PayoutsLeft(s, a);
    } else if a.PayStep? {
      PayMoves(s, a);
    } else {
      OwnStepMoves(s, a);
    }
  }

  /** An attempt gets under way by its read, and is over once its transaction has run. */
  lemma UnderWayFrom(s: Book, a: Action, k: nat, l: nat)
    requires UnderWay(Next(s, a), k, l)
    ensures Reads(s, a, k, l) || (UnderWay(s, k, l) && !(Attempt(s, a).Some? && a.payout == k))
  {
    hide Next;
    NextMoves(s, a);
  }

  lemma PayerUnderWay(s: Book, a: Action, l: nat)
    ensures PaysOut(s, a, l) ==> a.PayStep? && UnderWay(s, a.payout, l)
  {
  }

  // ---------------------------------------------------------------- attempts that do not overlap

  ghost predicate NoneUnderWay(s: Book, l: nat) {
    forall k: nat :: !UnderWay(s, k, l)
  }

  /** At most one attempt for `l` is under way, and none once `l` is disbursed. */
  ghost predicate AloneOn(s: Book, l: nat) {
    && (IsDisbursed(s, l) ==> NoneUnderWay(s, l))
    && (forall j: nat, k: nat :: UnderWay(s, j, l) && UnderWay(s, k, l) ==> j == k)
  }

  /** An attempt reads loan `l` while another is under way. */
  ghost predicate Overlaps(s: Book, a: Action, l: nat) {
    a.OpenStep? && Reads(s, a, a.payout, l) && !NoneUnderWay(s, l)
  }

  /** No two attempts of the run for `l` overlap. */
  ghost predicate ApartOn(s: Book, actions: seq<Action>, l: nat) {
    actions != [] ==>
      && ApartOn(s, actions[..|actions| - 1], l)
      && !Overlaps(Run(s, actions[..|actions| - 1]), actions[|actions| - 1], l)
  }

  ghost predicate Apart(s: Book, actions: seq<Action>) {
    forall l: nat :: ApartOn(s, actions, l)
  }

  lemma VerifyingUndisbursed(s: Book, l: nat)
    requires Sound(s) && InVerification(s, l)
    ensures !IsDisbursed(s, l)
  {
    assert LoanOk(s.loans[l].value, RequestOf(s, l));
  }

  lemma AloneStep(s: Book, a: Action, l: nat)
    requires Sound(s) && AloneOn(s, l) && !Overlaps(s, a, l)
    ensures AloneOn(Next(s, a), l) && !Repeats(s, a, l)
  {
    hide Next, Sound;
    var t := Next(s, a);
    forall k: nat | UnderWay(t, k, l)
      ensures !IsDisbursed(t, l)
      ensures forall j: nat :: UnderWay(t, j, l) ==> j == k
    {
      StillUndisbursed(s, a, k, l);
      forall j: nat | UnderWay(t, j, l)
        ensures j == k
      {
        UnderWayFrom(s, a, j, l);
        UnderWayFrom(s, a, k, l);
      }
    }
    PayerUnderWay(s, a, l);
  }

  /** While an attempt that nobody overlaps is under way, its loan is not paid out. */
  lemma StillUndisbursed(s: Book, a: Action, k: nat, l: nat)
    requires Sound(s) && AloneOn(s, l) && UnderWay(Next(s, a), k, l)
    ensures !IsDisbursed(Next(s, a), l)
  {
    hide Next, Sound;
    UnderWayFrom(s, a, k, l);
    if Reads(s, a, k, l) {
      VerifyingUndisbursed(s, l);
    }
    PayerUnderWay(s, a, l);
    BecomesDisbursedIffPaid(s, a, l);
  }

  /**
   * Attempts for a loan that do not overlap are safe to repeat: over any timely run they never pay it out twice,
   * whatever else is interleaved.
   */
  lemma {:induction false} ApartIsUnrepeated(s: Book, actions: seq<Action>, l: nat)
    requires Sound(s) && Timely(s, actions) && AloneOn(s, l) && ApartOn(s, actions, l)
    ensures Unrepeated(s, actions, l) && AloneOn(Run(s, actions), l)
  {
    hide Next, Sound, AloneOn, Overlaps;
    if actions != [] {
      var front := actions[..|actions| - 1];
      ApartIsUnrepeated(s, front, l);
      RunSound(s, front);
      AloneStep(Run(s, front), actions[|actions| - 1], l);
    }
  }

  lemma InitialAlone(s: Book, l: nat)
    requires Initial(s)
    ensures AloneOn(s, l)
  {
  }

  // ---------------------------------------------------------------- after the disbursement

  /** On a disbursed loan no attempt gets under way any more. */
  lemma DisbursedStaysQuiet(s: Book, a: Action, l: nat)
    requires Sound(s) && IsDisbursed(s, l) && NoneUnderWay(s, l)
    ensures IsDisbursed(Next(s, a), l) && NoneUnderWay(Next(s, a), l) && !Repeats(s, a, l)
  {
    hide Next, Sound;
    PayerUnderWay(s, a, l);
    assert Base(s) by { SoundIsBase(s); }
    StaysDisbursed(s, a, l);
    forall k: nat
      ensures !UnderWay(Next(s, a), k, l)
    {
      if UnderWay(Next(s, a), k, l) {
        UnderWayFrom(s, a, k, l);
        if InVerification(s, l) {
          VerifyingUndisbursed(s, l);
        }
      }
    }
  }

  lemma SoundIsBase(s: Book)
    requires Sound(s)
    ensures Base(s)
  {
  }

  /**
   * Once a loan is disbursed and no attempt for it is under way, no timely run pays it out again, however
   * attempts begun from then on overlap: each of them finds it no longer in verification.
   */
  lemma {:induction false} DisbursedIsUnrepeated(s: Book, actions: seq<Action>, l: nat)
    requires Sound(s) && Timely(s, actions) && IsDisbursed(s, l) && NoneUnderWay(s, l)
    ensures Unrepeated(s, actions, l) && NoneUnderWay(Run(s, actions), l) && IsDisbursed(Run(s, actions), l)
  {
    hide Next, Sound, NoneUnderWay;
    if actions != [] {
      var front := actions[..|actions| - 1];
      DisbursedIsUnrepeated(s, front, l);
      RunSound(s, front);
      DisbursedStaysQuiet(Run(s, front), actions[|actions| - 1], l);
    }
  }

  /** An attempt started on a disbursed loan never comes to run its transaction, whatever runs before its steps and between them. */
  lemma {:induction false} LateAttemptNeverPays(s: Book, actions: seq<Action>, k: nat, l: nat)
    requires Sound(s) && Timely(s, actions) && IsDisbursed(s, l)
    requires k < |s.payouts| && s.payouts[k] == Payout(l, Opening)
    ensures var t := Run(s, actions);
            IsDisbursed(t, l) && k < |t.payouts| && t.payouts[k].loanId == l && !UnderWay(t, k, l)
    ensures forall now :: Attempt(Run(s, actions), PayStep(k, now)).None?
  {
    hide Next, Sound;
    if actions != [] {
      var front, a := actions[..|actions| - 1], actions[|actions| - 1];
      LateAttemptNeverPays(s, front, k, l);
      RunSound(s, front);
      var u := Run(s, front);
      NextMoves(u, a);
      assert Base(u) by { SoundIsBase(u); }
      StaysDisbursed(u, a, l);
      if UnderWay(Next(u, a), k, l) {
        UnderWayFrom(u, a, k, l);
        if InVerification(u, l) {
          VerifyingUndisbursed(u, l);
        }
      }
    }
  }

  /** And run without interruption it changes no document, after any timely run. */
  lemma LaterAttemptIdle(s: Book, actions: seq<Action>, l: nat, now: int)
    requires Sound(s) && Timely(s, actions) && IsDisbursed(Run(s, actions), l)
    ensures SameDocuments(Run(s, actions), Attempted(Run(s, actions), l, now))
  {
    hide Next;
    RunSound(s, actions);
    AttemptRuns(Run(s, actions), l, now);
    if InVerification(Run(s, actions), l) {
      VerifyingUndisbursed(Run(s, actions), l);
    }
  }

  // ---------------------------------------------------------------- exactly when a payment repeats

  predicate ReadsAt(s: Book, actions: seq<Action>, i: nat, k: nat, l: nat) {
    i < |actions| && Reads(Run(s, actions[..i]), actions[i], k, l)
  }

  predicate PaysAt(s: Book, actions: seq<Action>, m: nat, l: nat) {
    m < |actions| && PaysOut(Run(s, actions[..m]), actions[m], l)
  }

  /** Attempt `k` has read loan `l` in the run, and another attempt has paid it since. */
  ghost predicate PaidSinceRead(s: Book, actions: seq<Action>, k: nat, l: nat) {
    exists i: nat, m: nat :: i < m && ReadsAt(s, actions, i, k, l) && PaysAt(s, actions, m, l) && actions[m].payout != k
  }

  /** Attempt `k` found `l` in verification although it was disbursed: a late status write had reopened it. */
  ghost predicate ReadReopened(s: Book, actions: seq<Action>, k: nat, l: nat) {
    exists i: nat :: ReadsAt(s, actions, i, k, l) && IsDisbursed(Run(s, actions[..i]), l)
  }

  lemma AtFront(s: Book, actions: seq<Action>, i: nat)
    requires i < |actions| - 1
    ensures actions[..|actions| - 1][..i] == actions[..i] && actions[..|actions| - 1][i] == actions[i]
  {
  }

  /** An attempt under way has read its loan in the run. */
  lemma {:induction false} ReadFound(s: Book, actions: seq<Action>, k: nat, l: nat) returns (i: nat)
    requires Initial(s) && UnderWay(Run(s, actions), k, l)
    ensures ReadsAt(s, actions, i, k, l)
  {
    hide Next;
    i := 0;
    if actions != [] {
      var front := actions[..|actions| - 1];
      UnderWayFrom(Run(s, front), actions[|actions| - 1], k, l);
      if Reads(Run(s, front), actions[|actions| - 1], k, l) {
        i := |front|;
      } else {
        i := ReadFound(s, front, k, l);
        AtFront(s, actions, i);
      }
    }
  }

  /** A loan that becomes disbursed in the run is paid in it. */
  lemma {:induction false} PaymentFound(s: Book, actions: seq<Action>, i: nat, l: nat) returns (m: nat)
    requires i <= |actions| && !IsDisbursed(Run(s, actions[..i]), l) && IsDisbursed(Run(s, actions), l)
    ensures i <= m && PaysAt(s, actions, m, l)
    decreases |actions|
  {
    hide Next;
    assert i < |actions| by { assert actions[..|actions|] == actions; }
    var front := actions[..|actions| - 1];
    assert front[..i] == actions[..i];
    if IsDisbursed(Run(s, front), l) {
      m := PaymentFound(s, front, i, l);
      AtFront(s, actions, m);
    } else {
      m := |front|;
      BecomesDisbursedIffPaid(Run(s, front), actions[|actions| - 1], l);
    }
  }

  /** An attempt that has run its transaction is over for good. */
  lemma {:induction false} StaysOver(s: Book, actions: seq<Action>, m: nat, k: nat, l: nat)
    requires PaysAt(s, actions, m, l) && actions[m].payout == k
    ensures k < |Run(s, actions).payouts| && Run(s, actions).payouts[k].stage.Over?
    decreases |actions|
  {
    hide Next;
    var front, a := actions[..|actions| - 1], actions[|actions| - 1];
    NextMoves(Run(s, front), a);
    if m < |front| {
      AtFront(s, actions, m);
      StaysOver(s, front, m, k, l);
    } else {
      assert actions[..m] == front;
    }
  }

  /** Once disbursed, at whatever point of the run, a loan is disbursed at its end. */
  lemma {:induction false} DisbursedOnwards(s: Book, actions: seq<Action>, i: nat, l: nat)
    requires Base(s) && i <= |actions| && IsDisbursed(Run(s, actions[..i]), l)
    ensures IsDisbursed(Run(s, actions), l)
    decreases |actions|
  {
    hide Next;
    if i == |actions| {
      assert actions[..i] == actions;
    } else {
      var front := actions[..|actions| - 1];
      assert front[..i] == actions[..i];
      DisbursedOnwards(s, front, i, l);
      RunBase(s, front);
      StaysDisbursed(Run(s, front), actions[|actions| - 1], l);
    }
  }

  lemma PaidIsDisbursed(s: Book, actions: seq<Action>, m: nat, l: nat)
    requires Base(s) && PaysAt(s, actions, m, l)
    ensures IsDisbursed(Run(s, actions), l)
  {
    hide Next;
    var before, a := Run(s, actions[..m]), actions[m];
    assert actions[..m + 1][..m] == actions[..m] && actions[..m + 1][m] == a;
    RunBase(s, actions[..m]);
    if IsDisbursed(before, l) {
      StaysDisbursed(before, a, l);
    } else {
      BecomesDisbursedIffPaid(before, a, l);
    }
    assert Run(s, actions[..m + 1]) == Next(before, a);
    DisbursedOnwards(s, actions, m + 1, l);
  }

  /**
   * In every run: when the transaction of attempt `k` comes, its loan is disbursed already exactly when another
   * attempt has paid it since this one read it, or a late status write had reopened it before that read.
   */
  lemma PaymentRepeatsIff(s: Book, actions: seq<Action>, k: nat, l: nat)
    requires Initial(s) && UnderWay(Run(s, actions), k, l)
    ensures IsDisbursed(Run(s, actions), l) <==> PaidSinceRead(s, actions, k, l) || ReadReopened(s, actions, k, l)
  {
    hide Next;
    InitialSound(s);
    if IsDisbursed(Run(s, actions), l) {
      var i := ReadFound(s, actions, k, l);
      if !IsDisbursed(Run(s, actions[..i]), l) {
        var m := PaymentFound(s, actions, i, l);
        if actions[m].payout == k {
          StaysOver(s, actions, m, k, l);
        }
      }
    }
    if PaidSinceRead(s, actions, k, l) {
      var i: nat, m: nat :| i < m && ReadsAt(s, actions, i, k, l) && PaysAt(s, actions, m, l) && actions[m].payout != k;
      PaidIsDisbursed(s, actions, m, l);
    }
    if ReadReopened(s, actions, k, l) {
      var i: nat :| ReadsAt(s, actions, i, k, l) && IsDisbursed(Run(s, actions[..i]), l);
      DisbursedOnwards(s, actions, i, l);
    }
  }

  lemma {:induction false} TimelyFront(s: Book, actions: seq<Action>, i: nat)
    requires Timely(s, actions) && i <= |actions|
    ensures Timely(s, actions[..i])
    decreases |actions|
  {
    hide Next;
    if i == |actions| {
      assert actions[..i] == actions;
    } else {
      assert actions[..|actions| - 1][..i] == actions[..i];
      TimelyFront(s, actions[..|actions| - 1], i);
    }
  }

  /** Without a late status write no attempt reads a loan in verification that is disbursed. */
  lemma TimelyNotReopened(s: Book, actions: seq<Action>, k: nat, l: nat)
    requires Sound(s) && Timely(s, actions)
    ensures !ReadReopened(s, actions, k, l)
  {
    hide Next, Sound;
    forall i: nat | ReadsAt(s, actions, i, k, l)
      ensures !IsDisbursed(Run(s, actions[..i]), l)
    {
      TimelyFront(s, actions, i);
      RunSound(s, actions[..i]);
      VerifyingUndisbursed(Run(s, actions[..i]), l);
    }
  }

  /** No transaction of the run comes late: after another attempt's payment, or on a loan reopened before its read. */
  ghost predicate NoneLate(s: Book, actions: seq<Action>, l: nat) {
    actions != [] ==>
      var front, a := actions[..|actions| - 1], actions[|actions| - 1];
      && NoneLate(s, front, l)
      && (PaysOut(Run(s, front), a, l) ==> !PaidSinceRead(s, front, a.payout, l) && !ReadReopened(s, front, a.payout, l))
  }

  /** The same for a run without late status writes: no transaction comes after another attempt's payment. */
  ghost predicate NoneOvertaken(s: Book, actions: seq<Action>, l: nat) {
    actions != [] ==>
      var front, a := actions[..|actions| - 1], actions[|actions| - 1];
      && NoneOvertaken(s, front, l)
      && (PaysOut(Run(s, front), a, l) ==> !PaidSinceRead(s, front, a.payout, l))
  }

  lemma {:induction false} UnrepeatedIffNoneLate(s: Book, actions: seq<Action>, l: nat)
    requires Initial(s)
    ensures Unrepeated(s, actions, l) <==> NoneLate(s, actions, l)
  {
    hide Next, PaidSinceRead, ReadReopened;
    if actions != [] {
      var front, a := actions[..|actions| - 1], actions[|actions| - 1];
      UnrepeatedIffNoneLate(s, front, l);
      PayerUnderWay(Run(s, front), a, l);
      if PaysOut(Run(s, front), a, l) {
        PaymentRepeatsIff(s, front, a.payout, l);
      }
    }
  }

  lemma {:induction false} NoneLateIffNoneOvertaken(s: Book, actions: seq<Action>, l: nat)
    requires Sound(s) && Timely(s, actions)
    ensures NoneLate(s, actions, l) <==> NoneOvertaken(s, actions, l)
  {
    hide Next, Sound, PaidSinceRead, ReadReopened;
    if actions != [] {
      var front, a := actions[..|actions| - 1], actions[|actions| - 1];
      NoneLateIffNoneOvertaken(s, front, l);
      if PaysOut(Run(s, front), a, l) {
        TimelyNotReopened(s, front, a.payout, l);
      }
    }
  }

  /** In terms of the check that the transaction leaves out: the loan's status shows its money to be out. */
  lemma RepeatsIffMoneyIsOut(s: Book, a: Action, l: nat)
    requires Coherent(s) && PaysOut(s, a, l)
    ensures Repeats(s, a, l) <==> MoneyIsOut(s, l)
  {
    MoneyOutIff(s, l);
  }

  // ---------------------------------------------------------------- what follows for the money

  /**
   * In every run a loan is paid out exactly once if it ends disbursed, and otherwise never, if and only if no
   * transaction comes late: none runs on it although another attempt has paid it since its own read of it, or
   * although a late status write had reopened it before that read.
   */
  lemma PaidOnceIffNoneLate(s: Book, actions: seq<Action>, l: nat)
    requires Initial(s)
    ensures PaymentCount(s, actions, l) == (if IsDisbursed(Run(s, actions), l) then 1 else 0) <==> NoneLate(s, actions, l)
  {
    hide Next, Run, PaymentCount, NoneLate, Unrepeated;
    PaidOnceIff(s, actions, l);
    UnrepeatedIffNoneLate(s, actions, l);
  }

  /** Without late status writes only the first of the two remains. */
  lemma PaidOnceIffNoneOvertaken(s: Book, actions: seq<Action>, l: nat)
    requires Initial(s) && Timely(s, actions)
    ensures PaymentCount(s, actions, l) == (if IsDisbursed(Run(s, actions), l) then 1 else 0) <==> NoneOvertaken(s, actions, l)
  {
    hide Next, Run, PaymentCount, NoneLate, NoneOvertaken;
    InitialSound(s);
    PaidOnceIffNoneLate(s, actions, l);
    NoneLateIffNoneOvertaken(s, actions, l);
  }

  /** Attempts that do not overlap pay out every loan once if it ends disbursed, and otherwise never. */
  lemma ApartPaysOnce(s: Book, actions: seq<Action>, l: nat)
    requires Initial(s) && Timely(s, actions) && ApartOn(s, actions, l)
    ensures PaymentCount(s, actions, l) == if IsDisbursed(Run(s, actions), l) then 1 else 0
    ensures PaidFor(s, actions, l) == if IsDisbursed(Run(s, actions), l) then Cumulative(Run(s, actions), l) else 0
  {
    hide Next, Run, PaymentCount, PaidFor, Unrepeated;
    InitialSound(s);
    InitialAlone(s, l);
    ApartIsUnrepeated(s, actions, l);
    PaidOnceIff(s, actions, l);
  }

  lemma ApartNeverRepeats(s: Book, actions: seq<Action>)
    requires Initial(s) && Timely(s, actions) && Apart(s, actions)
    ensures NeverRepeats(s, actions)
  {
    hide Next, Run;
    InitialSound(s);
    forall l: nat
      ensures Unrepeated(s, actions, l)
    {
      InitialAlone(s, l);
      assert ApartOn(s, actions, l);
      ApartIsUnrepeated(s, actions, l);
    }
  }

  /** And then a branch's balance is its verified fundings less the cumulative amounts of its disbursed loans. */
  lemma ApartFundsAreLent(s: Book, actions: seq<Action>, b: BranchId)
    requires Initial(s) && Timely(s, actions) && Apart(s, actions)
    ensures var t := Run(s, actions);
            BranchFunds.Balance(t.funds, b) == BranchFunds.VerifiedTotal(t.funds, b) - Lent(t, b)
  {
    hide Next;
    ApartNeverRepeats(s, actions);
    FundsAreLent(s, actions, b);
  }

  /** More exactly: over any run in which no transaction comes late. */
  lemma FundsAreLentIfNoneLate(s: Book, actions: seq<Action>, b: BranchId)
    requires Initial(s) && forall l: nat :: NoneLate(s, actions, l)
    ensures var t := Run(s, actions);
            BranchFunds.Balance(t.funds, b) == BranchFunds.VerifiedTotal(t.funds, b) - Lent(t, b)
  {
    hide Next;
    forall l: nat
      ensures Unrepeated(s, actions, l)
    {
      assert NoneLate(s, actions, l);
      UnrepeatedIffNoneLate(s, actions, l);
    }
    FundsAreLent(s, actions, b);
  }

  /**
   * A disbursed loan with no attempt under way keeps amount, branch, terms and disbursement date and is never
   * deleted, edited or paid again, over any timely run, however later attempts overlap.
   */
  lemma DisbursedForGood(s: Book, actions: seq<Action>, l: nat)
    requires Sound(s) && Timely(s, actions) && IsDisbursed(s, l) && NoneUnderWay(s, l)
    ensures SameMoney(LoanAt(s, l), LoanAt(Run(s, actions), l)) && Unrepeated(s, actions, l)
  {
    hide Next, NoneUnderWay, StatesOk;
    DisbursedIsUnrepeated(s, actions, l);
    DisbursedOnce(s, actions, l);
  }
}
