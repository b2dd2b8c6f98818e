/**
 * Branch money: one balance per branch, credited when a funding record is verified and debited when a
 * loan is disbursed. Verifications and rejections of one record race: each reads the record, checks
 * it, and only later writes under a status guard. A funding's id is its position.
 */
module BranchFunds {
  import opened Common

  type BranchId = string
  type StaffId = string
  type Amount = x: int | x >= 1 witness 1

  datatype FundingStatus = PendingVerification | Verified | Rejected

  datatype Funding = Funding(
    branchId: BranchId, amount: Amount, status: FundingStatus,
    verifiedBy: Option<StaffId>, verifiedAt: Option<int>, rejectionReason: Option<string>)

  datatype Decision = Verify | Reject(reason: string)

  datatype FundingError =
    | FundingNotFound | AlreadyDecided(status: FundingStatus) | NotCurrentManager | ReasonRequired
    | ConcurrentlyModified | BranchInactive | NoManager | WrongBankAccount | InactiveBankAccount

  /** A call in flight: nothing read yet, or the record as it was when read. */
  datatype Stage = Reading | Writing(seen: Funding) | Done | Threw(error: FundingError)

  datatype Call = Call(fundingId: nat, actor: StaffId, decision: Decision, stage: Stage)

  datatype Funds = Funds(balances: map<BranchId, int>, fundings: seq<Funding>, calls: seq<Call>)

  /** What recording needs to know about the branch and the chosen bank account. */
  datatype BranchView = BranchView(active: bool, hasManager: bool, ownsBankAccount: bool, bankAccountActive: bool)

  datatype Action =
    | BranchCreated(branch: BranchId)
    | Record(branch: BranchId, amount: Amount, view: BranchView)
    | Begin(fundingId: nat, actor: StaffId, decision: Decision)
    | Read(call: nat, actorIsManager: bool)
    | Write(call: nat, now: int)

  // ---------------------------------------------------------------- balances

  function Balance(f: Funds, b: BranchId): int {
    if b in f.balances then f.balances[b] else 0
  }

  function Credit(f: Funds, b: BranchId, amount: int): Funds {
    f.(balances := f.balances[b := Balance(f, b) + amount])
  }

  /** The guarded decrement: matches only a balance document that can satisfy it. */
  predicate CanDebit(f: Funds, b: BranchId, amount: int) {
    b in f.balances && f.balances[b] >= amount
  }

  function Debit(f: Funds, b: BranchId, amount: int): Funds
    requires CanDebit(f, b, amount)
  {
    f.(balances := f.balances[b := f.balances[b] - amount])
  }

  // ---------------------------------------------------------------- steps

  function CheckRecord(view: BranchView): Option<FundingError> {
    if !view.active then Some(BranchInactive)
    else if !view.hasManager then Some(NoManager)
    else if !view.ownsBankAccount then Some(WrongBankAccount)
    else if !view.bankAccountActive then Some(InactiveBankAccount)
    else None
  }

  function NewFunding(branch: BranchId, amount: Amount): Funding {
    Funding(branch, amount, PendingVerification, None, None, None)
  }

  /** The checks a call makes on the record it read. */
  function CheckRead(f: Funds, call: Call, actorIsManager: bool): Option<FundingError> {
    if call.fundingId >= |f.fundings| then Some(FundingNotFound)
    else if f.fundings[call.fundingId].status != PendingVerification then
      Some(AlreadyDecided(f.fundings[call.fundingId].status))
    else if call.decision.Reject? && call.decision.reason == "" then Some(ReasonRequired)
    else if !actorIsManager then Some(NotCurrentManager)
    else None
  }

  function SetStage(f: Funds, i: nat, stage: Stage): Funds
    requires i < |f.calls|
  {
    f.(calls := f.calls[i := f.calls[i].(stage := stage)])
  }

  function Decided(funding: Funding, actor: StaffId, decision: Decision, now: int): Funding {
    match decision
    case Verify => funding.(status := Verified, verifiedBy := Some(actor), verifiedAt := Some(now))
    case Reject(reason) => funding.(status := Rejected, rejectionReason := Some(reason))
  }

  /** A verification names who verified and when, a rejection its reason; the rest of the record stays. */
  predicate DecidedAs(before: Funding, after: Funding, actor: StaffId, decision: Decision, now: int) {
    && after.branchId == before.branchId && after.amount == before.amount
    && match decision
       case Verify =>
         && after.status == Verified && after.verifiedBy == Some(actor) && after.verifiedAt == Some(now)
         && after.rejectionReason == before.rejectionReason
       case Reject(reason) =>
         && after.status == Rejected && after.rejectionReason == Some(reason)
         && after.verifiedBy == before.verifiedBy && after.verifiedAt == before.verifiedAt
  }

  /** The guarded write; a verification credits, in the same transaction, what the call had read. */
  function Written(f: Funds, i: nat, now: int): Funds
    requires i < |f.calls| && f.calls[i].stage.Writing?
  {
    var call := f.calls[i];
    var id := call.fundingId;
    if id >= |f.fundings| || f.fundings[id].status != PendingVerification then
      SetStage(f, i, Threw(ConcurrentlyModified))
    else
      var g := SetStage(f, i, Done).(fundings := f.fundings[id := Decided(f.fundings[id], call.actor, call.decision, now)]);
      if call.decision.Verify? then Credit(g, call.stage.seen.branchId, call.stage.seen.amount) else g
  }

  function Next(f: Funds, a: Action): Funds {
    match a
    case BranchCreated(b) => if b in f.balances then f else f.(balances := f.balances[b := 0])
    case Record(b, amount, view) =>
      if CheckRecord(view).Some? then f else f.(fundings := f.fundings + [NewFunding(b, amount)])
    case Begin(id, actor, decision) => f.(calls := f.calls + [Call(id, actor, decision, Reading)])
    case Read(i, isManager) =>
      if i >= |f.calls| || !f.calls[i].stage.Reading? then f
      else
        var error := CheckRead(f, f.calls[i], isManager);
        SetStage(f, i, if error.Some? then Threw(error.value) else Writing(f.fundings[f.calls[i].fundingId]))
    case Write(i, now) =>
      if i < |f.calls| && f.calls[i].stage.Writing? then Written(f, i, now) else f
  }

  function Run(f: Funds, actions: seq<Action>): Funds {
    if actions == [] then f else Next(Run(f, actions[..|actions| - 1]), actions[|actions| - 1])
  }

  // ---------------------------------------------------------------- invariant

  /** What a call read of the immutable fields is still what the record says. */
  ghost predicate CallSound(f: Funds, call: Call) {
    call.stage.Writing? ==>
      && call.fundingId < |f.fundings|
      && f.fundings[call.fundingId].branchId == call.stage.seen.branchId
      && f.fundings[call.fundingId].amount == call.stage.seen.amount
  }

  ghost predicate NonNegative(f: Funds) {
    forall b :: b in f.balances ==> f.balances[b] >= 0
  }

  ghost predicate Sound(f: Funds) {
    && NonNegative(f)
    && (forall i :: 0 <= i < |f.calls| ==> CallSound(f, f.calls[i]))
  }

  /** Records are only appended, keep branch and amount, and never change once decided. */
  ghost predicate Evolves(f: Funds, g: Funds) {
    && |f.fundings| <= |g.fundings|
    && |f.calls| <= |g.calls|
    && (forall i :: 0 <= i < |f.fundings| ==>
          g.fundings[i].branchId == f.fundings[i].branchId && g.fundings[i].amount == f.fundings[i].amount)
    && (forall i :: 0 <= i < |f.fundings| && f.fundings[i].status != PendingVerification ==>
          g.fundings[i] == f.fundings[i])
  }

  lemma NextSound(f: Funds, a: Action)
    requires Sound(f)
    ensures Sound(Next(f, a)) && Evolves(f, Next(f, a))
  {
    if a.Write? && a.call < |f.calls| && f.calls[a.call].stage.Writing? {
      var g := Next(f, a);
      assert CallSound(f, f.calls[a.call]);
      forall j | 0 <= j < |g.calls|
        ensures CallSound(g, g.calls[j])
      {
        assert CallSound(f, f.calls[j]);
      }
    }
  }

  lemma EvolvesTransitive(f: Funds, g: Funds, h: Funds)
    requires Evolves(f, g) && Evolves(g, h)
    ensures Evolves(f, h)
  {
  }

  lemma {:induction false} RunSound(f: Funds, actions: seq<Action>)
    requires Sound(f)
    ensures Sound(Run(f, actions)) && Evolves(f, Run(f, actions))
  {
    if actions != [] {
      var front := actions[..|actions| - 1];
      RunSound(f, front);
      NextSound(Run(f, front), actions[|actions| - 1]);
      EvolvesTransitive(f, Run(f, front), Run(f, actions));
    }
  }

  // ---------------------------------------------------------------- conservation

  function VerifiedAmount(b: BranchId): Funding -> int {
    (r: Funding) => if r.branchId == b && r.status == Verified then r.amount else 0
  }

  function VerifiedTotal(f: Funds, b: BranchId): int {
    Sum(VerifiedAmount(b), f.fundings)
  }

  /** Verified money no longer on the balance; only a debit changes it. */
  function Spent(f: Funds, b: BranchId): int {
    VerifiedTotal(f, b) - Balance(f, b)
  }

  lemma NextConserves(f: Funds, a: Action, b: BranchId)
    requires Sound(f)
    ensures Spent(Next(f, a), b) == Spent(f, b)
  {
    match a {
      case Record(branch, amount, view) =>
        SumSnoc(VerifiedAmount(b), f.fundings, NewFunding(branch, amount));
      case Write(i, now) => WriteConserves(f, i, now, b);
      case _ =>
    }
  }

  lemma WriteConserves(f: Funds, i: nat, now: int, b: BranchId)
    requires Sound(f)
    ensures Spent(Next(f, Write(i, now)), b) == Spent(f, b)
  {
    if i < |f.calls| && f.calls[i].stage.Writing? {
      var call := f.calls[i];
      assert CallSound(f, call);
      SumUpdate(VerifiedAmount(b), f.fundings, call.fundingId,
                Decided(f.fundings[call.fundingId], call.actor, call.decision, now));
    }
  }

  lemma DebitSpends(f: Funds, b: BranchId, amount: int, other: BranchId)
    requires CanDebit(f, b, amount)
    ensures Spent(Debit(f, b, amount), other) == Spent(f, other) + (if other == b then amount else 0)
    ensures NonNegative(f) ==> NonNegative(Debit(f, b, amount))
  {
  }

  lemma DebitSound(f: Funds, b: BranchId, amount: int)
    requires Sound(f) && CanDebit(f, b, amount)
    ensures Sound(Debit(f, b, amount))
  {
    var g := Debit(f, b, amount);
    forall j | 0 <= j < |g.calls|
      ensures CallSound(g, g.calls[j])
    {
      assert CallSound(f, f.calls[j]);
    }
  }

  /** Over any run of racing calls, a balance grows by exactly the amounts newly verified for its branch. */
  lemma {:induction false} RunConserves(f: Funds, actions: seq<Action>, b: BranchId)
    requires Sound(f)
    ensures Spent(Run(f, actions), b) == Spent(f, b)
  {
    if actions != [] {
      var front := actions[..|actions| - 1];
      RunConserves(f, front, b);
      RunSound(f, front);
      NextConserves(Run(f, front), actions[|actions| - 1], b);
    }
  }

  // ---------------------------------------------------------------- exactly once

  /** The record whose decision this step writes, if its guard matches. */
  function Decides(f: Funds, a: Action): Option<nat> {
    if a.Write? && a.call < |f.calls| && f.calls[a.call].stage.Writing? &&
       f.calls[a.call].fundingId < |f.fundings| &&
       f.fundings[f.calls[a.call].fundingId].status == PendingVerification
    then Some(f.calls[a.call].fundingId) else None
  }

  /** The record whose amount this step adds to a balance, if any. */
  function Credits(f: Funds, a: Action): Option<nat> {
    if Decides(f, a).Some? && f.calls[a.call].decision.Verify? then Decides(f, a) else None
  }

  /** How often record `i` left PENDING_VERIFICATION, and how often it was credited, along a run. */
  function DecisionCount(f: Funds, actions: seq<Action>, i: nat): nat {
    if actions == [] then 0
    else
      var front := actions[..|actions| - 1];
      DecisionCount(f, front, i) + if Decides(Run(f, front), actions[|actions| - 1]) == Some(i) then 1 else 0
  }

  function CreditCount(f: Funds, actions: seq<Action>, i: nat): nat {
    if actions == [] then 0
    else
      var front := actions[..|actions| - 1];
      CreditCount(f, front, i) + if Credits(Run(f, front), actions[|actions| - 1]) == Some(i) then 1 else 0
  }

  /** A step changes some balance other than to zero-initialise it exactly when it credits a record, by its amount. */
  lemma CreditStepAmount(f: Funds, a: Action, b: BranchId)
    requires Sound(f)
    ensures Balance(Next(f, a), b) - Balance(f, b)
            == match Credits(f, a)
               case Some(i) => if f.fundings[i].branchId == b then f.fundings[i].amount else 0
               case None => 0
  {
    if a.Write? && a.call < |f.calls| {
      assert CallSound(f, f.calls[a.call]);
    }
  }

  /** What the steps that credit record `i` add to the balance of `b`, along a run. */
  function CreditedBy(f: Funds, actions: seq<Action>, i: nat, b: BranchId): int {
    if actions == [] then 0
    else
      var front, a := actions[..|actions| - 1], actions[|actions| - 1];
      CreditedBy(f, front, i, b) +
      if Credits(Run(f, front), a) == Some(i) then Balance(Run(f, actions), b) - Balance(Run(f, front), b) else 0
  }

  predicate IsVerified(f: Funds, i: nat) {
    i < |f.fundings| && f.fundings[i].status == Verified
  }

  /**
   * Whatever verify and reject calls race on a record, it is decided at most once; if it ends VERIFIED it is
   * credited exactly once, which adds its amount to the balance of its branch and nothing to any other, and
   * otherwise it is never credited.
   */
  lemma {:induction false} CreditedExactlyOnceIffVerified(f: Funds, actions: seq<Action>, i: nat, b: BranchId)
    requires Sound(f) && f.fundings == []
    ensures var g := Run(f, actions);
            && DecisionCount(f, actions, i) == (if i < |g.fundings| && g.fundings[i].status != PendingVerification then 1 else 0)
            && CreditCount(f, actions, i) == (if IsVerified(g, i) then 1 else 0)
            && CreditedBy(f, actions, i, b) == (if IsVerified(g, i) && g.fundings[i].branchId == b then g.fundings[i].amount else 0)
  {
    if actions != [] {
      var front, a := actions[..|actions| - 1], actions[|actions| - 1];
      CreditedExactlyOnceIffVerified(f, front, i, b);
      RunSound(f, front);
      NextSound(Run(f, front), a);
      CreditStepAmount(Run(f, front), a, b);
    }
  }

  // ---------------------------------------------------------------- who decides

  /** Step `i` of the run is the read of call `k`, by the branch's current manager, of a record still pending. */
  predicate ManagerReads(f: Funds, actions: seq<Action>, i: nat, k: nat, id: nat, decision: Decision) {
    && i < |actions| && actions[i] == Read(k, true)
    && var g := Run(f, actions[..i]);
       && k < |g.calls| && g.calls[k].stage == Reading && g.calls[k].fundingId == id && g.calls[k].decision == decision
       && id < |g.fundings| && g.fundings[id].status == PendingVerification
  }

  ghost predicate Authorized(f: Funds, actions: seq<Action>, k: nat, id: nat, decision: Decision) {
    decision != Reject("") && exists i: nat :: ManagerReads(f, actions, i, k, id, decision)
  }

  lemma AuthorizedKept(f: Funds, front: seq<Action>, a: Action, k: nat, id: nat, decision: Decision)
    requires Authorized(f, front, k, id, decision)
    ensures Authorized(f, front + [a], k, id, decision)
  {
    hide Next;
    var i: nat :| ManagerReads(f, front, i, k, id, decision);
    assert (front + [a])[..i] == front[..i];
    assert ManagerReads(f, front + [a], i, k, id, decision);
  }

  /** A call about to write has read a pending record, as its branch's manager. */
  lemma {:induction false} WritersAuthorized(f: Funds, actions: seq<Action>, k: nat)
    requires f.calls == [] && k < |Run(f, actions).calls| && Run(f, actions).calls[k].stage.Writing?
    ensures Authorized(f, actions, k, Run(f, actions).calls[k].fundingId, Run(f, actions).calls[k].decision)
  {
    hide Next;
    var front, a := actions[..|actions| - 1], actions[|actions| - 1];
    assert actions == front + [a];
    var g := Run(f, front);
    BeginsWriting(g, a, k);
    if g.calls[k].stage.Writing? {
      WritersAuthorized(f, front, k);
      AuthorizedKept(f, front, a, k, g.calls[k].fundingId, g.calls[k].decision);
    } else {
      assert actions[..|front|] == front;
      assert ManagerReads(f, actions, |front|, k, g.calls[k].fundingId, g.calls[k].decision);
    }
  }

  lemma BeginsWriting(g: Funds, a: Action, k: nat)
    requires k < |Next(g, a).calls| && Next(g, a).calls[k].stage.Writing?
    ensures k < |g.calls| && Next(g, a).calls[k].fundingId == g.calls[k].fundingId && Next(g, a).calls[k].decision == g.calls[k].decision
    ensures g.calls[k].stage.Writing? ||
            (a == Read(k, true) && g.calls[k].stage == Reading && g.calls[k].decision != Reject("") &&
             g.calls[k].fundingId < |g.fundings| && g.fundings[g.calls[k].fundingId].status == PendingVerification)
  {
  }

  /**
   * In every interleaving a record is decided only by a call that had read it still pending, by the current
   * manager of its branch and, for a rejection, with a reason; and then as that call asks.
   */
  lemma DecidedByManager(f: Funds, actions: seq<Action>, a: Action, id: nat)
    requires Sound(f) && f.calls == [] && Decides(Run(f, actions), a) == Some(id)
    ensures var g := Run(f, actions);
            && Authorized(f, actions, a.call, id, g.calls[a.call].decision)
            && id < |Next(g, a).fundings|
            && DecidedAs(g.fundings[id], Next(g, a).fundings[id], g.calls[a.call].actor, g.calls[a.call].decision, a.now)
  {
    WritersAuthorized(f, actions, a.call);
    RunSound(f, actions);
  }

  /** A call goes on to its write exactly when it reads a pending record as the branch's manager, a rejection with a reason. */
  lemma ReadGoesOnIff(f: Funds, k: nat, actorIsManager: bool)
    requires k < |f.calls| && f.calls[k].stage.Reading?
    ensures var id := f.calls[k].fundingId;
            Next(f, Read(k, actorIsManager)).calls[k].stage.Writing?
            <==> id < |f.fundings| && f.fundings[id].status == PendingVerification && f.calls[k].decision != Reject("") && actorIsManager
  {
  }

  // ---------------------------------------------------------------- the services over their collections

  class BranchFundStore {
    var balances: map<BranchId, int>
    var fundings: seq<Funding>
    var calls: seq<Call>

    function State(): Funds
      reads this
    {
      Funds(balances, fundings, calls)
    }

    constructor ()
      ensures State() == Funds(map[], [], [])
    {
      balances, fundings, calls := map[], [], [];
    }

    method HandleBranchCreated(b: BranchId)
      modifies this`balances
      ensures State() == Next(old(State()), BranchCreated(b))
      ensures GetBalanceOf(b) == old(GetBalanceOf(b))
    {
      if b !in balances {
        balances := balances[b := 0];
      }
    }

    function GetBalanceOf(b: BranchId): int
      reads this
    {
      Balance(State(), b)
    }

    method CreditBranch(b: BranchId, amountKobo: int)
      modifies this`balances
      ensures State() == Credit(old(State()), b, amountKobo)
      ensures balances == old(balances)[b := old(GetBalanceOf(b)) + amountKobo]
    {
      balances := balances[b := (if b in balances then balances[b] else 0) + amountKobo];
    }

    /** Decrements only when the balance suffices; otherwise throws and leaves everything unchanged. */
    method DebitBranch(b: BranchId, amountKobo: int) returns (ok: bool)
      modifies this`balances
      ensures ok <==> CanDebit(old(State()), b, amountKobo)
      ensures ok <==> b in old(balances) && old(balances)[b] >= amountKobo
      ensures balances == if ok then old(balances)[b := old(balances)[b] - amountKobo] else old(balances)
      ensures State() == if ok then Debit(old(State()), b, amountKobo) else old(State())
      ensures old(NonNegative(State())) ==> NonNegative(State())
    {
      ok := b in balances && balances[b] >= amountKobo;
      if ok {
        balances := balances[b := balances[b] - amountKobo];
      }
    }

    method RecordFunding(b: BranchId, amount: Amount, view: BranchView) returns (r: Result<nat, FundingError>)
      modifies this`fundings
      ensures State() == Next(old(State()), Record(b, amount, view))
      ensures r == match CheckRecord(view) case Some(e) => Err(e) case None => Ok(|old(fundings)|)
      ensures r.Ok? <==> view.active && view.hasManager && view.ownsBankAccount && view.bankAccountActive
      ensures r.Ok? ==> fundings == old(fundings) + [Funding(b, amount, PendingVerification, None, None, None)]
      ensures r.Err? ==> fundings == old(fundings)
    {
      if !view.active {
        return Err(BranchInactive);
      }
      if !view.hasManager {
        return Err(NoManager);
      }
      if !view.ownsBankAccount {
        return Err(WrongBankAccount);
      }
      if !view.bankAccountActive {
        return Err(InactiveBankAccount);
      }
      fundings := fundings + [NewFunding(b, amount)];
      return Ok(|fundings| - 1);
    }

    /** Any number of steps of other callers. */
    method Interfere()
      requires Sound(State())
      modifies this
      ensures Sound(State()) && Evolves(old(State()), State())
    {
      var steps: nat := *;
      while steps > 0
        invariant Sound(State()) && Evolves(old(State()), State())
      {
        var action: Action := *;
        ghost var before := State();
        var after := Next(State(), action);
        balances, fundings, calls := after.balances, after.fundings, after.calls;
        NextSound(before, action);
        EvolvesTransitive(old(State()), before, State());
        steps := steps - 1;
      }
    }

    /**
     * Reads and checks the record, lets other callers run, then writes under the guard. `mid` is the state
     * the guarded write met: the write decides the record, and credits it, only if it was still pending there.
     */
    method Decide(fundingId: nat, actor: StaffId, decision: Decision, actorIsManager: bool, now: int)
      returns (r: Result<Funding, FundingError>, ghost mid: Funds)
      requires Sound(State())
      modifies this
      ensures Sound(State())
      ensures Evolves(old(State()), mid) && Evolves(mid, State())
      ensures r.Err? ==> State() == mid
      ensures r.Ok? ==>
                && fundingId < |mid.fundings| && mid.fundings[fundingId].status == PendingVerification
                && r.value == Decided(mid.fundings[fundingId], actor, decision, now)
                && fundings == mid.fundings[fundingId := r.value]
                && forall b :: GetBalanceOf(b) == Balance(mid, b) +
                                 (if decision.Verify? && b == r.value.branchId then r.value.amount else 0)
      ensures r == Err(ConcurrentlyModified) ==>
                fundingId < |fundings| && fundings[fundingId].status != PendingVerification
      ensures r == Err(FundingNotFound) <==> fundingId >= |old(fundings)|
      ensures fundingId < |old(fundings)| ==>
                var seen := old(fundings)[fundingId].status;
                && (seen != PendingVerification <==> r == Err(AlreadyDecided(seen)))
                && (seen == PendingVerification && decision == Reject("") <==> r == Err(ReasonRequired))
                && (seen == PendingVerification && decision != Reject("") && !actorIsManager <==> r == Err(NotCurrentManager))
      ensures r.Ok? <==>
                && fundingId < |old(fundings)| && old(fundings)[fundingId].status == PendingVerification
                && decision != Reject("") && actorIsManager
                && fundingId < |mid.fundings| && mid.fundings[fundingId].status == PendingVerification
      ensures r.Ok? ==> DecidedAs(mid.fundings[fundingId], r.value, actor, decision, now)
    {
      mid := State();
      if fundingId >= |fundings| {
        return Err(FundingNotFound), mid;
      }
      var funding := fundings[fundingId];
      if funding.status != PendingVerification {
        return Err(AlreadyDecided(funding.status)), mid;
      }
      if decision.Reject? && decision.reason == "" {
        return Err(ReasonRequired), mid;
      }
      if !actorIsManager {
        return Err(NotCurrentManager), mid;
      }
      Interfere();
      mid := State();
      if fundings[fundingId].status != PendingVerification {
        return Err(ConcurrentlyModified), mid;
      }
      var updated := Decided(fundings[fundingId], actor, decision, now);
      fundings := fundings[fundingId := updated];
      if decision.Verify? {
        CreditBranch(funding.branchId, funding.amount);
      }
      return Ok(updated), mid;
    }
  }
}
