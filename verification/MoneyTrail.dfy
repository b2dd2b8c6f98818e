/**
 * From the branch balances to the books. The loan book and the ledger run side by side; a disbursement is
 * posted only by the loop that follows it, one member at a time, and every posting may fail or be repeated.
 */
module MoneyTrail {
  import opened Common
  import opened Schedule
  import opened Lending
  import opened LendingInvariant
  import opened LendingCoherence
  import opened LendingAftermath
  import LendingAttempts
  import LendingMoney
  import BranchFunds
  import JournalBalance
  import Ledger
  import LedgerService

  // ---------------------------------------------------------------- where an entry's amount comes from

  function EntryTotal(e: Ledger.Entry): int {
    Sum(JournalBalance.Debit(), e.lines)
  }

  predicate CallTraced(call: Ledger.Call) {
    match call.stage
    case Finding(lines) => Sum(JournalBalance.Debit(), lines) == call.posting.amountKobo
    case Inserting(lines) => Sum(JournalBalance.Debit(), lines) == call.posting.amountKobo
    case _ => true
  }

  /** `e` is an entry for `p`: its source, reference and branch, and its amount. */
  predicate EntersPosting(e: Ledger.Entry, p: Ledger.Posting) {
    e == Ledger.EntryFor(p, e.lines, e.date) && EntryTotal(e) == p.amountKobo
  }

  /** The entry is manual, or it is the entry for what some call asked to post. */
  predicate EntryTraced(calls: seq<Ledger.Call>, e: Ledger.Entry) {
    e.source.ManualAdjustment? || exists k :: 0 <= k < |calls| && EntersPosting(e, calls[k].posting)
  }

  ghost predicate Traced(m: Ledger.Books) {
    && (forall k :: 0 <= k < |m.calls| ==> CallTraced(m.calls[k]))
    && (forall e :: 0 <= e < |m.entries| ==> EntryTraced(m.calls, m.entries[e]))
  }

  lemma TraceKept(calls: seq<Ledger.Call>, more: seq<Ledger.Call>, e: Ledger.Entry)
    requires EntryTraced(calls, e) && |calls| <= |more|
    requires forall k :: 0 <= k < |calls| ==> more[k].posting == calls[k].posting
    ensures EntryTraced(more, e)
  {
    if !e.source.ManualAdjustment? {
      var k :| 0 <= k < |calls| && EntersPosting(e, calls[k].posting);
      assert EntersPosting(e, more[k].posting);
    }
  }

  /** A call moves on to a traced stage, and no entry is written. */
  lemma StageTraced(m: Ledger.Books, i: nat, stage: Ledger.Stage)
    requires Traced(m) && i < |m.calls| && CallTraced(m.calls[i].(stage := stage))
    ensures Traced(Ledger.SetStage(m, i, stage))
  {
    var n := Ledger.SetStage(m, i, stage);
    forall e | 0 <= e < |n.entries|
      ensures EntryTraced(n.calls, n.entries[e])
    {
      TraceKept(m.calls, n.calls, m.entries[e]);
    }
  }

  lemma ResolvedTraced(m: Ledger.Books, i: nat, onDebit: bool)
    requires Traced(m) && i < |m.calls| && m.calls[i].stage.Resolving?
    ensures Traced(Ledger.Resolved(m, i, onDebit))
  {
    var n := Ledger.Resolved(m, i, onDebit);
    if n.calls[i].stage.Finding? {
      var key := if onDebit then Ledger.DebitKey(m.calls[i].posting.kind) else Ledger.CreditKey(m.calls[i].posting.kind);
      if onDebit {
        JournalBalance.TransferBalanced(m.mappings[key], m.calls[i].stage.credit.value, m.calls[i].posting.amountKobo);
      } else {
        JournalBalance.TransferBalanced(m.calls[i].stage.debit.value, m.mappings[key], m.calls[i].posting.amountKobo);
      }
    }
    StageTraced(m, i, n.calls[i].stage);
  }

  lemma InsertedTraced(m: Ledger.Books, i: nat, now: int)
    requires Traced(m) && i < |m.calls| && m.calls[i].stage.Inserting?
    ensures Traced(Ledger.Inserted(m, i, now))
  {
    var n := Ledger.Inserted(m, i, now);
    StageTraced(m, i, n.calls[i].stage);
    assert CallTraced(m.calls[i]);
    forall e | 0 <= e < |n.entries|
      ensures EntryTraced(n.calls, n.entries[e])
    {
      if e < |m.entries| {
        TraceKept(m.calls, n.calls, m.entries[e]);
      } else {
        assert EntersPosting(n.entries[e], n.calls[i].posting);
      }
    }
  }

  /** Actions that touch no call in flight: a call is at most added, an entry at most manual. */
  lemma BookStepTraced(m: Ledger.Books, a: Ledger.Action)
    requires Traced(m) && !Ledger.IsCallStep(a)
    ensures Traced(Ledger.Next(m, a))
  {
    var n := Ledger.Next(m, a);
    assert forall k :: 0 <= k < |m.calls| ==> n.calls[k] == m.calls[k];
    forall e | 0 <= e < |n.entries|
      ensures EntryTraced(n.calls, n.entries[e])
    {
      if e < |m.entries| {
        TraceKept(m.calls, n.calls, m.entries[e]);
      }
    }
  }

  lemma FoundTraced(m: Ledger.Books, i: nat)
    requires Traced(m) && i < |m.calls|
    ensures m.calls[i].stage.Finding? ==> Traced(Ledger.Found(m, i))
    ensures m.calls[i].stage.Refetching? ==> Traced(Ledger.Refetched(m, i))
  {
    assert CallTraced(m.calls[i]);
    if m.calls[i].stage.Finding? {
      StageTraced(m, i, Ledger.Found(m, i).calls[i].stage);
    } else if m.calls[i].stage.Refetching? {
      StageTraced(m, i, Ledger.Refetched(m, i).calls[i].stage);
    }
  }

  lemma NextTraced(m: Ledger.Books, a: Ledger.Action)
    requires Traced(m)
    ensures Traced(Ledger.Next(m, a))
  {
    if !Ledger.IsCallStep(a) {
      BookStepTraced(m, a);
    } else if a.call < |m.calls| {
      if a.InsertFails? {
        StageTraced(m, a.call, Ledger.Threw(Ledger.OtherDatabaseError));
      } else if m.calls[a.call].stage.Resolving? {
        ResolvedTraced(m, a.call, a.ResolveDebit?);
      } else if a.Insert? && m.calls[a.call].stage.Inserting? {
        InsertedTraced(m, a.call, a.now);
      } else {
        FoundTraced(m, a.call);
      }
    }
  }

  lemma {:induction false} RunTraced(m: Ledger.Books, actions: seq<Ledger.Action>)
    requires Traced(m)
    ensures Traced(Ledger.Run(m, actions))
  {
    if actions != [] {
      RunTraced(m, actions[..|actions| - 1]);
      NextTraced(Ledger.Run(m, actions[..|actions| - 1]), actions[|actions| - 1]);
    }
  }

  // ---------------------------------------------------------------- a disbursed member

  /** What the posting of a member is made of stays: its account, its principal, and its loan's branch. */
  predicate SameDebt(s: Book, t: Book, i: nat)
    requires OnDisbursed(s, i)
  {
    && OnDisbursed(t, i)
    && t.accounts[i].value.loanId == s.accounts[i].value.loanId
    && t.accounts[i].value.principal == s.accounts[i].value.principal
    && BranchOf(t, i) == BranchOf(s, i)
  }

  function BranchOf(s: Book, i: nat): string
    requires OnDisbursed(s, i)
  {
    s.loans[s.accounts[i].value.loanId].value.branchId
  }

  lemma OfficeKeepsDebt(s: Book, a: Action, i: nat)
    requires Base(s) && OnDisbursed(s, i) && (a.RaiseStep? || a.EditStep? || a.DeleteStep?)
    ensures SameDebt(s, Next(s, a), i)
  {
    assert s.loans[s.accounts[i].value.loanId].value.status != PendingApproval;
    if a.EditStep? {
      EditShape(s, a.loan, a.actor, a.changes);
    }
  }

  lemma AccountStepKeepsDebt(s: Book, a: Action, i: nat)
    requires OnDisbursed(s, i) && (a.HandoverStep? || a.RepayStep? || a.ReverseStep? || a.PenaltyStep?)
    ensures SameDebt(s, Next(s, a), i)
  {
    hide PayOut, Raise, Edit, Delete, FinishVerify, FinishResolve, RejectTheLoan;
  }

  lemma PayKeepsDebt(s: Book, l: nat, product: Product, now: int, i: nat)
    requires OnDisbursed(s, i)
    ensures SameDebt(s, PayOut(s, l, product, now), i)
  {
  }

  lemma RejectKeepsDebt(s: Book, l: nat, i: nat)
    requires OnDisbursed(s, i)
    ensures SameDebt(s, RejectTheLoan(s, l), i)
  {
  }

  /** Every step of every run keeps a disbursed member's account, principal and branch. */
  lemma StepKeepsDebt(s: Book, a: Action, i: nat)
    requires Base(s) && OnDisbursed(s, i)
    ensures SameDebt(s, Next(s, a), i)
  {
    hide Next;
    if Quiet(a) {
      QuietShape(s, a);
      assert SameButStatus(s.loans[s.accounts[i].value.loanId], Next(s, a).loans[s.accounts[i].value.loanId]);
    } else if a.RaiseStep? || a.EditStep? || a.DeleteStep? {
      OfficeKeepsDebt(s, a, i);
    } else if !Deciding(a) {
      AccountStepKeepsDebt(s, a, i);
    } else if Attempt(s, a).Some? {
      AttemptShape(s, a);
      PayKeepsDebt(Before(s, a), Attempt(s, a).value, ProductPaid(s, a), a.now, i);
    } else if Rejecting(s, a).Some? {
      RejectShape(s, a);
      RejectKeepsDebt(s, Rejecting(s, a).value, i);
    } else {
      IdleShape(s, a);
    }
  }

  // ---------------------------------------------------------------- the two machines together

  /** The document ids of the accounts, by position. */
  ghost predicate Distinct(ids: nat -> string) {
    forall i: nat, j: nat :: ids(i) == ids(j) ==> i == j
  }

  function PostingFor(s: Book, i: nat, ids: nat -> string): Ledger.Posting
    requires OnDisbursed(s, i)
  {
    Ledger.Posting(Ledger.ForDisbursement, ids(i), BranchOf(s, i), s.accounts[i].value.principal)
  }

  datatype World = World(book: Book, books: Ledger.Books)

  datatype Step =
    | Lend(action: Action)
    | Keep(entry: Ledger.Action)
    | PostMember(account: nat)

  /** The loop after a disbursement is the only caller that begins disbursement postings. */
  function NextWorld(w: World, step: Step, ids: nat -> string): World {
    match step
    case Lend(a) => w.(book := Next(w.book, a))
    case Keep(a) =>
      if a.BeginPosting? && a.posting.kind == Ledger.ForDisbursement then w else w.(books := Ledger.Next(w.books, a))
    case PostMember(i) =>
      if OnDisbursed(w.book, i) then w.(books := Ledger.Next(w.books, Ledger.BeginPosting(PostingFor(w.book, i, ids)))) else w
  }

  function RunWorld(w: World, steps: seq<Step>, ids: nat -> string): World {
    if steps == [] then w else NextWorld(RunWorld(w, steps[..|steps| - 1], ids), steps[|steps| - 1], ids)
  }

  /** The lending side of a joint run. */
  function Lendings(steps: seq<Step>): seq<Action> {
    if steps == [] then []
    else
      var front, last := Lendings(steps[..|steps| - 1]), steps[|steps| - 1];
      if last.Lend? then front + [last.action] else front
  }

  lemma {:induction false} BookRuns(w: World, steps: seq<Step>, ids: nat -> string)
    ensures RunWorld(w, steps, ids).book == Run(w.book, Lendings(steps))
  {
    hide Next;
    if steps != [] {
      var front, last := steps[..|steps| - 1], steps[|steps| - 1];
      BookRuns(w, front, ids);
      if last.Lend? {
        assert (Lendings(front) + [last.action])[..|Lendings(front)|] == Lendings(front);
      }
    }
  }

  /** No loans yet, and a ledger just booted on an empty database. */
  ghost predicate Started(w: World) {
    Initial(w.book) && exists empty: Ledger.Books :: Ledger.Empty(empty) && w.books == Ledger.Booted(empty)
  }

  /** `p` posts a disbursed member's principal. */
  ghost predicate PostsMember(s: Book, ids: nat -> string, p: Ledger.Posting) {
    exists i: nat :: OnDisbursed(s, i) && p == PostingFor(s, i, ids)
  }

  /** Every disbursement posting ever begun carries the principal and branch of a disbursed member. */
  ghost predicate PostsPrincipals(w: World, ids: nat -> string) {
    forall k :: 0 <= k < |w.books.calls| && w.books.calls[k].posting.kind == Ledger.ForDisbursement ==>
      PostsMember(w.book, ids, w.books.calls[k].posting)
  }

  ghost predicate Joint(w: World, ids: nat -> string) {
    Base(w.book) && Ledger.Sound(w.books) && Traced(w.books) && PostsPrincipals(w, ids)
  }

  lemma StartedJoint(w: World, ids: nat -> string)
    requires Started(w)
    ensures Joint(w, ids)
  {
    var empty: Ledger.Books :| Ledger.Empty(empty) && w.books == Ledger.Booted(empty);
    Ledger.BootSound(empty);
    InitialSound(w.book);
  }

  lemma LendJoint(w: World, a: Action, ids: nat -> string)
    requires Joint(w, ids)
    ensures Joint(w.(book := Next(w.book, a)), ids)
  {
    hide Next;
    NextBase(w.book, a);
    forall k | 0 <= k < |w.books.calls| && w.books.calls[k].posting.kind == Ledger.ForDisbursement
      ensures PostsMember(Next(w.book, a), ids, w.books.calls[k].posting)
    {
      var i: nat :| OnDisbursed(w.book, i) && w.books.calls[k].posting == PostingFor(w.book, i, ids);
      StepKeepsDebt(w.book, a, i);
      assert w.books.calls[k].posting == PostingFor(Next(w.book, a), i, ids);
    }
  }

  lemma KeepJoint(w: World, a: Ledger.Action, ids: nat -> string)
    requires Joint(w, ids)
    requires a.BeginPosting? && a.posting.kind == Ledger.ForDisbursement ==> PostsMember(w.book, ids, a.posting)
    ensures Joint(w.(books := Ledger.Next(w.books, a)), ids)
  {
    Ledger.NextSound(w.books, a);
    NextTraced(w.books, a);
    CallsGrow(w.books, a);
    forall k | 0 <= k < |Ledger.Next(w.books, a).calls| && Ledger.Next(w.books, a).calls[k].posting.kind == Ledger.ForDisbursement
      ensures PostsMember(w.book, ids, Ledger.Next(w.books, a).calls[k].posting)
    {
      assert k < |w.books.calls| ==> Ledger.Next(w.books, a).calls[k].posting == w.books.calls[k].posting;
    }
  }

  lemma CallsGrow(m: Ledger.Books, a: Ledger.Action)
    ensures var n := Ledger.Next(m, a);
            && |n.calls| == |m.calls| + (if a.BeginPosting? then 1 else 0)
            && (a.BeginPosting? ==> n.calls[|m.calls|].posting == a.posting)
  {
  }

  /** Whatever lending and accounting do next to each other, postings carry principals and entries trace back to them. */
  lemma {:induction false} RunJoint(w: World, steps: seq<Step>, ids: nat -> string)
    requires Joint(w, ids)
    ensures Joint(RunWorld(w, steps, ids), ids)
  {
    hide Next;
    if steps != [] {
      var front, last := RunWorld(w, steps[..|steps| - 1], ids), steps[|steps| - 1];
      RunJoint(w, steps[..|steps| - 1], ids);
      if last.Lend? {
        LendJoint(front, last.action, ids);
      } else if last.Keep? {
        if !(last.entry.BeginPosting? && last.entry.posting.kind == Ledger.ForDisbursement) {
          KeepJoint(front, last.entry, ids);
        }
      } else if OnDisbursed(front.book, last.account) {
        KeepJoint(front, Ledger.BeginPosting(PostingFor(front.book, last.account, ids)), ids);
      }
    }
  }

  // ---------------------------------------------------------------- totals

  /** The disbursed members a total ranges over: those of one loan, or all of a branch. */
  datatype Scope = OfLoan(loan: nat) | OfBranch(branch: string)

  predicate InScope(s: Book, i: nat, scope: Scope) {
    && OnDisbursed(s, i)
    && match scope
       case OfLoan(l) => s.accounts[i].value.loanId == l
       case OfBranch(b) => BranchOf(s, i) == b
  }

  function RefFor(id: string): string {
    Ledger.MakeRef(Ledger.Prefix(Ledger.ForDisbursement), id)
  }

  /** The books hold an entry for account `i`. */
  predicate Posted(m: Ledger.Books, i: nat, ids: nat -> string) {
    Ledger.FindRef(m.entries, RefFor(ids(i))).Some?
  }

  ghost predicate AllPosted(w: World, scope: Scope, ids: nat -> string) {
    forall i: nat :: InScope(w.book, i, scope) ==> Posted(w.books, i, ids)
  }

  /** Disbursement postings for members in scope carry their principals. */
  ghost predicate AmountsAgree(m: Ledger.Books, s: Book, scope: Scope, ids: nat -> string) {
    forall k, i: nat :: 0 <= k < |m.calls| && InScope(s, i, scope) &&
                        m.calls[k].posting.kind == Ledger.ForDisbursement && m.calls[k].posting.entityId == ids(i) ==>
                          m.calls[k].posting.amountKobo == s.accounts[i].value.principal
  }

  /** The amount of `e` if it is the disbursement entry of account `i`, in scope. */
  function PostedAmount(s: Book, scope: Scope, ids: nat -> string): (Ledger.Entry, nat) -> int {
    (e: Ledger.Entry, i: nat) => if InScope(s, i, scope) && e.sourceRef == RefFor(ids(i)) then EntryTotal(e) else 0
  }

  predicate Covers(s: Book, scope: Scope, ids: nat -> string, e: Ledger.Entry) {
    exists i: nat :: i < |s.accounts| && InScope(s, i, scope) && e.sourceRef == RefFor(ids(i))
  }

  function ScopeAmount(s: Book, scope: Scope, ids: nat -> string): Ledger.Entry -> int {
    (e: Ledger.Entry) => if Covers(s, scope, ids, e) then EntryTotal(e) else 0
  }

  /** What the books hold as disbursed in scope. */
  function PostedTotal(m: Ledger.Books, s: Book, scope: Scope, ids: nat -> string): int {
    Sum(ScopeAmount(s, scope, ids), m.entries)
  }

  function Principal(s: Book, scope: Scope): nat -> int {
    (i: nat) => if InScope(s, i, scope) then s.accounts[i].value.principal else 0
  }

  function PostedPrincipal(m: Ledger.Books, s: Book, scope: Scope, ids: nat -> string): nat -> int {
    (i: nat) => if Posted(m, i, ids) then Principal(s, scope)(i) else 0
  }

  function Indices(n: nat): (r: seq<nat>)
    ensures |r| == n && forall i :: 0 <= i < n ==> r[i] == i
  {
    seq(n, i => i)
  }

  /** What was disbursed in scope. */
  function PrincipalTotal(s: Book, scope: Scope): int {
    Sum(Principal(s, scope), Indices(|s.accounts|))
  }

  lemma RefsDiffer(ids: nat -> string, i: nat, j: nat)
    requires Distinct(ids) && i != j
    ensures RefFor(ids(i)) != RefFor(ids(j))
  {
    if RefFor(ids(i)) == RefFor(ids(j)) {
      Ledger.RefInjective(Ledger.Prefix(Ledger.ForDisbursement), ids(i), Ledger.Prefix(Ledger.ForDisbursement), ids(j));
    }
  }

  lemma EntryBelongsToOne(s: Book, scope: Scope, ids: nat -> string, e: Ledger.Entry)
    requires Distinct(ids)
    ensures OverSecond(PostedAmount(s, scope, ids), Indices(|s.accounts|))(e) == ScopeAmount(s, scope, ids)(e)
  {
    var f, indices := FixFirst(PostedAmount(s, scope, ids), e), Indices(|s.accounts|);
    if Covers(s, scope, ids, e) {
      var i: nat :| i < |s.accounts| && InScope(s, i, scope) && e.sourceRef == RefFor(ids(i));
      forall j | 0 <= j < |indices| && j != i
        ensures f(indices[j]) == 0
      {
        RefsDiffer(ids, i, j);
      }
      SumPick(f, indices, i);
    } else {
      SumZero(f, indices);
    }
  }

  /** An entry under a member's reference comes from a disbursement posting for that member. */
  lemma EntryComesFrom(m: Ledger.Books, e: Ledger.Entry, id: string) returns (k: nat)
    requires Ledger.Sound(m) && Traced(m) && e in m.entries && e.sourceRef == RefFor(id)
    ensures k < |m.calls| && EntersPosting(e, m.calls[k].posting)
    ensures m.calls[k].posting.kind == Ledger.ForDisbursement && m.calls[k].posting.entityId == id
  {
    var wanted := Ledger.Posting(Ledger.ForDisbursement, id, "", 0);
    var j :| 0 <= j < |m.entries| && m.entries[j] == e;
    assert Ledger.EntrySound(e, |m.accounts|) && EntryTraced(m.calls, e);
    Ledger.PostingRefsDistinct(wanted, wanted, e.sourceEntityId);
    k :| 0 <= k < |m.calls| && EntersPosting(e, m.calls[k].posting);
    Ledger.PostingRefsDistinct(m.calls[k].posting, wanted, "");
  }

  lemma PostedEntryAmount(m: Ledger.Books, s: Book, scope: Scope, ids: nat -> string, i: nat, e: Ledger.Entry)
    requires Ledger.Sound(m) && Traced(m) && AmountsAgree(m, s, scope, ids) && InScope(s, i, scope)
    requires e in m.entries && e.sourceRef == RefFor(ids(i))
    ensures EntryTotal(e) == s.accounts[i].value.principal
  {
    var k := EntryComesFrom(m, e, ids(i));
    assert m.calls[k].posting.amountKobo == s.accounts[i].value.principal;
  }

  lemma PostedOnce(m: Ledger.Books, s: Book, scope: Scope, ids: nat -> string, i: nat)
    requires Ledger.Sound(m) && InScope(s, i, scope) && Posted(m, i, ids)
    ensures Sum(FixSecond(PostedAmount(s, scope, ids), i), m.entries)
            == EntryTotal(m.entries[Ledger.FindRef(m.entries, RefFor(ids(i))).value])
  {
    var f, e := FixSecond(PostedAmount(s, scope, ids), i), Ledger.FindRef(m.entries, RefFor(ids(i))).value;
    forall j | 0 <= j < |m.entries| && j != e
      ensures f(m.entries[j]) == 0
    {
      assert m.entries[j].sourceRef != m.entries[e].sourceRef by { assert j < e || e < j; }
    }
    SumPick(f, m.entries, e);
  }

  /** A member's entries total its principal if it was posted, and nothing otherwise. */
  lemma OneEntryPerMember(m: Ledger.Books, s: Book, scope: Scope, ids: nat -> string, i: nat)
    requires Ledger.Sound(m) && Traced(m) && AmountsAgree(m, s, scope, ids)
    ensures OverFirst(PostedAmount(s, scope, ids), m.entries)(i)
            == if Posted(m, i, ids) && InScope(s, i, scope) then s.accounts[i].value.principal else 0
  {
    if Posted(m, i, ids) && InScope(s, i, scope) {
      PostedOnce(m, s, scope, ids, i);
      PostedEntryAmount(m, s, scope, ids, i, m.entries[Ledger.FindRef(m.entries, RefFor(ids(i))).value]);
    } else {
      SumZero(FixSecond(PostedAmount(s, scope, ids), i), m.entries);
    }
  }

  /** The books hold exactly the principals of the members posted. */
  lemma PostedByMember(m: Ledger.Books, s: Book, scope: Scope, ids: nat -> string)
    requires Ledger.Sound(m) && Traced(m) && AmountsAgree(m, s, scope, ids) && Distinct(ids)
    ensures PostedTotal(m, s, scope, ids) == Sum(PostedPrincipal(m, s, scope, ids), Indices(|s.accounts|))
  {
    var k, indices := PostedAmount(s, scope, ids), Indices(|s.accounts|);
    forall e | 0 <= e < |m.entries|
      ensures ScopeAmount(s, scope, ids)(m.entries[e]) == OverSecond(k, indices)(m.entries[e])
    {
      EntryBelongsToOne(s, scope, ids, m.entries[e]);
    }
    SumEqual(ScopeAmount(s, scope, ids), m.entries, OverSecond(k, indices), m.entries);
    SumExchange(k, m.entries, indices);
    forall i: nat | i < |indices|
      ensures OverFirst(k, m.entries)(indices[i]) == PostedPrincipal(m, s, scope, ids)(indices[i])
    {
      OneEntryPerMember(m, s, scope, ids, i);
      assert InScope(s, i, scope) ==> Principal(s, scope)(i) == s.accounts[i].value.principal;
      assert !InScope(s, i, scope) ==> Principal(s, scope)(i) == 0;
    }
    SumEqual(OverFirst(k, m.entries), indices, PostedPrincipal(m, s, scope, ids), indices);
  }

  /** The books never hold more than was disbursed, and hold all of it exactly when every member is posted. */
  lemma PostedInFullIff(w: World, scope: Scope, ids: nat -> string)
    requires Ledger.Sound(w.books) && Traced(w.books) && AmountsAgree(w.books, w.book, scope, ids) && Distinct(ids)
    ensures PostedTotal(w.books, w.book, scope, ids) <= PrincipalTotal(w.book, scope)
    ensures PostedTotal(w.books, w.book, scope, ids) == PrincipalTotal(w.book, scope) <==> AllPosted(w, scope, ids)
  {
    var f, g, indices := PostedPrincipal(w.books, w.book, scope, ids), Principal(w.book, scope), Indices(|w.book.accounts|);
    PostedByMember(w.books, w.book, scope, ids);
    SumAtMost(f, g, indices);
    if forall i :: 0 <= i < |indices| ==> f(indices[i]) == g(indices[i]) {
      forall i: nat | InScope(w.book, i, scope)
        ensures Posted(w.books, i, ids)
      {
        assert f(indices[i]) == g(indices[i]);
      }
    } else {
      var i :| 0 <= i < |indices| && f(indices[i]) != g(indices[i]);
      assert InScope(w.book, i, scope) && !Posted(w.books, i, ids);
    }
  }

  lemma JointAgrees(w: World, scope: Scope, ids: nat -> string)
    requires Joint(w, ids) && Distinct(ids)
    ensures AmountsAgree(w.books, w.book, scope, ids)
  {
    forall k, i: nat | 0 <= k < |w.books.calls| && InScope(w.book, i, scope) &&
                       w.books.calls[k].posting.kind == Ledger.ForDisbursement && w.books.calls[k].posting.entityId == ids(i)
      ensures w.books.calls[k].posting.amountKobo == w.book.accounts[i].value.principal
    {
      var j: nat :| OnDisbursed(w.book, j) && w.books.calls[k].posting == PostingFor(w.book, j, ids);
      assert ids(j) == ids(i);
    }
  }

  lemma LoanPrincipals(s: Book, l: nat)
    requires IsDisbursed(s, l)
    ensures PrincipalTotal(s, OfLoan(l)) == Principals(s.accounts, l)
  {
    SumEqual(Principal(s, OfLoan(l)), Indices(|s.accounts|), PrincipalOn(l), s.accounts);
  }

  /**
   * Money disbursed is money posted. In every joint run whose edits finish, the disbursement entries of a
   * disbursed loan never exceed its cumulative amount, and total it exactly when each member has been posted.
   */
  lemma DisbursedIsPostedIff(start: World, steps: seq<Step>, ids: nat -> string, l: nat)
    requires Started(start) && Distinct(ids) && LendingMoney.EditsComplete(start.book, Lendings(steps))
    requires IsDisbursed(RunWorld(start, steps, ids).book, l)
    ensures var w := RunWorld(start, steps, ids);
            var posted, cumulative := PostedTotal(w.books, w.book, OfLoan(l), ids), w.book.loans[l].value.cumulative;
            && posted <= cumulative
            && (posted == cumulative <==> AllPosted(w, OfLoan(l), ids))
  {
    hide Next;
    var w := RunWorld(start, steps, ids);
    StartedJoint(start, ids);
    RunJoint(start, steps, ids);
    JointAgrees(w, OfLoan(l), ids);
    PostedInFullIff(w, OfLoan(l), ids);
    LoanPrincipals(w.book, l);
    BookRuns(start, steps, ids);
    LendingMoney.RunTallies(start.book, Lendings(steps), l);
  }

  /**
   * Money debited is money posted. For every loan that is not paid out a second time: its entries never exceed
   * what its disbursement took from the branch, and equal it exactly when each disbursed member has been posted.
   */
  lemma DebitedIsPostedIff(start: World, steps: seq<Step>, ids: nat -> string, l: nat)
    requires Started(start) && Distinct(ids)
    requires LendingMoney.EditsComplete(start.book, Lendings(steps)) && LendingMoney.Unrepeated(start.book, Lendings(steps), l)
    ensures var w := RunWorld(start, steps, ids);
            var posted, debited := PostedTotal(w.books, w.book, OfLoan(l), ids), LendingMoney.PaidFor(start.book, Lendings(steps), l);
            && posted <= debited
            && (posted == debited <==> AllPosted(w, OfLoan(l), ids))
  {
    hide Next;
    var w := RunWorld(start, steps, ids);
    BookRuns(start, steps, ids);
    LendingMoney.PaidOnceIff(start.book, Lendings(steps), l);
    if IsDisbursed(w.book, l) {
      DisbursedIsPostedIff(start, steps, ids, l);
    } else {
      SumZero(ScopeAmount(w.book, OfLoan(l), ids), w.books.entries);
    }
  }

  /** Attempts to disburse that do not overlap never pay a loan out a second time, whatever accounting does meanwhile. */
  lemma ApartDebitedIsPostedIff(start: World, steps: seq<Step>, ids: nat -> string, l: nat)
    requires Started(start) && Distinct(ids) && LendingMoney.EditsComplete(start.book, Lendings(steps))
    requires Timely(start.book, Lendings(steps)) && LendingAttempts.ApartOn(start.book, Lendings(steps), l)
    ensures var w := RunWorld(start, steps, ids);
            var posted, debited := PostedTotal(w.books, w.book, OfLoan(l), ids), LendingMoney.PaidFor(start.book, Lendings(steps), l);
            && posted <= debited
            && (posted == debited <==> AllPosted(w, OfLoan(l), ids))
  {
    hide Next, LendingMoney.PaidFor, PostedTotal, AllPosted;
    InitialSound(start.book);
    LendingAttempts.InitialAlone(start.book, l);
    LendingAttempts.ApartIsUnrepeated(start.book, Lendings(steps), l);
    DebitedIsPostedIff(start, steps, ids, l);
  }

  // ---------------------------------------------------------------- a branch's books and its balance

  /** What the books show as lent out of branch `b`. */
  function LentOut(b: string): Ledger.Entry -> int {
    (e: Ledger.Entry) => if e.source == Ledger.LoanDisbursement && e.branchId == b then EntryTotal(e) else 0
  }

  /** An entry under a member's reference shows the branch of its loan. */
  lemma MemberEntry(w: World, ids: nat -> string, i: nat, e: Ledger.Entry)
    requires Joint(w, ids) && Distinct(ids) && e in w.books.entries
    requires OnDisbursed(w.book, i) && e.sourceRef == RefFor(ids(i))
    ensures e.source == Ledger.LoanDisbursement && e.branchId == BranchOf(w.book, i)
  {
    var k := EntryComesFrom(w.books, e, ids(i));
    var j: nat :| OnDisbursed(w.book, j) && w.books.calls[k].posting == PostingFor(w.book, j, ids);
    assert ids(j) == ids(i);
  }

  /** And an entry that shows a disbursement is a member's. */
  lemma DisbursementEntry(w: World, ids: nat -> string, e: Ledger.Entry) returns (i: nat)
    requires Joint(w, ids) && e in w.books.entries && e.source == Ledger.LoanDisbursement
    ensures OnDisbursed(w.book, i) && e.sourceRef == RefFor(ids(i)) && e.branchId == BranchOf(w.book, i)
  {
    var j :| 0 <= j < |w.books.entries| && w.books.entries[j] == e;
    assert EntryTraced(w.books.calls, e);
    var k :| 0 <= k < |w.books.calls| && EntersPosting(e, w.books.calls[k].posting);
    i :| OnDisbursed(w.book, i) && w.books.calls[k].posting == PostingFor(w.book, i, ids);
  }

  lemma BranchEntry(w: World, ids: nat -> string, b: string, e: Ledger.Entry)
    requires Joint(w, ids) && Distinct(ids) && e in w.books.entries
    ensures Covers(w.book, OfBranch(b), ids, e) <==> e.source == Ledger.LoanDisbursement && e.branchId == b
  {
    hide Joint;
    if Covers(w.book, OfBranch(b), ids, e) {
      var i: nat :| i < |w.book.accounts| && InScope(w.book, i, OfBranch(b)) && e.sourceRef == RefFor(ids(i));
      MemberEntry(w, ids, i, e);
    } else if e.source == Ledger.LoanDisbursement {
      var i := DisbursementEntry(w, ids, e);
      assert !InScope(w.book, i, OfBranch(b));
    }
  }

  lemma BranchEntries(w: World, ids: nat -> string, b: string)
    requires Joint(w, ids) && Distinct(ids)
    ensures Sum(LentOut(b), w.books.entries) == PostedTotal(w.books, w.book, OfBranch(b), ids)
  {
    forall e | 0 <= e < |w.books.entries|
      ensures LentOut(b)(w.books.entries[e]) == ScopeAmount(w.book, OfBranch(b), ids)(w.books.entries[e])
    {
      BranchEntry(w, ids, b, w.books.entries[e]);
    }
    SumEqual(LentOut(b), w.books.entries, ScopeAmount(w.book, OfBranch(b), ids), w.books.entries);
  }

  /** The principal of account `i` if it is on loan `l`, disbursed from branch `b`. */
  function LoanMember(s: Book, b: string): (nat, nat) -> int {
    (l: nat, i: nat) => if InScope(s, i, OfBranch(b)) && s.accounts[i].value.loanId == l then s.accounts[i].value.principal else 0
  }

  lemma LoanMembers(s: Book, b: string, l: nat)
    requires l < |s.loans| && LendingMoney.Tallies(s, l)
    ensures OverSecond(LoanMember(s, b), Indices(|s.accounts|))(l) == LendingMoney.DisbursedFrom(b)(s.loans[l])
  {
    var f, indices := FixFirst(LoanMember(s, b), l), Indices(|s.accounts|);
    if IsDisbursed(s, l) && s.loans[l].value.branchId == b {
      forall i | 0 <= i < |indices|
        ensures f(indices[i]) == PrincipalOn(l)(s.accounts[i])
      {
        assert InScope(s, i, OfBranch(b)) && s.accounts[i].value.loanId == l <==> Belongs(s.accounts[i], l);
      }
      SumEqual(f, indices, PrincipalOn(l), s.accounts);
    } else {
      forall i | 0 <= i < |indices|
        ensures f(indices[i]) == 0
      {
        assert !(InScope(s, i, OfBranch(b)) && s.accounts[i].value.loanId == l);
      }
      SumZero(f, indices);
    }
  }

  lemma MemberLoans(s: Book, b: string, i: nat)
    requires i < |s.accounts|
    ensures OverFirst(LoanMember(s, b), Indices(|s.loans|))(i) == Principal(s, OfBranch(b))(i)
  {
    var f, indices := FixSecond(LoanMember(s, b), i), Indices(|s.loans|);
    if OnDisbursed(s, i) {
      SumPick(f, indices, s.accounts[i].value.loanId);
    } else {
      forall l | 0 <= l < |indices|
        ensures f(indices[l]) == 0
      {
        assert !InScope(s, i, OfBranch(b));
      }
      SumZero(f, indices);
    }
  }

  /** The members' principals of a branch are the amounts it lent. */
  lemma BranchPrincipals(s: Book, b: string)
    requires forall l: nat :: l < |s.loans| ==> LendingMoney.Tallies(s, l)
    ensures PrincipalTotal(s, OfBranch(b)) == LendingMoney.Lent(s, b)
  {
    var k, loans, accounts := LoanMember(s, b), Indices(|s.loans|), Indices(|s.accounts|);
    forall l: nat | l < |loans|
      ensures OverSecond(k, accounts)(loans[l]) == LendingMoney.DisbursedFrom(b)(s.loans[l])
    {
      LoanMembers(s, b, l);
    }
    SumEqual(OverSecond(k, accounts), loans, LendingMoney.DisbursedFrom(b), s.loans);
    SumExchange(k, loans, accounts);
    forall i: nat | i < |accounts|
      ensures OverFirst(k, loans)(accounts[i]) == Principal(s, OfBranch(b))(accounts[i])
    {
      MemberLoans(s, b, i);
    }
    SumEqual(OverFirst(k, loans), accounts, Principal(s, OfBranch(b)), accounts);
  }

  /**
   * The books meet the bank. In every joint run whose edits finish, a branch's balance is its verified
   * fundings less the disbursements in its books, and less what was paid out a second time, which the books
   * never show, exactly when each of its disbursed members has been posted; until then it is lower.
   */
  lemma BooksMeetBalanceIff(start: World, steps: seq<Step>, ids: nat -> string, b: string)
    requires Started(start) && Distinct(ids) && LendingMoney.EditsComplete(start.book, Lendings(steps))
    ensures var w := RunWorld(start, steps, ids);
            var expected := BranchFunds.VerifiedTotal(w.book.funds, b) - Sum(LentOut(b), w.books.entries)
                            - LendingMoney.Repetitions(start.book, Lendings(steps), b);
            && BranchFunds.Balance(w.book.funds, b) <= expected
            && (BranchFunds.Balance(w.book.funds, b) == expected <==> AllPosted(w, OfBranch(b), ids))
    ensures LendingMoney.NeverRepeats(start.book, Lendings(steps)) ==>
              LendingMoney.Repetitions(start.book, Lendings(steps), b) == 0
  {
    hide Next;
    var w := RunWorld(start, steps, ids);
    StartedJoint(start, ids);
    RunJoint(start, steps, ids);
    JointAgrees(w, OfBranch(b), ids);
    PostedInFullIff(w, OfBranch(b), ids);
    BranchEntries(w, ids, b);
    BookRuns(start, steps, ids);
    forall l: nat | l < |w.book.loans|
      ensures LendingMoney.Tallies(w.book, l)
    {
      LendingMoney.RunTallies(start.book, Lendings(steps), l);
    }
    BranchPrincipals(w.book, b);
    LendingMoney.FundsAreLentOrRepeated(start.book, Lendings(steps), b);
    if LendingMoney.NeverRepeats(start.book, Lendings(steps)) {
      LendingMoney.NothingRepeated(start.book, Lendings(steps), b);
    }
  }

  /** With attempts that do not overlap the repeated payments drop out. */
  lemma ApartBooksMeetBalanceIff(start: World, steps: seq<Step>, ids: nat -> string, b: string)
    requires Started(start) && Distinct(ids) && LendingMoney.EditsComplete(start.book, Lendings(steps))
    requires Timely(start.book, Lendings(steps)) && LendingAttempts.Apart(start.book, Lendings(steps))
    ensures var w := RunWorld(start, steps, ids);
            var expected := BranchFunds.VerifiedTotal(w.book.funds, b) - Sum(LentOut(b), w.books.entries);
            && BranchFunds.Balance(w.book.funds, b) <= expected
            && (BranchFunds.Balance(w.book.funds, b) == expected <==> AllPosted(w, OfBranch(b), ids))
  {
    hide Next, AllPosted;
    LendingAttempts.ApartNeverRepeats(start.book, Lendings(steps));
    BooksMeetBalanceIff(start, steps, ids, b);
  }

  // ---------------------------------------------------------------- the posting loop

  /** A disbursement posting for a member of `l`, if it is one, carries that member's principal. */
  function Agreeing(s: Book, l: nat, ids: nat -> string): Ledger.Posting -> bool {
    (p: Ledger.Posting) =>
      p.kind == Ledger.ForDisbursement ==>
        forall i :: 0 <= i < |s.accounts| && Belongs(s.accounts[i], l) && p.entityId == ids(i) ==>
          p.amountKobo == s.accounts[i].value.principal
  }

  /** In a joint run no other posting is ever begun for the members of a loan disbursed in `s`. */
  lemma JointAgreeing(w: World, steps: seq<Step>, ids: nat -> string, l: nat, p: Ledger.Posting)
    requires Joint(w, ids) && Distinct(ids) && IsDisbursed(w.book, l)
    requires p.kind == Ledger.ForDisbursement ==> PostsMember(RunWorld(w, steps, ids).book, ids, p)
    ensures Agreeing(w.book, l, ids)(p)
  {
    hide Next;
    forall i: nat | p.kind == Ledger.ForDisbursement && i < |w.book.accounts| && Belongs(w.book.accounts[i], l) && p.entityId == ids(i)
      ensures p.amountKobo == w.book.accounts[i].value.principal
    {
      var t := RunWorld(w, steps, ids).book;
      BookRuns(w, steps, ids);
      RunKeepsDebt(w.book, Lendings(steps), i);
      var j: nat :| OnDisbursed(t, j) && p == PostingFor(t, j, ids);
      assert ids(j) == ids(i);
    }
  }

  lemma {:induction false} RunKeepsDebt(s: Book, actions: seq<Action>, i: nat)
    requires Base(s) && OnDisbursed(s, i)
    ensures SameDebt(s, Run(s, actions), i)
  {
    hide Next;
    if actions != [] {
      RunKeepsDebt(s, actions[..|actions| - 1], i);
      RunBase(s, actions[..|actions| - 1]);
      StepKeepsDebt(Run(s, actions[..|actions| - 1]), actions[|actions| - 1], i);
    }
  }

  lemma RunAgrees(m: Ledger.Books, trace: seq<Ledger.Action>, s: Book, l: nat, ids: nat -> string)
    requires AmountsAgree(m, s, OfLoan(l), ids) && LedgerService.Allows(Agreeing(s, l, ids), trace)
    ensures AmountsAgree(Ledger.Run(m, trace), s, OfLoan(l), ids)
  {
    if trace != [] {
      var front, last := trace[..|trace| - 1], trace[|trace| - 1];
      RunAgrees(m, front, s, l, ids);
      CallsGrow(Ledger.Run(m, front), last);
      StepAgrees(Ledger.Run(m, front), last, s, l, ids);
    }
  }

  lemma StepAgrees(m: Ledger.Books, a: Ledger.Action, s: Book, l: nat, ids: nat -> string)
    requires AmountsAgree(m, s, OfLoan(l), ids) && (a.BeginPosting? ==> Agreeing(s, l, ids)(a.posting))
    ensures AmountsAgree(Ledger.Next(m, a), s, OfLoan(l), ids)
  {
    var n := Ledger.Next(m, a);
    CallsGrow(m, a);
    forall k, i: nat | 0 <= k < |n.calls| && InScope(s, i, OfLoan(l)) &&
                       n.calls[k].posting.kind == Ledger.ForDisbursement && n.calls[k].posting.entityId == ids(i)
      ensures n.calls[k].posting.amountKobo == s.accounts[i].value.principal
    {
      if k < |m.calls| {
        PostingKept(m, a, k);
      }
    }
  }

  lemma PostingKept(m: Ledger.Books, a: Ledger.Action, k: nat)
    requires k < |m.calls|
    ensures k < |Ledger.Next(m, a).calls| && Ledger.Next(m, a).calls[k].posting == m.calls[k].posting
  {
  }

  /**
   * Posts every member of a disbursed loan; a failure is noted and the others are still posted. Other callers
   * run in between. When nothing failed, the loan's entries total its members' principals.
   */
  method PostDisbursements(ledger: LedgerService.LedgerStore, s: Book, l: nat, ids: nat -> string, now: int)
    returns (failed: set<nat>, ghost trace: seq<Ledger.Action>)
    requires Ledger.Sound(ledger.State()) && Traced(ledger.State()) && AmountsAgree(ledger.State(), s, OfLoan(l), ids)
    requires IsDisbursed(s, l) && Distinct(ids)
    modifies ledger
    ensures LedgerService.Happened(old(ledger.State()), ledger.State(), Agreeing(s, l, ids), trace)
    ensures forall i: nat :: InScope(s, i, OfLoan(l)) && i !in failed ==> Posted(ledger.State(), i, ids)
    ensures failed == {} ==> PostedTotal(ledger.State(), s, OfLoan(l), ids) == Principals(s.accounts, l)
  {
    ghost var start := ledger.State();
    failed := {};
    trace := [];
    LedgerService.NothingHappened(start, Agreeing(s, l, ids));
    for i := 0 to |s.accounts|
      invariant LedgerService.Happened(start, ledger.State(), Agreeing(s, l, ids), trace)
      invariant forall j: nat :: j < i && InScope(s, j, OfLoan(l)) && j !in failed ==> Posted(ledger.State(), j, ids)
    {
      if Belongs(s.accounts[i], l) {
        ghost var before := ledger.State();
        var p := PostingFor(s, i, ids);
        AgreesWithItself(s, l, ids, i);
        ghost var ending, more;
        var r;
        r, ending, more := ledger.Post(p, now, Agreeing(s, l, ids));
        LedgerService.ThenRun(start, before, ledger.State(), Agreeing(s, l, ids), trace, more, 0);
        trace := trace + more;
        StillPosted(before, ledger.State(), s, l, ids, failed);
        if r.Err? {
          failed := failed + {i};
        }
      }
    }
    if failed == {} {
      RunTraced(start, trace);
      RunAgrees(start, trace, s, l, ids);
      PostedInFullIff(World(s, ledger.State()), OfLoan(l), ids);
      LoanPrincipals(s, l);
    }
  }

  lemma AgreesWithItself(s: Book, l: nat, ids: nat -> string, i: nat)
    requires IsDisbursed(s, l) && Distinct(ids) && i < |s.accounts| && Belongs(s.accounts[i], l)
    ensures Agreeing(s, l, ids)(PostingFor(s, i, ids))
  {
  }

  lemma StillPosted(m: Ledger.Books, n: Ledger.Books, s: Book, l: nat, ids: nat -> string, failed: set<nat>)
    requires m.entries <= n.entries
    ensures forall j: nat :: Posted(m, j, ids) ==> Posted(n, j, ids)
  {
    forall j: nat | Posted(m, j, ids)
      ensures Posted(n, j, ids)
    {
      Ledger.FindRefStable(m.entries, n.entries, RefFor(ids(j)));
    }
  }
}
