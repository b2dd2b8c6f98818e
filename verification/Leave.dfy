/**
 * Leave balances: a days counter per staff member, leave type and year, and an applied flag on each
 * application. A handler first changes an application's status and only then, in a second transaction,
 * moves the days; handlers interleave and events are delivered any number of times.
 */
module Leave {
  import opened Common

  type StaffId = string
  type LeaveTypeId = string

  datatype Key = Key(staff: StaffId, leaveType: LeaveTypeId, year: int)

  datatype Balance = Balance(allocatedDays: int, usedDays: int)

  datatype Status = PendingReview | PendingApproval | Approved | Rejected | Cancelled

  /** `decision` is what the workflow engine decided, once; `key.year` is the year of the start date. */
  datatype Application = Application(
    key: Key, numberOfDays: int, status: Status, balanceApplied: bool, shortfallDays: Option<int>, decision: Option<bool>)

  /** The second transaction of a handler, still to run. */
  datatype Todo = ToApply(app: nat) | ToReverse(app: nat) | Finished

  datatype Records = Records(
    types: map<LeaveTypeId, int>, balances: map<Key, Balance>, apps: seq<Application>, todos: seq<Todo>)

  datatype LeaveError =
    | NotActive | EndBeforeStart | TypeNotFound | ApplicationNotFound | NotAllowed | CannotCancel(status: Status)
    | ConcurrentlyModified

  datatype Action =
    | SaveType(leaveType: LeaveTypeId, allocation: int)
    | ReadBalance(key: Key)
    | Apply(key: Key, active: bool, start: int, end: int)
    | ReviewPassed(app: nat)
    | Decide(app: nat, approved: bool)
    | MarkApproved(app: nat)
    | MarkRejected(app: nat)
    | CancelWrite(app: nat, sawApproved: bool)
    | RunTodo(todo: nat)

  // ---------------------------------------------------------------- counting days

  const MS_PER_DAY := 86_400_000

  /** Rounds a quotient to the nearest integer, halves upward. */
  function RoundQuotient(a: int, b: int): int
    requires b > 0
  {
    (2 * a + b) / (2 * b)
  }

  function NumberOfDays(start: int, end: int): Option<int> {
    var days := RoundQuotient(end - start, MS_PER_DAY) + 1;
    if days <= 0 then None else Some(days)
  }

  /** Between two midnights the count is the calendar days with both ends, and only a later start is refused. */
  lemma NumberOfDaysInclusive(start: int, daysBetween: int)
    ensures NumberOfDays(start, start + daysBetween * MS_PER_DAY)
            == if daysBetween >= 0 then Some(daysBetween + 1) else None
  {
    assert 2 * (daysBetween * MS_PER_DAY) + MS_PER_DAY == daysBetween * (2 * MS_PER_DAY) + MS_PER_DAY;
    assert RoundQuotient(daysBetween * MS_PER_DAY, MS_PER_DAY) == daysBetween;
  }

  /** In general an end up to half a day before the start is still accepted. */
  lemma EndBeforeStartRefusedIff(start: int, end: int)
    ensures NumberOfDays(start, end).None? <==> end < start - MS_PER_DAY / 2
    ensures NumberOfDays(start, end).Some? ==> NumberOfDays(start, end).value >= 1
  {
  }

  /** One hour backwards counts as one day. */
  lemma EndBeforeStartAccepted(start: int)
    ensures NumberOfDays(start, start - 3_600_000) == Some(1)
  {
  }

  // ---------------------------------------------------------------- steps

  /** The balance row is created on first use, with the type's allocation. */
  function Created(r: Records, key: Key): Records
    requires key in r.balances || key.leaveType in r.types
  {
    if key in r.balances then r
    else r.(balances := r.balances[key := Balance(r.types[key.leaveType], 0)])
  }

  function CheckApply(r: Records, key: Key, active: bool, start: int, end: int): Option<LeaveError> {
    if !active then Some(NotActive)
    else if NumberOfDays(start, end).None? then Some(EndBeforeStart)
    else if key !in r.balances && key.leaveType !in r.types then Some(TypeNotFound)
    else None
  }

  function NewApplication(key: Key, days: int, balance: Balance): Application {
    var shortfall := days - (balance.allocatedDays - balance.usedDays);
    Application(key, days, PendingReview, false, if shortfall > 0 then Some(shortfall) else None, None)
  }

  /** Under review, for the days counted, with nothing applied to the balance yet. */
  predicate AppliedFor(app: Application, key: Key, start: int, end: int) {
    && app.key == key && Some(app.numberOfDays) == NumberOfDays(start, end) && app.status == PendingReview
    && !app.balanceApplied && app.decision == None
  }

  function SetStatus(r: Records, i: nat, status: Status): Records
    requires i < |r.apps|
  {
    r.(apps := r.apps[i := r.apps[i].(status := status)])
  }

  function AddDays(r: Records, key: Key, days: int): map<Key, Balance> {
    if key in r.balances then r.balances[key := r.balances[key].(usedDays := r.balances[key].usedDays + days)]
    else r.balances
  }

  /** Flips the flag and counts the days in one transaction; a second call finds the flag set. */
  function ApplyUsage(r: Records, i: nat): Records {
    if i >= |r.apps| || r.apps[i].balanceApplied then r
    else r.(apps := r.apps[i := r.apps[i].(balanceApplied := true)],
            balances := AddDays(r, r.apps[i].key, r.apps[i].numberOfDays))
  }

  function ReverseUsage(r: Records, i: nat): Records {
    if i >= |r.apps| || !r.apps[i].balanceApplied then r
    else r.(apps := r.apps[i := r.apps[i].(balanceApplied := false)],
            balances := AddDays(r, r.apps[i].key, -r.apps[i].numberOfDays))
  }

  function Undecided(status: Status): bool {
    status == PendingReview || status == PendingApproval
  }

  /** The guarded status write of a cancellation, for the branch its earlier read chose. */
  function CancelledWrite(r: Records, i: nat, sawApproved: bool): Records
    requires i < |r.apps|
  {
    if !sawApproved && Undecided(r.apps[i].status) then SetStatus(r, i, Cancelled)
    else if sawApproved && r.apps[i].status == Approved then
      SetStatus(r, i, Cancelled).(todos := r.todos + [ToReverse(i)])
    else r
  }

  function RanTodo(r: Records, k: nat): Records
    requires k < |r.todos|
  {
    var rest := r.(todos := r.todos[k := Finished]);
    match r.todos[k]
    case ToApply(i) => ApplyUsage(rest, i)
    case ToReverse(i) => ReverseUsage(rest, i)
    case Finished => r
  }

  function Next(r: Records, a: Action): Records {
    match a
    case SaveType(t, days) => r.(types := r.types[t := days])
    case ReadBalance(key) => if key in r.balances || key.leaveType in r.types then Created(r, key) else r
    case Apply(key, active, start, end) =>
      if CheckApply(r, key, active, start, end).Some? then r
      else
        var c := Created(r, key);
        c.(apps := c.apps + [NewApplication(key, NumberOfDays(start, end).value, c.balances[key])])
    case ReviewPassed(i) => if i < |r.apps| && r.apps[i].status == PendingReview then SetStatus(r, i, PendingApproval) else r
    case Decide(i, approved) =>
      if i < |r.apps| && r.apps[i].decision.None?
      then r.(apps := r.apps[i := r.apps[i].(decision := Some(approved))]) else r
    case MarkApproved(i) =>
      if i < |r.apps| && r.apps[i].decision == Some(true)
      then SetStatus(r, i, Approved).(todos := r.todos + [ToApply(i)]) else r
    case MarkRejected(i) =>
      if i < |r.apps| && r.apps[i].decision == Some(false) then SetStatus(r, i, Rejected) else r
    case CancelWrite(i, sawApproved) => if i < |r.apps| then CancelledWrite(r, i, sawApproved) else r
    case RunTodo(k) => if k < |r.todos| then RanTodo(r, k) else r
  }

  function Run(r: Records, actions: seq<Action>): Records {
    if actions == [] then r else Next(Run(r, actions[..|actions| - 1]), actions[|actions| - 1])
  }

  ghost predicate Initial(r: Records) {
    r.balances == map[] && r.apps == [] && r.todos == []
  }

  // ---------------------------------------------------------------- conservation of days

  function CountedFor(key: Key): Application -> int {
    (a: Application) => if a.key == key && a.balanceApplied then a.numberOfDays else 0
  }

  function Used(r: Records, key: Key): int {
    if key in r.balances then r.balances[key].usedDays else 0
  }

  /** The days of `key` counted by applications. */
  function Counted(r: Records, key: Key): int {
    Sum(CountedFor(key), r.apps)
  }

  /** Every application counts at least a day and has its balance row. */
  ghost predicate AppsOk(r: Records) {
    forall i :: 0 <= i < |r.apps| ==> r.apps[i].numberOfDays >= 1 && r.apps[i].key in r.balances
  }

  lemma NextAppsOk(r: Records, a: Action)
    requires AppsOk(r)
    ensures AppsOk(Next(r, a))
  {
    if a.Apply? {
      EndBeforeStartRefusedIff(a.start, a.end);
    }
  }

  lemma UsageStep(r: Records, i: nat, key: Key)
    requires AppsOk(r)
    ensures Used(ApplyUsage(r, i), key) - Counted(ApplyUsage(r, i), key) == Used(r, key) - Counted(r, key)
    ensures Used(ReverseUsage(r, i), key) - Counted(ReverseUsage(r, i), key) == Used(r, key) - Counted(r, key)
  {
    if i < |r.apps| {
      SumUpdate(CountedFor(key), r.apps, i, r.apps[i].(balanceApplied := true));
      SumUpdate(CountedFor(key), r.apps, i, r.apps[i].(balanceApplied := false));
    }
  }

  lemma StatusStep(r: Records, i: nat, app: Application, key: Key)
    requires i < |r.apps| && app.key == r.apps[i].key && app.numberOfDays == r.apps[i].numberOfDays
    requires app.balanceApplied == r.apps[i].balanceApplied
    ensures Sum(CountedFor(key), r.apps[i := app]) == Counted(r, key)
  {
    SumUpdate(CountedFor(key), r.apps, i, app);
  }

  lemma CreatedConserves(r: Records, k: Key, key: Key)
    requires k in r.balances || k.leaveType in r.types
    ensures Used(Created(r, k), key) == Used(r, key)
    ensures Created(r, k).apps == r.apps
  {
  }

  lemma AddedConserves(r: Records, app: Application, key: Key)
    requires !app.balanceApplied
    ensures Counted(r.(apps := r.apps + [app]), key) == Counted(r, key)
  {
    SumSnoc(CountedFor(key), r.apps, app);
  }

  lemma TodoConserves(r: Records, k: nat, key: Key)
    requires AppsOk(r) && k < |r.todos|
    ensures Used(RanTodo(r, k), key) - Counted(RanTodo(r, k), key) == Used(r, key) - Counted(r, key)
  {
    if !r.todos[k].Finished? {
      UsageStep(r.(todos := r.todos[k := Finished]), r.todos[k].app, key);
    }
  }

  lemma NextConserves(r: Records, a: Action, key: Key)
    requires AppsOk(r)
    ensures Used(Next(r, a), key) - Counted(Next(r, a), key) == Used(r, key) - Counted(r, key)
  {
    if a.Apply? {
      if CheckApply(r, a.key, a.active, a.start, a.end).None? {
        var c := Created(r, a.key);
        CreatedConserves(r, a.key, key);
        AddedConserves(c, NewApplication(a.key, NumberOfDays(a.start, a.end).value, c.balances[a.key]), key);
      }
    } else if a.RunTodo? {
      if a.todo < |r.todos| {
        TodoConserves(r, a.todo, key);
      }
    } else if a.SaveType? || a.ReadBalance? {
    } else if a.app < |r.apps| {
      StatusStep(r, a.app, Next(r, a).apps[a.app], key);
      assert r.apps[a.app := r.apps[a.app]] == r.apps;
    }
  }

  lemma {:induction false} RunConserves(r: Records, actions: seq<Action>, key: Key)
    requires AppsOk(r)
    ensures AppsOk(Run(r, actions))
    ensures Used(Run(r, actions), key) - Counted(Run(r, actions), key) == Used(r, key) - Counted(r, key)
  {
    if actions != [] {
      var front := actions[..|actions| - 1];
      RunConserves(r, front, key);
      NextAppsOk(Run(r, front), actions[|actions| - 1]);
      NextConserves(Run(r, front), actions[|actions| - 1], key);
    }
  }

  /**
   * In every interleaving, with every event repeated at will, the days used of a balance are exactly the
   * days of the applications flagged as applied to it; so they are never negative, and an approval counts
   * at most once.
   */
  lemma UsageIsAppliedDays(r: Records, actions: seq<Action>, key: Key)
    requires Initial(r)
    ensures Used(Run(r, actions), key) == Counted(Run(r, actions), key)
    ensures Used(Run(r, actions), key) >= 0
  {
    RunConserves(r, actions, key);
    SumNonNegative(CountedFor(key), Run(r, actions).apps);
  }

  /** The books are exact: the counter of every balance is the days applied to it. */
  ghost predicate Exact(r: Records) {
    AppsOk(r) && forall key :: Used(r, key) == Counted(r, key)
  }

  lemma NextExact(r: Records, a: Action)
    requires Exact(r)
    ensures Exact(Next(r, a))
  {
    NextAppsOk(r, a);
    forall key
      ensures Used(Next(r, a), key) == Counted(Next(r, a), key)
    {
      NextConserves(r, a, key);
    }
  }

  // ---------------------------------------------------------------- status and flag

  /** Counted exactly if approved. */
  predicate Agrees(app: Application) {
    app.status == Approved <==> app.balanceApplied
  }

  /** The second transaction of an approval makes flag and status agree exactly if the status is still APPROVED. */
  lemma LateApplyAgreesIff(r: Records, k: nat)
    requires k < |r.todos| && r.todos[k].ToApply? && r.todos[k].app < |r.apps|
    ensures Agrees(Next(r, RunTodo(k)).apps[r.todos[k].app]) <==> r.apps[r.todos[k].app].status == Approved
  {
  }

  /** And that of a cancellation exactly if the application has not been approved again. */
  lemma LateReverseAgreesIff(r: Records, k: nat)
    requires k < |r.todos| && r.todos[k].ToReverse? && r.todos[k].app < |r.apps|
    ensures Agrees(Next(r, RunTodo(k)).apps[r.todos[k].app]) <==> r.apps[r.todos[k].app].status != Approved
  {
  }

  /** An approval overtaken by its cancellation: the application ends cancelled with its days still counted. */
  lemma OvertakenApprovalStaysCounted(r: Records, i: nat)
    requires i < |r.apps| && r.apps[i].decision == Some(true) && !r.apps[i].balanceApplied
    ensures var n := |r.todos|;
            var u := Next(Next(Next(Next(r, MarkApproved(i)), CancelWrite(i, true)), RunTodo(n + 1)), RunTodo(n));
            u.apps[i].status == Cancelled && u.apps[i].balanceApplied
  {
  }

  // ---------------------------------------------------------------- status and flag over overlapping handlers

  predicate PendingAt(r: Records, k: nat, i: nat) {
    k < |r.todos| && !r.todos[k].Finished? && r.todos[k].app == i
  }

  /** Some handler has changed the status of `i` and has still to move its days. */
  ghost predicate Pending(r: Records, i: nat) {
    exists k: nat :: PendingAt(r, k, i)
  }

  /** Only approved requests are approved, counted, or about to be. */
  ghost predicate Grounded(r: Records) {
    && (forall k :: 0 <= k < |r.todos| && !r.todos[k].Finished? ==>
          r.todos[k].app < |r.apps| && r.apps[r.todos[k].app].decision == Some(true))
    && (forall i :: 0 <= i < |r.apps| && (r.apps[i].status == Approved || r.apps[i].balanceApplied) ==>
          r.apps[i].decision == Some(true))
  }

  lemma NextGrounded(r: Records, a: Action)
    requires Grounded(r)
    ensures Grounded(Next(r, a))
  {
    hide AddDays, NumberOfDays;
  }

  /** Every application is counted exactly if approved, or a second transaction is still to come. */
  ghost predicate Settled(r: Records) {
    forall i :: 0 <= i < |r.apps| ==> Agrees(r.apps[i]) || Pending(r, i)
  }

  /**
   * The last outstanding transaction of an application runs after the status it was meant for is gone: days
   * are counted for one no longer approved, or given back for one approved again.
   */
  ghost predicate Overtaken(r: Records, a: Action) {
    && a.RunTodo? && a.todo < |r.todos| && !r.todos[a.todo].Finished?
    && var i := r.todos[a.todo].app;
       && i < |r.apps|
       && (forall k: nat :: PendingAt(r, k, i) ==> k == a.todo)
       && (r.todos[a.todo].ToApply? <==> r.apps[i].status != Approved)
  }

  /** A transaction that runs for application `i` leaves the others, and what is pending for them, alone. */
  lemma TodoFrame(r: Records, k: nat, j: nat)
    requires k < |r.todos| && !r.todos[k].Finished? && r.todos[k].app < |r.apps| && j < |r.apps|
    ensures var s := Next(r, RunTodo(k));
            && |s.apps| == |r.apps| && s.todos == r.todos[k := Finished]
            && (j != r.todos[k].app ==> s.apps[j] == r.apps[j] && (Pending(s, j) <==> Pending(r, j)))
            && (Pending(s, r.todos[k].app) <==> exists m: nat :: PendingAt(r, m, r.todos[k].app) && m != k)
  {
    var s, i := Next(r, RunTodo(k)), r.todos[k].app;
    assert s.todos == r.todos[k := Finished];
    forall m: nat
      ensures PendingAt(s, m, i) <==> PendingAt(r, m, i) && m != k
      ensures j != i ==> (PendingAt(s, m, j) <==> PendingAt(r, m, j))
    {
    }
  }

  lemma TodoSettledIff(r: Records, k: nat)
    requires Grounded(r) && Settled(r) && k < |r.todos| && !r.todos[k].Finished?
    ensures Settled(Next(r, RunTodo(k))) <==> !Overtaken(r, RunTodo(k))
  {
    var s, i := Next(r, RunTodo(k)), r.todos[k].app;
    TodoFrame(r, k, i);
    if r.todos[k].ToApply? {
      LateApplyAgreesIff(r, k);
    } else {
      LateReverseAgreesIff(r, k);
    }
    assert Agrees(s.apps[i]) || Pending(s, i) <==> !Overtaken(r, RunTodo(k)) by {
      assert PendingAt(r, k, i);
    }
    forall j | 0 <= j < |s.apps| && j != i
      ensures Agrees(s.apps[j]) || Pending(s, j)
    {
      TodoFrame(r, k, j);
      assert Agrees(r.apps[j]) || Pending(r, j);
    }
  }

  lemma PendingKept(r: Records, s: Records, i: nat)
    requires r.todos <= s.todos && Pending(r, i)
    ensures Pending(s, i)
  {
    var k: nat :| PendingAt(r, k, i);
    assert PendingAt(s, k, i);
  }

  lemma OtherStepSettled(r: Records, a: Action)
    requires Grounded(r) && Settled(r) && !a.RunTodo?
    ensures Settled(Next(r, a))
  {
    var s := Next(r, a);
    forall i | 0 <= i < |s.apps|
      ensures Agrees(s.apps[i]) || Pending(s, i)
    {
      if a.MarkApproved? && a.app == i && s != r {
        assert PendingAt(s, |r.todos|, i);
      } else if a.CancelWrite? && a.app == i && s.todos != r.todos {
        assert PendingAt(s, |r.todos|, i);
      } else if i < |r.apps| && Pending(r, i) {
        PendingKept(r, s, i);
      }
    }
  }

  /** A step keeps every application settled if and only if it is not an overtaken second transaction. */
  lemma SettledStepIff(r: Records, a: Action)
    requires Grounded(r) && Settled(r)
    ensures Settled(Next(r, a)) <==> !Overtaken(r, a)
  {
    if !a.RunTodo? {
      OtherStepSettled(r, a);
    } else if a.todo < |r.todos| && !r.todos[a.todo].Finished? {
      TodoSettledIff(r, a.todo);
    } else {
      assert Next(r, a) == r;
    }
  }

  ghost predicate SettledThroughout(r: Records, actions: seq<Action>) {
    Settled(Run(r, actions)) && (actions != [] ==> SettledThroughout(r, actions[..|actions| - 1]))
  }

  /** No transaction of the run is overtaken. */
  ghost predicate InTime(r: Records, actions: seq<Action>) {
    actions != [] ==>
      var front := actions[..|actions| - 1];
      InTime(r, front) && !Overtaken(Run(r, front), actions[|actions| - 1])
  }

  lemma {:induction false} RunGrounded(r: Records, actions: seq<Action>)
    requires Grounded(r)
    ensures Grounded(Run(r, actions))
  {
    if actions != [] {
      RunGrounded(r, actions[..|actions| - 1]);
      NextGrounded(Run(r, actions[..|actions| - 1]), actions[|actions| - 1]);
    }
  }

  /** Over any run, applications stay settled throughout exactly when no second transaction is overtaken. */
  lemma {:induction false} SettledRunIff(r: Records, actions: seq<Action>)
    requires Grounded(r) && Settled(r)
    ensures SettledThroughout(r, actions) <==> InTime(r, actions)
    ensures InTime(r, actions) ==> Settled(Run(r, actions))
  {
    if actions != [] {
      var front := actions[..|actions| - 1];
      SettledRunIff(r, front);
      RunGrounded(r, front);
      if InTime(r, front) {
        SettledStepIff(Run(r, front), actions[|actions| - 1]);
      }
    }
  }

  function ApprovedFor(key: Key): Application -> int {
    (a: Application) => if a.key == key && a.status == Approved then a.numberOfDays else 0
  }

  /** From an empty database: once every handler has finished, a balance counts exactly its approved days, if none was overtaken. */
  lemma UsageIsApprovedDays(r: Records, actions: seq<Action>, key: Key)
    requires Initial(r) && InTime(r, actions)
    requires forall k :: 0 <= k < |Run(r, actions).todos| ==> Run(r, actions).todos[k].Finished?
    ensures Used(Run(r, actions), key) == Sum(ApprovedFor(key), Run(r, actions).apps)
  {
    var s := Run(r, actions);
    SettledRunIff(r, actions);
    UsageIsAppliedDays(r, actions, key);
    forall i | 0 <= i < |s.apps|
      ensures CountedFor(key)(s.apps[i]) == ApprovedFor(key)(s.apps[i])
    {
      assert Agrees(s.apps[i]);
    }
    SumEqual(CountedFor(key), s.apps, ApprovedFor(key), s.apps);
  }

  /** One day of leave is applied for and approved by the workflow. */
  function OneDay(allocation: int, key: Key, start: int): seq<Action> {
    [SaveType(key.leaveType, allocation), Apply(key, true, start, start), Decide(0, true)]
  }

  /** Its approval is overtaken by its cancellation: the days are given back before they are counted. */
  function OvertakenApproval(): seq<Action> {
    [MarkApproved(0), CancelWrite(0, true), RunTodo(1), RunTodo(0)]
  }

  /** Its cancellation is overtaken by a second delivery of the approval. */
  function OvertakenCancellation(): seq<Action> {
    [MarkApproved(0), RunTodo(0), CancelWrite(0, true), MarkApproved(0), RunTodo(2), RunTodo(1)]
  }

  lemma {:induction false} RunAppend(r: Records, x: seq<Action>, y: seq<Action>)
    ensures Run(r, x + y) == Run(Run(r, x), y)
  {
    if y == [] {
      assert x + y == x;
    } else {
      RunAppend(r, x, y[..|y| - 1]);
      assert (x + y)[..|x + y| - 1] == x + y[..|y| - 1];
    }
  }

  lemma Run1(r: Records, a: Action)
    ensures Run(r, [a]) == Next(r, a)
  {
    assert [a][..0] == [];
  }

  lemma Run2(r: Records, a: Action, b: Action)
    ensures Run(r, [a, b]) == Next(Next(r, a), b)
  {
    hide Next;
    assert [a, b][..1] == [a];
    Run1(r, a);
  }

  lemma OneDayApproved(r: Records, allocation: int, key: Key, start: int)
    requires Initial(r)
    ensures var s := Run(r, OneDay(allocation, key, start));
            && s.todos == [] && |s.apps| == 1
            && s.apps[0].key == key && s.apps[0].numberOfDays == 1 && s.apps[0].status == PendingReview
            && !s.apps[0].balanceApplied && s.apps[0].decision == Some(true)
  {
    NumberOfDaysInclusive(start, 0);
    assert start + 0 * MS_PER_DAY == start;
    RunAppend(r, [SaveType(key.leaveType, allocation)], [Apply(key, true, start, start), Decide(0, true)]);
    assert OneDay(allocation, key, start) == [SaveType(key.leaveType, allocation)] + [Apply(key, true, start, start), Decide(0, true)];
    Run1(r, SaveType(key.leaveType, allocation));
    var t := Next(r, SaveType(key.leaveType, allocation));
    Run2(t, Apply(key, true, start, start), Decide(0, true));
    assert CheckApply(t, key, true, start, start).None?;
    var u := Next(t, Apply(key, true, start, start));
    assert u.todos == [] && u.apps == [NewApplication(key, 1, Created(t, key).balances[key])];
    assert Next(u, Decide(0, true)).apps == [u.apps[0].(decision := Some(true))];
  }

  lemma ApprovalOvertaken(s: Records)
    requires s.todos == [] && |s.apps| == 1 && s.apps[0].decision == Some(true) && !s.apps[0].balanceApplied
    ensures var t := Run(s, OvertakenApproval());
            && t.todos == [Finished, Finished]
            && t.apps == [s.apps[0].(status := Cancelled, balanceApplied := true)]
  {
    RunAppend(s, [MarkApproved(0), CancelWrite(0, true)], [RunTodo(1), RunTodo(0)]);
    assert OvertakenApproval() == [MarkApproved(0), CancelWrite(0, true)] + [RunTodo(1), RunTodo(0)];
    Run2(s, MarkApproved(0), CancelWrite(0, true));
    Run2(Next(Next(s, MarkApproved(0)), CancelWrite(0, true)), RunTodo(1), RunTodo(0));
  }

  lemma CancellationOvertaken(s: Records)
    requires s.todos == [] && |s.apps| == 1 && s.apps[0].decision == Some(true) && !s.apps[0].balanceApplied
    ensures var t := Run(s, OvertakenCancellation());
            && t.todos == [Finished, Finished, Finished]
            && t.apps == [s.apps[0].(status := Approved, balanceApplied := false)]
  {
    hide AddDays;
    var first, second, third := [MarkApproved(0), RunTodo(0)], [CancelWrite(0, true), MarkApproved(0)], [RunTodo(2), RunTodo(1)];
    assert OvertakenCancellation() == first + second + third;
    RunAppend(s, first + second, third);
    RunAppend(s, first, second);
    var t := CountedApproval(s);
    var u := Reapproved(t);
    Run2(u, RunTodo(2), RunTodo(1));
    var v := Next(u, RunTodo(2));
    assert v.todos == [Finished, ToReverse(0), Finished] && v.apps == u.apps;
  }

  lemma CountedApproval(s: Records) returns (t: Records)
    requires s.todos == [] && |s.apps| == 1 && s.apps[0].decision == Some(true) && !s.apps[0].balanceApplied
    ensures t == Run(s, [MarkApproved(0), RunTodo(0)])
    ensures t.todos == [Finished] && t.apps == [s.apps[0].(status := Approved, balanceApplied := true)]
  {
    hide AddDays;
    Run2(s, MarkApproved(0), RunTodo(0));
    var u := Next(s, MarkApproved(0));
    assert u.todos == [ToApply(0)] && u.apps == [s.apps[0].(status := Approved)];
    t := Next(u, RunTodo(0));
  }

  lemma Reapproved(t: Records) returns (u: Records)
    requires t.todos == [Finished] && |t.apps| == 1 && t.apps[0].decision == Some(true) && t.apps[0].status == Approved
    ensures u == Run(t, [CancelWrite(0, true), MarkApproved(0)])
    ensures u.todos == [Finished, ToReverse(0), ToApply(0)] && u.apps == t.apps
  {
    hide AddDays;
    Run2(t, CancelWrite(0, true), MarkApproved(0));
    var v := Next(t, CancelWrite(0, true));
    assert v.todos == [Finished, ToReverse(0)] && v.apps == [t.apps[0].(status := Cancelled)];
    u := Next(v, MarkApproved(0));
  }

  lemma OneCounted(r: Records, actions: seq<Action>, key: Key)
    requires Initial(r) && |Run(r, actions).apps| == 1 && Run(r, actions).apps[0].key == key
    ensures Used(Run(r, actions), key) == if Run(r, actions).apps[0].balanceApplied then Run(r, actions).apps[0].numberOfDays else 0
  {
    UsageIsAppliedDays(r, actions, key);
    SumOne(CountedFor(key), Run(r, actions).apps[0]);
    assert Run(r, actions).apps == [Run(r, actions).apps[0]];
  }

  /**
   * Both ways of being overtaken happen from an empty database, for every leave type, allocation and day, with
   * every handler finished in the end: a cancelled application with its day still counted, and an approved one
   * without it.
   */
  lemma OvertakenRunsDisagree(r: Records, allocation: int, key: Key, start: int)
    requires Initial(r)
    ensures var s := Run(r, OneDay(allocation, key, start) + OvertakenApproval());
            |s.apps| == 1 && s.apps[0].status == Cancelled && Used(s, key) == 1 && !Pending(s, 0) && !Settled(s)
    ensures var s := Run(r, OneDay(allocation, key, start) + OvertakenCancellation());
            |s.apps| == 1 && s.apps[0].status == Approved && Used(s, key) == 0 && !Pending(s, 0) && !Settled(s)
  {
    var day := OneDay(allocation, key, start);
    OneDayApproved(r, allocation, key, start);
    RunAppend(r, day, OvertakenApproval());
    ApprovalOvertaken(Run(r, day));
    OneCounted(r, day + OvertakenApproval(), key);
    RunAppend(r, day, OvertakenCancellation());
    CancellationOvertaken(Run(r, day));
    OneCounted(r, day + OvertakenCancellation(), key);
  }

  /** A whole handler with nothing in between: the status write and then its own second transaction. */
  function Atomically(r: Records, a: Action): Records {
    var s := Next(r, a);
    if |s.todos| > |r.todos| then Next(s, RunTodo(|r.todos|)) else s
  }

  function RunAtomically(r: Records, actions: seq<Action>): Records {
    if actions == [] then r else Atomically(RunAtomically(r, actions[..|actions| - 1]), actions[|actions| - 1])
  }

  /** Nothing left over, every flag agrees, and a rejected request never was approved. */
  ghost predicate AllAgree(r: Records) {
    && (forall k :: 0 <= k < |r.todos| ==> r.todos[k].Finished?)
    && (forall i :: 0 <= i < |r.apps| ==> Agrees(r.apps[i]))
    && (forall i :: 0 <= i < |r.apps| && r.apps[i].status == Approved ==> r.apps[i].decision == Some(true))
  }

  lemma AtomicApprovalAgrees(r: Records, i: nat)
    requires AllAgree(r) && i < |r.apps| && r.apps[i].decision == Some(true)
    ensures AllAgree(Atomically(r, MarkApproved(i)))
  {
    var s := Next(r, MarkApproved(i));
    assert s.todos == r.todos + [ToApply(i)];
    assert Atomically(r, MarkApproved(i)) == RanTodo(s, |r.todos|);
  }

  lemma AtomicCancellationAgrees(r: Records, i: nat, sawApproved: bool)
    requires AllAgree(r) && i < |r.apps|
    ensures AllAgree(Atomically(r, CancelWrite(i, sawApproved)))
  {
    var s := Next(r, CancelWrite(i, sawApproved));
    if |s.todos| > |r.todos| {
      assert s.todos == r.todos + [ToReverse(i)];
      assert Atomically(r, CancelWrite(i, sawApproved)) == RanTodo(s, |r.todos|);
    }
  }

  lemma AtomicStepAgrees(r: Records, a: Action)
    requires AllAgree(r)
    ensures AllAgree(Atomically(r, a))
  {
    if a.MarkApproved? && a.app < |r.apps| && r.apps[a.app].decision == Some(true) {
      AtomicApprovalAgrees(r, a.app);
    } else if a.CancelWrite? && a.app < |r.apps| {
      AtomicCancellationAgrees(r, a.app, a.sawApproved);
    } else if a.RunTodo? {
      assert a.todo < |r.todos| ==> Next(r, a) == r;
    } else {
      assert Next(r, a).todos == r.todos;
    }
  }

  /** If handlers never overlap, an application is approved exactly when its days are counted. */
  lemma {:induction false} AtomicHandlersAgree(r: Records, actions: seq<Action>)
    requires Initial(r)
    ensures AllAgree(RunAtomically(r, actions))
  {
    if actions != [] {
      AtomicHandlersAgree(r, actions[..|actions| - 1]);
      AtomicStepAgrees(RunAtomically(r, actions[..|actions| - 1]), actions[|actions| - 1]);
    }
  }

  // ---------------------------------------------------------------- the services over their collections

  class LeaveStore {
    var types: map<LeaveTypeId, int>
    var balances: map<Key, Balance>
    var apps: seq<Application>
    var todos: seq<Todo>

    function State(): Records
      reads this
    {
      Records(types, balances, apps, todos)
    }

    constructor (types: map<LeaveTypeId, int>)
      ensures State() == Records(types, map[], [], [])
    {
      this.types, balances, apps, todos := types, map[], [], [];
    }

    method GetOrCreateBalance(key: Key) returns (balance: Option<Balance>)
      modifies this`balances
      ensures State() == Next(old(State()), ReadBalance(key))
      ensures balance.Some? <==> key in balances
      ensures balance.Some? ==> balance.value == balances[key]
      ensures balances == if key !in old(balances) && key.leaveType in types
                          then old(balances)[key := Balance(types[key.leaveType], 0)] else old(balances)
    {
      if key in balances {
        return Some(balances[key]);
      }
      if key.leaveType !in types {
        return None;
      }
      balances := balances[key := Balance(types[key.leaveType], 0)];
      return Some(balances[key]);
    }

    /** A shortfall never blocks the application; it is only flagged, with its exact size. */
    method ApplyForLeave(key: Key, active: bool, start: int, end: int) returns (r: Result<nat, LeaveError>)
      modifies this
      ensures State() == Next(old(State()), Apply(key, active, start, end))
      ensures r == match CheckApply(old(State()), key, active, start, end) case Some(e) => Err(e) case None => Ok(|old(apps)|)
      ensures r.Ok? <==> active && NumberOfDays(start, end).Some? && (key in old(balances) || key.leaveType in types)
      ensures r.Ok? ==> |apps| == |old(apps)| + 1 && apps[..|old(apps)|] == old(apps) && AppliedFor(apps[r.value], key, start, end)
      ensures r.Ok? ==> key in balances && forall d :: apps[r.value].shortfallDays == Some(d) <==>
                d > 0 && d == apps[r.value].numberOfDays - (balances[key].allocatedDays - balances[key].usedDays)
    {
      if !active {
        return Err(NotActive);
      }
      var numberOfDays := NumberOfDays(start, end);
      if numberOfDays.None? {
        return Err(EndBeforeStart);
      }
      var balance := GetOrCreateBalance(key);
      if balance.None? {
        return Err(TypeNotFound);
      }
      var remainingDays := balance.value.allocatedDays - balance.value.usedDays;
      var shortfallDays := numberOfDays.value - remainingDays;
      apps := apps + [Application(key, numberOfDays.value, PendingReview, false,
                                  if shortfallDays > 0 then Some(shortfallDays) else None, None)];
      return Ok(|apps| - 1);
    }

    /** One transaction: flag and counter move together or not at all. */
    method CountUsage(i: nat) returns (applied: bool)
      modifies this`balances, this`apps
      ensures State() == ApplyUsage(old(State()), i)
      ensures applied <==> i < |old(apps)| && !old(apps)[i].balanceApplied
      ensures apps == if applied then old(apps)[i := old(apps)[i].(balanceApplied := true)] else old(apps)
      ensures applied && old(apps)[i].key in old(balances) ==>
                var key := old(apps)[i].key;
                balances == old(balances)[key := Balance(old(balances)[key].allocatedDays,
                                                         old(balances)[key].usedDays + old(apps)[i].numberOfDays)]
    {
      if i >= |apps| || apps[i].balanceApplied {
        return false;
      }
      var app := apps[i];
      apps := apps[i := app.(balanceApplied := true)];
      if app.key in balances {
        balances := balances[app.key := balances[app.key].(usedDays := balances[app.key].usedDays + app.numberOfDays)];
      }
      return true;
    }

    method UncountUsage(i: nat) returns (reversed: bool)
      modifies this`balances, this`apps
      ensures State() == ReverseUsage(old(State()), i)
      ensures reversed <==> i < |old(apps)| && old(apps)[i].balanceApplied
      ensures apps == if reversed then old(apps)[i := old(apps)[i].(balanceApplied := false)] else old(apps)
      ensures reversed && old(apps)[i].key in old(balances) ==>
                var key := old(apps)[i].key;
                balances == old(balances)[key := Balance(old(balances)[key].allocatedDays,
                                                         old(balances)[key].usedDays - old(apps)[i].numberOfDays)]
    {
      if i >= |apps| || !apps[i].balanceApplied {
        return false;
      }
      var app := apps[i];
      apps := apps[i := app.(balanceApplied := false)];
      if app.key in balances {
        balances := balances[app.key := balances[app.key].(usedDays := balances[app.key].usedDays - app.numberOfDays)];
      }
      return true;
    }

    /** Steps of other callers; the second transaction `own`, if any, stays to be done by its own handler. */
    method Interfere(own: Option<nat>)
      requires Exact(State()) && (own.Some? ==> own.value < |todos|)
      modifies this
      ensures Exact(State()) && |apps| >= |old(apps)|
      ensures own.Some? ==> own.value < |todos| && todos[own.value] == old(todos)[own.value]
    {
      var steps: nat := *;
      while steps > 0
        invariant Exact(State()) && |apps| >= |old(apps)|
        invariant own.Some? ==> own.value < |todos| && todos[own.value] == old(todos)[own.value]
      {
        var action: Action := *;
        if own.None? || action != RunTodo(own.value) {
          NextExact(State(), action);
          NextOnlyAdds(State(), action, own);
          var after := Next(State(), action);
          types, balances, apps, todos := after.types, after.balances, after.apps, after.todos;
        }
        steps := steps - 1;
      }
    }

    lemma NextOnlyAdds(r: Records, a: Action, own: Option<nat>)
      requires own.Some? ==> own.value < |r.todos| && a != RunTodo(own.value)
      ensures |Next(r, a).apps| >= |r.apps|
      ensures own.Some? ==> own.value < |Next(r, a).todos| && Next(r, a).todos[own.value] == r.todos[own.value]
    {
    }

    /** Marks the application approved, and then, whatever has happened meanwhile (`mid`), counts its days. */
    method HandleWorkflowApproved(i: nat) returns (ghost mid: Records)
      requires Exact(State()) && i < |apps| && apps[i].decision == Some(true)
      modifies this
      ensures Exact(State()) && Exact(mid)
      ensures i < |mid.apps| && State() == Next(mid, RunTodo(|old(todos)|))
      ensures apps == ApplyUsage(mid, i).apps && apps[i].balanceApplied
    {
      NextExact(State(), MarkApproved(i));
      var k := |todos|;
      apps := apps[i := apps[i].(status := Approved)];
      todos := todos + [ToApply(i)];
      Interfere(Some(k));
      mid := State();
      NextExact(mid, RunTodo(k));
      todos := todos[k := Finished];
      var applied := CountUsage(i);
    }

    /** A rejection changes the status and counts nothing. */
    method HandleWorkflowRejected(i: nat)
      requires i < |apps| && apps[i].decision == Some(false)
      modifies this`apps
      ensures State() == Next(old(State()), MarkRejected(i))
      ensures apps == old(apps)[i := old(apps)[i].(status := Rejected)]
      ensures forall key :: Counted(State(), key) == old(Counted(State(), key))
    {
      forall key: Key
        ensures Sum(CountedFor(key), apps[i := apps[i].(status := Rejected)]) == Counted(State(), key)
      {
        StatusStep(State(), i, apps[i].(status := Rejected), key);
      }
      apps := apps[i := apps[i].(status := Rejected)];
    }

    /** `before` is the state the guarded status write met, `late` the one the reversal of the days met. */
    method CancelApplication(i: nat, isApplicant: bool, mayCancelApproved: bool)
      returns (error: Option<LeaveError>, ghost before: Records, ghost late: Records)
      requires Exact(State())
      modifies this
      ensures Exact(State())
      ensures error.None? ==> i < |old(apps)| && i < |before.apps|
      ensures error.None? && Undecided(old(apps)[i].status) ==>
                Undecided(before.apps[i].status) && State() == Next(before, CancelWrite(i, false)) && apps[i].status == Cancelled
      ensures error.None? && !Undecided(old(apps)[i].status) ==>
                && before.apps[i].status == Approved
                && i < |late.apps| && State() == Next(late, RunTodo(|before.todos|)) && !apps[i].balanceApplied
      ensures error == Some(ConcurrentlyModified) ==> State() == before
      ensures i < |old(apps)| && old(apps)[i].status == Approved && !mayCancelApproved ==> error == Some(NotAllowed)
      ensures i < |old(apps)| && Undecided(old(apps)[i].status) && !isApplicant && !mayCancelApproved ==>
                error == Some(NotAllowed)
      ensures error.Some? && error != Some(ConcurrentlyModified) ==> State() == old(State())
      ensures error == Some(ApplicationNotFound) <==> i >= |old(apps)|
      ensures i < |old(apps)| ==>
                var seen := old(apps)[i].status;
                && (error == Some(CannotCancel(seen)) <==> seen == Rejected || seen == Cancelled)
                && (error == Some(NotAllowed) <==>
                      || (seen == Approved && !mayCancelApproved)
                      || ((seen == PendingReview || seen == PendingApproval) && !isApplicant && !mayCancelApproved))
      ensures error == Some(ConcurrentlyModified) ==>
                && i < |old(apps)| && i < |before.apps|
                && (if old(apps)[i].status == Approved then before.apps[i].status != Approved
                    else before.apps[i].status != PendingReview && before.apps[i].status != PendingApproval)
      ensures error.Some? ==>
                error.value in {ApplicationNotFound, NotAllowed, ConcurrentlyModified, CannotCancel(Rejected), CannotCancel(Cancelled)}
    {
      before, late := State(), State();
      if i >= |apps| {
        return Some(ApplicationNotFound), before, late;
      }
      var status := apps[i].status;
      var sawApproved := status == Approved;
      if Undecided(status) {
        if !isApplicant && !mayCancelApproved {
          return Some(NotAllowed), before, late;
        }
      } else if sawApproved {
        if !mayCancelApproved {
          return Some(NotAllowed), before, late;
        }
      } else {
        return Some(CannotCancel(status)), before, late;
      }
      Interfere(None);
      before := State();
      NextExact(before, CancelWrite(i, sawApproved));
      if if sawApproved then apps[i].status != Approved else !Undecided(apps[i].status) {
        return Some(ConcurrentlyModified), before, late;
      }
      apps := apps[i := apps[i].(status := Cancelled)];
      if sawApproved {
        todos := todos + [ToReverse(i)];
        var k := |todos| - 1;
        Interfere(Some(k));
        late := State();
        NextExact(late, RunTodo(k));
        todos := todos[k := Finished];
        var reversed := UncountUsage(i);
      }
      return None, before, late;
    }
  }
}
