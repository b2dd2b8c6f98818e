/** The accounting services over their stored collections, with other callers running in between. */
module LedgerService {
  import opened Common
  import opened JournalBalance
  import opened Ledger
  import PostingLines
  import TrialBalance

  datatype ServiceError = AccountNotFound(id: AccountId) | DuplicateCode(code: string) | DuplicateKey

  // ---------------------------------------------------------------- one call among others

  /** How a posting call got its entry, or why it did not. */
  datatype Ending = Existing | Created | LostRace | DatabaseFailed

  /** The database operations of call `k` once its lines are built. */
  function PostingSteps(ending: Ending, k: nat, now: int): seq<Action> {
    match ending
    case Existing => [Find(k)]
    case Created => [Find(k), Insert(k, now)]
    case LostRace => [Find(k), Insert(k, now), Refetch(k)]
    case DatabaseFailed => [Find(k), InsertFails(k)]
  }

  function Moving(k: nat): Action -> bool {
    (a: Action) => IsCallStep(a) && a.call == k
  }

  /** The steps of a run that move call `k` on. */
  function Steps(trace: seq<Action>, k: nat): seq<Action> {
    Filter(Moving(k), trace)
  }

  /** Every posting begun in the run is an allowed one. */
  ghost predicate Allows(allowed: Posting -> bool, trace: seq<Action>) {
    forall i :: 0 <= i < |trace| && trace[i].BeginPosting? ==> allowed(trace[i].posting)
  }

  /** `m` comes from `l` by the run `trace`, in which only allowed postings begin. */
  ghost predicate Happened(l: Books, m: Books, allowed: Posting -> bool, trace: seq<Action>) {
    m == Run(l, trace) && Sound(m) && Evolves(l, m) && Allows(allowed, trace)
  }

  lemma NothingHappened(l: Books, allowed: Posting -> bool)
    requires Sound(l)
    ensures Happened(l, l, allowed, [])
  {
  }

  lemma ThenStep(l: Books, m: Books, allowed: Posting -> bool, trace: seq<Action>, a: Action, k: nat)
    requires Sound(l) && Happened(l, m, allowed, trace) && (a.BeginPosting? ==> allowed(a.posting))
    ensures Happened(l, Next(m, a), allowed, trace + [a])
    ensures Steps(trace + [a], k) == Steps(trace, k) + if Moving(k)(a) then [a] else []
  {
    hide Next, Sound, Evolves;
    assert (trace + [a])[..|trace|] == trace;
    RunSound(l, trace + [a]);
  }

  lemma ThenRun(l: Books, m: Books, n: Books, allowed: Posting -> bool, trace: seq<Action>, more: seq<Action>, k: nat)
    requires Sound(l) && Happened(l, m, allowed, trace) && Happened(m, n, allowed, more)
    ensures Happened(l, n, allowed, trace + more)
    ensures Steps(trace + more, k) == Steps(trace, k) + Steps(more, k)
  {
    hide Next, Sound, Evolves;
    RunAppend(l, trace, more);
    RunSound(l, trace + more);
    FilterAppend(Moving(k), trace, more);
  }

  /** The posting of call `k` and where it stands. */
  predicate Stands(l: Books, k: nat, call: Call) {
    k < |l.calls| && l.calls[k] == call
  }

  lemma OthersLeaveIt(l: Books, a: Action, k: nat, call: Call)
    requires Stands(l, k, call) && !Moving(k)(a)
    ensures Stands(Next(l, a), k, call)
  {
  }

  /** What the caller of call `k` gets. */
  predicate IsOutcome(l: Books, k: nat, r: Result<Entry, PostingError>) {
    && k < |l.calls|
    && match l.calls[k].stage
       case Returned(e) => e < |l.entries| && r == Ok(l.entries[e])
       case Threw(error) => r == Err(error)
       case _ => false
  }

  /** The lines are checked before any database access. */
  function Checked(l: Books, k: nat, lines: seq<Line>): Books
    requires k < |l.calls|
  {
    SetStage(l, k, if Balanced(lines) then Finding(lines) else Threw(LinesRejected))
  }

  lemma CallNext(l: Books, k: nat, now: int)
    requires k < |l.calls|
    ensures l.calls[k].stage.Finding? ==> Next(l, Find(k)) == Found(l, k)
    ensures l.calls[k].stage.Inserting? ==> Next(l, Insert(k, now)) == Inserted(l, k, now)
    ensures l.calls[k].stage.Inserting? ==> Next(l, InsertFails(k)) == SetStage(l, k, Threw(OtherDatabaseError))
    ensures l.calls[k].stage.Refetching? ==> Next(l, Refetch(k)) == Refetched(l, k)
  {
  }

  /** The second lookup and the check of the lines it completes are one step. */
  lemma CheckedNext(l: Books, k: nat, debit: AccountId, credit: AccountId)
    requires k < |l.calls| && l.calls[k].stage == Resolving(Some(debit), None)
    requires CreditKey(l.calls[k].posting.kind) in l.mappings && credit == l.mappings[CreditKey(l.calls[k].posting.kind)]
    ensures Next(l, ResolveCredit(k)) == Checked(l, k, Transfer(debit, credit, l.calls[k].posting.amountKobo))
  {
  }

  /** The only failure is the database's own, and a created entry carries the posting and `lines`. */
  predicate Carries(ending: Ending, r: Result<Entry, PostingError>, p: Posting, lines: seq<Line>, now: int) {
    && (r.Err? <==> ending == DatabaseFailed)
    && (r.Err? ==> r.error == OtherDatabaseError)
    && (ending == Created ==> r == Ok(EntryFor(p, lines, now)))
  }

  /** A created entry names its source and moves the amount to `debit` from the account the call looked up for credits. */
  ghost predicate CreditsLookedUp(l: Books, trace: seq<Action>, k: nat, ending: Ending, r: Result<Entry, PostingError>,
                                  p: Posting, debit: AccountId, now: int) {
    && (r.Err? <==> ending == DatabaseFailed)
    && (r.Err? ==> r.error == OtherDatabaseError)
    && (ending == Created ==>
          && r.Ok? && PostingLines.Records(r.value, p, now)
          && exists credit ::
               PostingLines.LookedUp(l, trace, k, false, credit) && PostingLines.Moves(r.value.lines, debit, credit, p.amountKobo))
  }

  /**
   * The only failure is the database's own. A created entry names its source document, branch and date, and has
   * the amount as a debit on the account the call looked up for debits and as a credit on the one for credits.
   */
  ghost predicate MovesAmount(l: Books, trace: seq<Action>, k: nat, ending: Ending, r: Result<Entry, PostingError>,
                              p: Posting, now: int) {
    && (r.Err? <==> ending == DatabaseFailed)
    && (r.Err? ==> r.error == OtherDatabaseError)
    && (ending == Created ==>
          r.Ok? && PostingLines.Records(r.value, p, now) && PostingLines.LinesTraced(l, trace, k, p.amountKobo, r.value.lines))
  }

  lemma CreditLookedUp(l: Books, k: nat, more: seq<Action>, ending: Ending, r: Result<Entry, PostingError>, p: Posting,
                       debit: AccountId, now: int)
    requires k < |l.calls| && l.calls[k].stage.Resolving? && l.calls[k].posting == p && CreditKey(p.kind) in l.mappings
    requires Carries(ending, r, p, Transfer(debit, l.mappings[CreditKey(p.kind)], p.amountKobo), now)
    ensures CreditsLookedUp(l, [] + [ResolveCredit(k)] + more, k, ending, r, p, debit, now)
  {
    var credit := l.mappings[CreditKey(p.kind)];
    PostingLines.TransferMoves(debit, credit, p.amountKobo);
    PostingLines.EntryRecords(p, Transfer(debit, credit, p.amountKobo), now);
    assert Run(l, []) == l;
    PostingLines.LookupEnds(l, [], k, false);
    PostingLines.LookupKept(l, [] + [ResolveCredit(k)], more, k, false, credit);
  }

  lemma DebitLookedUp(l: Books, k: nat, others: seq<Action>, rest: seq<Action>, ending: Ending, r: Result<Entry, PostingError>,
                      p: Posting, now: int)
    requires k < |l.calls| && l.calls[k].stage.Resolving? && l.calls[k].posting == p && DebitKey(p.kind) in l.mappings
    requires CreditsLookedUp(Run(l, [] + [ResolveDebit(k)] + others), rest, k, ending, r, p, l.mappings[DebitKey(p.kind)], now)
    ensures MovesAmount(l, [] + [ResolveDebit(k)] + others + rest, k, ending, r, p, now)
  {
    hide PostingLines.Moves, PostingLines.Records, Next;
    var debit, front := l.mappings[DebitKey(p.kind)], [] + [ResolveDebit(k)] + others;
    assert Run(l, []) == l;
    PostingLines.LookupEnds(l, [], k, true);
    PostingLines.LookupKept(l, [] + [ResolveDebit(k)], others, k, true, debit);
    PostingLines.LookupKept(l, front, rest, k, true, debit);
    if ending == Created {
      var credit :| PostingLines.LookedUp(Run(l, front), rest, k, false, credit) &&
                    PostingLines.Moves(r.value.lines, debit, credit, p.amountKobo);
      PostingLines.LookupLater(l, front, rest, k, false, credit);
    }
  }

  lemma MovesLater(l: Books, front: seq<Action>, more: seq<Action>, k: nat, ending: Ending, r: Result<Entry, PostingError>,
                   p: Posting, now: int)
    requires MovesAmount(Run(l, front), more, k, ending, r, p, now)
    ensures MovesAmount(l, front + more, k, ending, r, p, now)
  {
    hide PostingLines.LinesTraced, PostingLines.Records, Run;
    if ending == Created {
      PostingLines.LinesLater(l, front, more, k, p.amountKobo, r.value.lines);
    }
  }

  /** The entry a caller gets is the one entry of its reference. */
  lemma OutcomeUnique(l: Books, k: nat, r: Result<Entry, PostingError>, ref: string)
    requires Sound(l) && IsOutcome(l, k, r) && r.Ok? && RefOf(l.calls[k].posting) == ref
    ensures r.value in l.entries && r.value.sourceRef == ref
    ensures forall e :: e in l.entries && e.sourceRef == ref ==> e == r.value
  {
    assert StageSound(l, l.calls[k]);
    OneEntry(l.entries, l.calls[k].stage.entry, ref);
  }

  class LedgerStore {
    var accounts: seq<Account>
    var mappings: map<MappingKey, AccountId>
    var entries: seq<Entry>
    var calls: seq<Call>
    var proposals: seq<Proposal>

    function State(): Books
      reads this
    {
      Books(accounts, mappings, entries, calls, proposals)
    }

    /** An empty database with the module booted on it. */
    constructor ()
      ensures Reachable(State()) && Sound(State())
      ensures entries == [] && calls == [] && proposals == []
    {
      accounts, mappings, entries, calls, proposals := [], map[], [], [], [];
      new;
      ghost var empty := State();
      OnModuleInit();
      assert State() == Run(Booted(empty), []);
      ReachableSound(State());
    }

    /** Inserts each default account whose code is missing, then each default mapping whose key is missing. */
    method OnModuleInit()
      modifies this
      ensures State() == Booted(old(State()))
    {
      SeedMissing(DefaultAccounts(), AllKeys());
    }

    method SeedMissing(seeds: seq<AccountSeed>, keys: seq<MappingKey>)
      modifies this
      ensures State() == Seeded(old(State()), seeds, keys)
    {
      SeedMissingAccounts(seeds);
      SeedMissingMappings(keys);
    }

    method SeedMissingAccounts(seeds: seq<AccountSeed>)
      modifies this`accounts
      ensures accounts == SeedAccounts(old(accounts), seeds)
    {
      for i := 0 to |seeds|
        invariant accounts == SeedAccounts(old(accounts), seeds[..i])
      {
        var seed := seeds[i];
        assert seeds[..i + 1][..i] == seeds[..i];
        if FindCode(accounts, seed.code).None? {
          accounts := accounts + [Account(|accounts|, seed.code, seed.name, seed.kind, None, true)];
        }
      }
      assert seeds[..|seeds|] == seeds;
    }

    method SeedMissingMappings(keys: seq<MappingKey>)
      modifies this`mappings
      ensures mappings == SeedMappings(old(mappings), accounts, keys)
    {
      for i := 0 to |keys|
        invariant mappings == SeedMappings(old(mappings), accounts, keys[..i])
      {
        assert keys[..i + 1][..i] == keys[..i];
        mappings := SeedMapping(mappings, accounts, keys[i]);
      }
      assert keys[..|keys|] == keys;
    }

    method CreateAccount(code: string, name: string, kind: AccountType, parent: Option<AccountId>)
      returns (r: Result<Account, ServiceError>)
      modifies this
      ensures State() == Next(old(State()), Action.CreateAccount(code, name, kind, parent))
      ensures r.Ok? <==> State() != old(State())
      ensures r.Ok? <==> (parent.Some? ==> parent.value < |old(accounts)|) &&
                         forall i :: 0 <= i < |old(accounts)| ==> old(accounts)[i].code != code
      ensures r.Ok? ==> accounts == old(accounts) + [r.value] && r.value == Account(|old(accounts)|, code, name, kind, parent, true)
    {
      if parent.Some? && parent.value >= |accounts| {
        return Err(AccountNotFound(parent.value));
      }
      if FindCode(accounts, code).Some? {
        return Err(DuplicateCode(code));
      }
      var account := Account(|accounts|, code, name, kind, parent, true);
      accounts := accounts + [account];
      return Ok(account);
    }

    /** Name, parent and activity only: the code and the type of an account are for good. */
    method UpdateAccount(id: AccountId, newName: Option<string>, newParent: Option<Option<AccountId>>, newActive: Option<bool>)
      returns (r: Result<Account, ServiceError>)
      modifies this
      ensures State() == Next(old(State()), Action.UpdateAccount(id, newName, newParent, newActive))
      ensures r.Ok? <==> id < |old(accounts)| && (newParent.Some? && newParent.value.Some? ==> newParent.value.value < |old(accounts)|)
      ensures r.Ok? ==> accounts == old(accounts)[id := r.value]
      ensures r.Ok? ==>
                var account := old(accounts)[id];
                && r.value.id == account.id && r.value.code == account.code && r.value.kind == account.kind
                && (if newName.Some? then Some(r.value.name) == newName else r.value.name == account.name)
                && (if newParent.Some? then Some(r.value.parent) == newParent else r.value.parent == account.parent)
                && (if newActive.Some? then Some(r.value.active) == newActive else r.value.active == account.active)
      ensures r.Err? ==> State() == old(State())
    {
      if id >= |accounts| {
        return Err(AccountNotFound(id));
      }
      if newParent.Some? && newParent.value.Some? && newParent.value.value >= |accounts| {
        return Err(AccountNotFound(newParent.value.value));
      }
      var account := accounts[id];
      if newName.Some? {
        account := account.(name := newName.value);
      }
      if newParent.Some? {
        account := account.(parent := newParent.value);
      }
      if newActive.Some? {
        account := account.(active := newActive.value);
      }
      accounts := accounts[id := account];
      return Ok(account);
    }

    method SetMapping(key: MappingKey, id: AccountId) returns (r: Result<AccountId, ServiceError>)
      modifies this
      ensures State() == Next(old(State()), Action.SetMapping(key, id))
      ensures r == if id < |old(accounts)| then Ok(id) else Err(AccountNotFound(id))
      ensures mappings == if id < |old(accounts)| then old(mappings)[key := id] else old(mappings)
    {
      if id >= |accounts| {
        return Err(AccountNotFound(id));
      }
      mappings := mappings[key := id];
      return Ok(id);
    }

    method Adopt(after: Books)
      modifies this
      ensures State() == after
    {
      accounts, mappings, entries, calls, proposals :=
        after.accounts, after.mappings, after.entries, after.calls, after.proposals;
    }

    method SetCall(k: nat, stage: Stage)
      requires k < |calls|
      modifies this`calls
      ensures State() == SetStage(old(State()), k, stage)
    {
      calls := calls[k := calls[k].(stage := stage)];
    }

    /** Any number of steps of other callers, in any order; call `k` stays where it is. */
    method Interfere(k: nat, allowed: Posting -> bool) returns (ghost trace: seq<Action>)
      requires Sound(State()) && k < |calls|
      modifies this
      ensures Happened(old(State()), State(), allowed, trace) && Steps(trace, k) == []
      ensures Stands(State(), k, old(calls)[k])
    {
      ghost var start, call := State(), calls[k];
      trace := [];
      var steps: nat := *;
      while steps > 0
        invariant Happened(start, State(), allowed, trace) && Steps(trace, k) == []
        invariant Stands(State(), k, call)
      {
        var action: Action := *;
        if !Moving(k)(action) && (action.BeginPosting? ==> allowed(action.posting)) {
          ghost var before := State();
          Adopt(Next(State(), action));
          ThenStep(start, before, allowed, trace, action, k);
          OthersLeaveIt(before, action, k, call);
          trace := trace + [action];
        }
        steps := steps - 1;
      }
    }

    /** The transaction and its duplicate-key branch. */
    method InsertOrRefetch(k: nat, now: int, allowed: Posting -> bool)
      returns (r: Result<Entry, PostingError>, ghost ending: Ending, ghost trace: seq<Action>)
      requires Sound(State()) && k < |calls| && calls[k].stage.Inserting?
      modifies this
      ensures Happened(old(State()), State(), allowed, trace) && IsOutcome(State(), k, r)
      ensures ending != Existing && [Find(k)] + Steps(trace, k) == PostingSteps(ending, k, now)
      ensures Carries(ending, r, old(calls)[k].posting, old(calls)[k].stage.lines, now)
    {
      hide Run, Allows, Evolves, Steps, Sound, Next;
      ghost var start := State();
      var p, lines := calls[k].posting, calls[k].stage.lines;
      trace := Interfere(k, allowed);
      ghost var before := State();
      CallNext(before, k, now);
      var databaseFails: bool := *;
      if databaseFails {
        ThenStep(start, before, allowed, trace, InsertFails(k), k);
        trace := trace + [InsertFails(k)];
        SetCall(k, Threw(OtherDatabaseError));
        return Err(OtherDatabaseError), DatabaseFailed, trace;
      }
      ThenStep(start, before, allowed, trace, Insert(k, now), k);
      trace := trace + [Insert(k, now)];
      if FindRef(entries, RefOf(p)).Some? {
        // duplicate key: a concurrent insert won
        SetCall(k, Refetching);
        ending := LostRace;
        ghost var more;
        r, more := RefetchWinner(k, allowed);
        ThenRun(start, Next(before, Insert(k, now)), State(), allowed, trace, more, k);
        trace := trace + more;
        return;
      }
      var createdEntry := EntryFor(p, lines, now);
      entries := entries + [createdEntry];
      SetCall(k, Returned(|entries| - 1));
      return Ok(createdEntry), Created, trace;
    }

    method RefetchWinner(k: nat, allowed: Posting -> bool) returns (r: Result<Entry, PostingError>, ghost trace: seq<Action>)
      requires Sound(State()) && k < |calls| && calls[k].stage.Refetching?
      modifies this
      ensures Happened(old(State()), State(), allowed, trace) && IsOutcome(State(), k, r)
      ensures r.Ok? && Steps(trace, k) == [Refetch(k)]
    {
      ghost var start := State();
      trace := Interfere(k, allowed);
      assert StageSound(State(), calls[k]);
      hide Run, Allows, Evolves, Steps, Sound, Next;
      CallNext(State(), k, 0);
      ThenStep(start, State(), allowed, trace, Refetch(k), k);
      trace := trace + [Refetch(k)];
      var winner := FindRef(entries, RefOf(calls[k].posting));
      if winner.None? {
        return Err(WinnerMissing), trace;
      }
      SetCall(k, Returned(winner.value));
      return Ok(entries[winner.value]), trace;
    }

    /** The lookup by reference. */
    method LookUp(k: nat) returns (existing: Option<Entry>)
      requires k < |calls| && calls[k].stage.Finding?
      modifies this`calls
      ensures State() == Found(old(State()), k)
      ensures existing.Some? ==> IsOutcome(State(), k, Ok(existing.value))
      ensures existing.None? ==> Stands(State(), k, old(calls)[k].(stage := Inserting(old(calls)[k].stage.lines)))
      ensures existing == match FindRef(entries, RefOf(old(calls)[k].posting))
                          case Some(e) => Some(entries[e])
                          case None => None
    {
      var found := FindRef(entries, RefOf(calls[k].posting));
      if found.Some? {
        SetCall(k, Returned(found.value));
        return Some(entries[found.value]);
      }
      SetCall(k, Inserting(calls[k].stage.lines));
      return None;
    }

    /** The lookup after any steps of other callers. */
    method FindExisting(k: nat, allowed: Posting -> bool) returns (existing: Option<Entry>, ghost trace: seq<Action>)
      requires Sound(State()) && k < |calls| && calls[k].stage.Finding?
      modifies this
      ensures Happened(old(State()), State(), allowed, trace) && Steps(trace, k) == [Find(k)]
      ensures existing.Some? ==> IsOutcome(State(), k, Ok(existing.value))
      ensures existing.None? ==> Stands(State(), k, old(calls)[k].(stage := Inserting(old(calls)[k].stage.lines)))
      ensures FindRef(old(entries), RefOf(old(calls)[k].posting)).Some? ==>
                existing == Some(old(entries)[FindRef(old(entries), RefOf(old(calls)[k].posting)).value])
    {
      ghost var start := State();
      trace := Interfere(k, allowed);
      FindRefKept(start.entries, entries, RefOf(calls[k].posting));
      hide Run, Allows, Steps, Next, Sound, Evolves, Found, IsOutcome;
      CallNext(State(), k, 0);
      ThenStep(start, State(), allowed, trace, Find(k), k);
      trace := trace + [Find(k)];
      existing := LookUp(k);
    }

    /** The lookup, and the insert when nothing is found. */
    method FindOrInsert(k: nat, now: int, allowed: Posting -> bool)
      returns (r: Result<Entry, PostingError>, ghost ending: Ending, ghost trace: seq<Action>)
      requires Sound(State()) && k < |calls| && calls[k].stage.Finding?
      modifies this
      ensures Happened(old(State()), State(), allowed, trace) && IsOutcome(State(), k, r)
      ensures Steps(trace, k) == PostingSteps(ending, k, now)
      ensures Carries(ending, r, old(calls)[k].posting, old(calls)[k].stage.lines, now)
      ensures FindRef(old(entries), RefOf(old(calls)[k].posting)).Some? ==>
                r == Ok(old(entries)[FindRef(old(entries), RefOf(old(calls)[k].posting)).value])
    {
      hide Run, Allows, Steps, Next, Evolves;
      ghost var start := State();
      var existing;
      existing, trace := FindExisting(k, allowed);
      if existing.Some? {
        return Ok(existing.value), Existing, trace;
      }
      ghost var found := State();
      ghost var more;
      r, ending, more := InsertOrRefetch(k, now, allowed);
      ThenRun(start, found, State(), allowed, trace, more, k);
      trace := trace + more;
    }

    /**
     * The idempotent core. Other callers run between its database operations. What happens is a run of the
     * state machine; the call gets the one entry of its reference, old or new, never fails because it lost a
     * race, and an entry it creates carries its posting and exactly these lines.
     */
    method PostIdempotent(k: nat, lines: seq<Line>, now: int, allowed: Posting -> bool)
      returns (r: Result<Entry, PostingError>, ghost ending: Ending, ghost trace: seq<Action>)
      requires Sound(State()) && k < |calls| && calls[k].stage.Resolving? && KnowsAccounts(lines, |accounts|)
      modifies this
      ensures State() == Run(Checked(old(State()), k, lines), trace)
      ensures r == Err(LinesRejected) <==> !Balanced(lines)
      ensures !Balanced(lines) ==> trace == []
      ensures Balanced(lines) ==>
                && Happened(Checked(old(State()), k, lines), State(), allowed, trace) && IsOutcome(State(), k, r)
                && Steps(trace, k) == PostingSteps(ending, k, now)
                && Carries(ending, r, old(calls)[k].posting, lines, now)
      ensures Balanced(lines) && FindRef(old(entries), RefOf(old(calls)[k].posting)).Some? ==>
                r == Ok(old(entries)[FindRef(old(entries), RefOf(old(calls)[k].posting)).value])
    {
      var error := AssertJournalLinesBalanced(lines);
      if error.Some? {
        SetCall(k, Threw(LinesRejected));
        return Err(LinesRejected), Existing, [];
      }
      ghost var resolved := State();
      SetCall(k, Finding(lines));
      CallStepSound(resolved, k, State());
      r, ending, trace := FindOrInsert(k, now, allowed);
    }

    method ResolveMappedAccountId(k: nat, key: MappingKey) returns (r: Result<AccountId, PostingError>)
      requires k < |calls|
      modifies this`calls
      ensures r == if key in mappings then Ok(mappings[key]) else Err(NoMapping(key))
      ensures State() == if r.Ok? then old(State()) else SetStage(old(State()), k, Threw(NoMapping(key)))
    {
      if key !in mappings {
        SetCall(k, Threw(NoMapping(key)));
        return Err(NoMapping(key));
      }
      return Ok(mappings[key]);
    }

    /** The second lookup, and the posting of the two lines it completes. */
    method CreditAndPost(k: nat, now: int, allowed: Posting -> bool)
      returns (r: Result<Entry, PostingError>, ghost ending: Ending, ghost trace: seq<Action>)
      requires Sound(State()) && k < |calls|
      requires calls[k].stage.Resolving? && calls[k].stage.debit.Some? && calls[k].stage.credit.None?
      modifies this
      ensures Happened(old(State()), State(), allowed, trace) && IsOutcome(State(), k, r)
      ensures Steps(trace, k) == [ResolveCredit(k)] + PostingSteps(ending, k, now)
      ensures CreditsLookedUp(old(State()), trace, k, ending, r, old(calls)[k].posting, old(calls)[k].stage.debit.value, now)
    {
      ghost var start := State();
      var p, debit := calls[k].posting, calls[k].stage.debit.value;
      assert StageSound(start, calls[k]);
      EveryKeyListed(CreditKey(p.kind));
      var credit := ResolveMappedAccountId(k, CreditKey(p.kind));
      if credit.Err? {
        return Err(NoMapping(CreditKey(p.kind))), DatabaseFailed, [];
      }
      TransferBalanced(debit, credit.value, p.amountKobo);
      NothingHappened(start, allowed);
      ThenStep(start, start, allowed, [], ResolveCredit(k), k);
      CheckedNext(start, k, debit, credit.value);
      hide Run, Allows, Evolves, Steps, Next;
      ghost var more;
      r, ending, more := PostIdempotent(k, Transfer(debit, credit.value, p.amountKobo), now, allowed);
      ThenRun(start, Next(start, ResolveCredit(k)), State(), allowed, [] + [ResolveCredit(k)], more, k);
      trace := [ResolveCredit(k)] + more;
      assert trace == [] + [ResolveCredit(k)] + more;
      CreditLookedUp(start, k, more, ending, r, p, debit, now);
    }

    /** The call after its start: both lookups, then the posting. */
    method ResolveAndPost(k: nat, now: int, allowed: Posting -> bool)
      returns (r: Result<Entry, PostingError>, ghost ending: Ending, ghost trace: seq<Action>)
      requires Sound(State()) && k < |calls| && calls[k].stage == Resolving(None, None)
      modifies this
      ensures Happened(old(State()), State(), allowed, trace) && IsOutcome(State(), k, r)
      ensures Steps(trace, k) == [ResolveDebit(k), ResolveCredit(k)] + PostingSteps(ending, k, now)
      ensures MovesAmount(old(State()), trace, k, ending, r, old(calls)[k].posting, now)
    {
      ghost var start := State();
      var p := calls[k].posting;
      EveryKeyListed(DebitKey(p.kind));
      var debit := ResolveMappedAccountId(k, DebitKey(p.kind));
      if debit.Err? {
        return Err(NoMapping(DebitKey(p.kind))), DatabaseFailed, [];
      }
      SetCall(k, Resolving(Some(debit.value), None));
      NothingHappened(start, allowed);
      ThenStep(start, start, allowed, [], ResolveDebit(k), k);
      ghost var others := Interfere(k, allowed);
      ThenRun(start, Next(start, ResolveDebit(k)), State(), allowed, [] + [ResolveDebit(k)], others, k);
      trace := [] + [ResolveDebit(k)] + others;
      ghost var before := State();
      ghost var more;
      r, ending, more := CreditAndPost(k, now, allowed);
      ThenRun(start, before, State(), allowed, trace, more, k);
      DebitLookedUp(start, k, others, more, ending, r, p, now);
      trace := trace + more;
    }

    /** Posts the amount between the two mapped accounts. */
    method Post(p: Posting, now: int, allowed: Posting -> bool)
      returns (r: Result<Entry, PostingError>, ghost ending: Ending, ghost trace: seq<Action>)
      requires Sound(State()) && allowed(p)
      modifies this
      ensures Happened(old(State()), State(), allowed, trace) && IsOutcome(State(), |old(calls)|, r)
      ensures trace != [] && trace[0] == BeginPosting(p)
      ensures var k := |old(calls)|;
              Steps(trace, k) == [ResolveDebit(k), ResolveCredit(k)] + PostingSteps(ending, k, now)
      ensures MovesAmount(old(State()), trace, |old(calls)|, ending, r, p, now)
      ensures r.Ok? ==> r.value in entries && r.value.sourceRef == RefOf(p)
      ensures r.Ok? ==> forall e :: e in entries && e.sourceRef == RefOf(p) ==> e == r.value
    {
      ghost var start := State();
      var k := |calls|;
      NothingHappened(start, allowed);
      ThenStep(start, start, allowed, [], BeginPosting(p), k);
      calls := calls + [Call(p, Resolving(None, None))];
      ghost var begun := State();
      ghost var more := Interfere(k, allowed);
      ThenRun(start, begun, State(), allowed, [] + [BeginPosting(p)], more, k);
      trace := [] + [BeginPosting(p)] + more;
      ghost var before := State();
      r, ending, more := ResolveAndPost(k, now, allowed);
      ThenRun(start, before, State(), allowed, trace, more, k);
      MovesLater(start, trace, more, k, ending, r, p, now);
      trace := trace + more;
      assert trace[0] == BeginPosting(p);
      if r.Ok? {
        assert RefOf(calls[k].posting) == RefOf(p);
        OutcomeUnique(State(), k, r, RefOf(p));
      }
    }

    /** Accepts a proposal exactly when its lines balance and every line names an existing account. */
    method ProposeEntry(p: Proposal) returns (accepted: bool)
      modifies this
      ensures State() == Next(old(State()), Propose(p))
      ensures accepted <==> Balanced(p.lines) && forall i :: 0 <= i < |p.lines| ==> p.lines[i].accountId < |accounts|
    {
      var error := AssertJournalLinesBalanced(p.lines);
      if error.Some? {
        return false;
      }
      for i := 0 to |p.lines|
        invariant forall j :: 0 <= j < i ==> p.lines[j].accountId < |accounts|
      {
        if p.lines[i].accountId >= |accounts| {
          return false;
        }
      }
      proposals := proposals + [p];
      return true;
    }

    method HandleWorkflowApproved(p: Proposal) returns (r: Result<Entry, ServiceError>)
      modifies this
      ensures State() == PostManual(old(State()), p)
      ensures r == if FindRef(old(entries), ManualRef(p.requestId)).Some? then Err(DuplicateKey) else Ok(ManualEntry(p))
      ensures r.Ok? ==> entries == old(entries) + [r.value] && PostingLines.ByHand(p, r.value)
    {
      if FindRef(entries, ManualRef(p.requestId)).Some? {
        return Err(DuplicateKey);
      }
      entries := entries + [ManualEntry(p)];
      return Ok(ManualEntry(p));
    }

    /** Any steps of other callers, for one who has no call in flight. */
    method OthersRun()
      requires Sound(State())
      modifies this
      ensures Sound(State()) && Evolves(old(State()), State()) && old(entries) <= entries
    {
      var steps: nat := *;
      while steps > 0
        invariant Sound(State()) && Evolves(old(State()), State())
      {
        var action: Action := *;
        ghost var before := State();
        NextSound(before, action);
        Adopt(Next(State(), action));
        EvolvesTransitive(old(State()), before, State());
        steps := steps - 1;
      }
    }

    /** The aggregation over one account's lines. */
    method SumLines(account: Account, filter: TrialBalance.Filter) returns (sums: TrialBalance.Totals)
      ensures sums.debit == TrialBalance.ReadSide(Debit(), filter)(TrialBalance.View(account, entries))
      ensures sums.credit == TrialBalance.ReadSide(Credit(), filter)(TrialBalance.View(account, entries))
      ensures RowOf(account, sums) == TrialBalance.RowFor(entries, account, filter)
    {
      sums := TrialBalance.SumLinesForAccount(entries, account.id, filter);
    }

    static function RowOf(account: Account, sums: TrialBalance.Totals): TrialBalance.Row {
      TrialBalance.Row(account.id, account.code, account.name, account.kind, TrialBalance.Signed(account.kind, sums))
    }

    /** The listed accounts one after the other, with other callers before each. */
    method ReadAccounts(listing: seq<Account>, filter: TrialBalance.Filter)
      returns (rows: seq<TrialBalance.Row>, totalDebitKobo: int, totalCreditKobo: int, ghost views: seq<TrialBalance.View>)
      requires Sound(State())
      modifies this
      ensures Sound(State()) && Evolves(old(State()), State())
      ensures TrialBalance.ViewsOf(views, listing, old(entries)) && SeenBy(views, entries)
      ensures RowsFrom(rows, views, filter)
      ensures totalDebitKobo == Sum(TrialBalance.ReadSide(Debit(), filter), views)
      ensures totalCreditKobo == Sum(TrialBalance.ReadSide(Credit(), filter), views)
    {
      hide Sound, Evolves, TrialBalance.RowFor, TrialBalance.ReadSide;
      ghost var start := State();
      StaysItself(start);
      rows, totalDebitKobo, totalCreditKobo, views := [], 0, 0, [];
      for i := 0 to |listing|
        invariant Sound(State()) && Evolves(start, State()) && start.entries <= entries
        invariant TrialBalance.ViewsOf(views, listing[..i], start.entries) && SeenBy(views, entries)
        invariant RowsFrom(rows, views, filter)
        invariant totalDebitKobo == Sum(TrialBalance.ReadSide(Debit(), filter), views)
        invariant totalCreditKobo == Sum(TrialBalance.ReadSide(Credit(), filter), views)
      {
        ghost var before := State();
        OthersRun();
        EvolvesTransitive(start, before, State());
        var account := listing[i];
        var sums := SumLines(account, filter);
        totalDebitKobo := totalDebitKobo + sums.debit;
        totalCreditKobo := totalCreditKobo + sums.credit;
        rows := rows + [RowOf(account, sums)];
        ghost var view := TrialBalance.View(account, entries);
        SumSnoc(TrialBalance.ReadSide(Debit(), filter), views, view);
        SumSnoc(TrialBalance.ReadSide(Credit(), filter), views, view);
        views := views + [view];
      }
      assert listing[..|listing|] == listing;
    }

    /**
     * The report: the accounts are listed once and then summed one after the other, with other callers in
     * between. Each row is its account's balance at its own read, and the totals differ by exactly the lines
     * of the entries added between the listing and the reads of their accounts.
     */
    method GetTrialBalance(filter: TrialBalance.Filter) returns (report: TrialBalance.Report, ghost views: seq<TrialBalance.View>)
      requires Sound(State())
      modifies this
      ensures Sound(State()) && Evolves(old(State()), State())
      ensures TrialBalance.ViewsOf(views, Sort(TrialBalance.ByCode(), old(accounts)), old(entries)) && SeenBy(views, entries)
      ensures RowsFrom(report.rows, views, filter) && |report.rows| == |old(accounts)|
      ensures report.totalDebitKobo == Sum(TrialBalance.ReadSide(Debit(), filter), views)
      ensures report.totalDebitKobo - report.totalCreditKobo == Sum(TrialBalance.LateNet(filter, |old(entries)|), views)
      ensures report.balanced <==> report.totalDebitKobo == report.totalCreditKobo
      ensures (forall i :: 0 <= i < |views| ==> views[i].entries == old(entries)) ==>
                report.balanced && report.totalDebitKobo == TrialBalance.LedgerTotal(Debit(), old(State()), filter)
    {
      hide Sound, Evolves, TrialBalance.RowFor, TrialBalance.ReadSide, TrialBalance.LateNet, TrialBalance.LedgerTotal;
      ghost var start := State();
      SortMultiset(TrialBalance.ByCode(), accounts);
      var rows, totalDebitKobo, totalCreditKobo;
      rows, totalDebitKobo, totalCreditKobo, views := ReadAccounts(Sort(TrialBalance.ByCode(), accounts), filter);
      TrialBalance.TornTotalsDiffer(start, filter, views);
      report := TrialBalance.Report(rows, totalDebitKobo, totalCreditKobo, totalDebitKobo == totalCreditKobo);
      if forall i :: 0 <= i < |views| ==> views[i].entries == start.entries {
        TrialBalance.QuietViews(start, filter, views);
      }
    }
  }

  /** Every read saw only entries that are still there. */
  ghost predicate SeenBy(views: seq<TrialBalance.View>, entries: seq<Entry>) {
    forall i :: 0 <= i < |views| ==> views[i].entries <= entries
  }

  /** Each row is its account's balance at its own read. */
  ghost predicate RowsFrom(rows: seq<TrialBalance.Row>, views: seq<TrialBalance.View>, filter: TrialBalance.Filter) {
    && |rows| == |views|
    && forall i :: 0 <= i < |rows| ==> rows[i] == TrialBalance.RowFor(views[i].entries, views[i].account, filter)
  }

  lemma StaysItself(l: Books)
    ensures Evolves(l, l)
  {
  }

  lemma OneEntry(entries: seq<Entry>, i: nat, ref: string)
    requires UniqueRefs(entries) && i < |entries| && entries[i].sourceRef == ref
    ensures forall e :: e in entries && e.sourceRef == ref ==> e == entries[i]
  {
  }

  /** An entry once found is the one found later. */
  lemma FindRefKept(entries: seq<Entry>, more: seq<Entry>, ref: string)
    requires entries <= more && UniqueRefs(more)
    ensures FindRef(entries, ref).Some? ==>
              FindRef(more, ref).Some? && more[FindRef(more, ref).value] == entries[FindRef(entries, ref).value]
  {
    if FindRef(entries, ref).Some? {
      FindRefStable(entries, more, ref);
      var i := FindRef(entries, ref).value;
      assert more[i] == entries[i];
      OneEntry(more, i, ref);
    }
  }
}
