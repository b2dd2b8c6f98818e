/**
 * The ledger as a state machine: the chart of accounts, the posting map, automated postings whose
 * find, insert and refetch steps interleave freely, and manual entries. An account's id is its
 * position in the accounts collection; accounts and entries are never removed.
 */
module Ledger {
  import opened Common
  import opened JournalBalance

  datatype AccountType = Asset | Liability | Equity | Income | Expense

  datatype Account = Account(
    id: AccountId, code: string, name: string, kind: AccountType, parent: Option<AccountId>, active: bool)

  datatype MappingKey =
    | DisbursementDebit | DisbursementCredit | RepaymentDebit | RepaymentCredit
    | FeeCollectionDebit | FeeCollectionCredit | PenaltyDebit | PenaltyCredit

  datatype SourceEvent = LoanDisbursement | FeeCollection | Repayment | Penalty | ManualAdjustment

  datatype Entry = Entry(
    source: SourceEvent, sourceEntityId: string, sourceRef: string, branchId: string, date: int,
    lines: seq<Line>, createdBy: Option<string>)

  datatype PostingKind = ForDisbursement | ForFee | ForRepayment | ForPenaltyCharge | ForLiquidationDelay

  datatype Posting = Posting(kind: PostingKind, entityId: string, branchId: string, amountKobo: int)

  datatype PostingError = NoMapping(key: MappingKey) | LinesRejected | WinnerMissing | OtherDatabaseError

  /** Where one call of a posting method stands. */
  datatype Stage =
    | Resolving(debit: Option<AccountId>, credit: Option<AccountId>)
    | Finding(lines: seq<Line>)
    | Inserting(lines: seq<Line>)
    | Refetching
    | Returned(entry: nat)
    | Threw(error: PostingError)

  datatype Call = Call(posting: Posting, stage: Stage)

  datatype Proposal = Proposal(requestId: string, branchId: string, date: int, lines: seq<Line>, initiatedBy: string)

  datatype Books = Books(
    accounts: seq<Account>, mappings: map<MappingKey, AccountId>, entries: seq<Entry>,
    calls: seq<Call>, proposals: seq<Proposal>)

  datatype Action =
    | Boot
    | CreateAccount(code: string, name: string, kind: AccountType, parent: Option<AccountId>)
    | UpdateAccount(id: AccountId, newName: Option<string>, newParent: Option<Option<AccountId>>, newActive: Option<bool>)
    | SetMapping(key: MappingKey, id: AccountId)
    | BeginPosting(posting: Posting)
    | ResolveDebit(call: nat)
    | ResolveCredit(call: nat)
    | Find(call: nat)
    | Insert(call: nat, now: int)
    | InsertFails(call: nat)
    | Refetch(call: nat)
    | Propose(proposal: Proposal)
    | ApproveProposal(index: nat)

  // ---------------------------------------------------------------- source references

  function DebitKey(kind: PostingKind): MappingKey {
    match kind
    case ForDisbursement => DisbursementDebit
    case ForFee => FeeCollectionDebit
    case ForRepayment => RepaymentDebit
    case ForPenaltyCharge | ForLiquidationDelay => PenaltyDebit
  }

  function CreditKey(kind: PostingKind): MappingKey {
    match kind
    case ForDisbursement => DisbursementCredit
    case ForFee => FeeCollectionCredit
    case ForRepayment => RepaymentCredit
    case ForPenaltyCharge | ForLiquidationDelay => PenaltyCredit
  }

  function EventOf(kind: PostingKind): SourceEvent {
    match kind
    case ForDisbursement => LoanDisbursement
    case ForFee => FeeCollection
    case ForRepayment => Repayment
    case ForPenaltyCharge | ForLiquidationDelay => Penalty
  }

  function Prefix(kind: PostingKind): string {
    match kind
    case ForDisbursement => "LOAN_DISBURSEMENT"
    case ForFee => "FEE_COLLECTION"
    case ForRepayment => "REPAYMENT"
    case ForPenaltyCharge => "PENALTY_CHARGE"
    case ForLiquidationDelay => "LIQUIDATION_DELAY_CHARGE"
  }

  function MakeRef(prefix: string, id: string): string {
    prefix + ":" + id
  }

  function RefOf(p: Posting): string {
    MakeRef(Prefix(p.kind), p.entityId)
  }

  function ManualRef(requestId: string): string {
    MakeRef("MANUAL", requestId)
  }

  /** `prefix:id` determines both halves when the prefix holds no colon. */
  lemma RefInjective(p: string, i: string, q: string, j: string)
    requires ':' !in p && ':' !in q
    requires MakeRef(p, i) == MakeRef(q, j)
    ensures p == q && i == j
  {
    var r, r' := MakeRef(p, i), MakeRef(q, j);
    assert r[|p|] == ':' && r'[|q|] == ':';
    assert forall k :: 0 <= k < |p| ==> r[k] == p[k];
    assert forall k :: 0 <= k < |q| ==> r'[k] == q[k];
    assert |p| == |q|;
    assert p == r[..|p|] && q == r'[..|q|];
    assert i == r[|p| + 1..] && j == r'[|q| + 1..];
  }

  /** Two postings share a reference only if they have one kind and one source document; none is manual. */
  lemma PostingRefsDistinct(a: Posting, b: Posting, requestId: string)
    ensures RefOf(a) == RefOf(b) ==> a.kind == b.kind && a.entityId == b.entityId
    ensures RefOf(a) != ManualRef(requestId)
  {
    if RefOf(a) == RefOf(b) {
      RefInjective(Prefix(a.kind), a.entityId, Prefix(b.kind), b.entityId);
      assert Prefix(a.kind)[0] == Prefix(b.kind)[0];
    }
    assert Prefix(a.kind)[0] != 'M' && "MANUAL"[0] == 'M';
    if RefOf(a) == ManualRef(requestId) {
      RefInjective(Prefix(a.kind), a.entityId, "MANUAL", requestId);
    }
  }

  // ---------------------------------------------------------------- lookups

  /** The entry the unique index holds for `ref`. */
  function FindRef(entries: seq<Entry>, ref: string): (r: Option<nat>)
    ensures r.Some? ==> r.value < |entries| && entries[r.value].sourceRef == ref
    ensures r.None? ==> forall i :: 0 <= i < |entries| ==> entries[i].sourceRef != ref
  {
    if entries == [] then None
    else if entries[|entries| - 1].sourceRef == ref then Some(|entries| - 1)
    else FindRef(entries[..|entries| - 1], ref)
  }

  function FindCode(accounts: seq<Account>, code: string): (r: Option<nat>)
    ensures r.Some? ==> r.value < |accounts| && accounts[r.value].code == code
    ensures r.None? ==> forall i :: 0 <= i < |accounts| ==> accounts[i].code != code
  {
    if accounts == [] then None
    else if accounts[|accounts| - 1].code == code then Some(|accounts| - 1)
    else FindCode(accounts[..|accounts| - 1], code)
  }

  predicate KnowsAccounts(lines: seq<Line>, accountCount: nat) {
    forall i :: 0 <= i < |lines| ==> lines[i].accountId < accountCount
  }

  // ---------------------------------------------------------------- seeding

  datatype AccountSeed = AccountSeed(code: string, name: string, kind: AccountType)

  function DefaultAccount(i: nat): AccountSeed
    requires i < 6
  {
    if i == 0 then AccountSeed("1010", "Cash/Bank \U{2014} Branch Operations", Asset)
    else if i == 1 then AccountSeed("1020", "Loans Receivable", Asset)
    else if i == 2 then AccountSeed("1030", "Penalty Receivable", Asset)
    else if i == 3 then AccountSeed("4010", "Fee Income", Income)
    else if i == 4 then AccountSeed("4020", "Interest Income", Income)
    else AccountSeed("4030", "Penalty Income", Income)
  }

  function DefaultAccounts(): seq<AccountSeed> {
    seq(6, i requires 0 <= i < 6 => DefaultAccount(i))
  }

  function DefaultCode(key: MappingKey): string {
    match key
    case DisbursementDebit => "1020"
    case DisbursementCredit => "1010"
    case RepaymentDebit => "1010"
    case RepaymentCredit => "1020"
    case FeeCollectionDebit => "1010"
    case FeeCollectionCredit => "4010"
    case PenaltyDebit => "1030"
    case PenaltyCredit => "4030"
  }

  function KeyAt(i: nat): MappingKey
    requires i < 8
  {
    if i == 0 then DisbursementDebit
    else if i == 1 then DisbursementCredit
    else if i == 2 then RepaymentDebit
    else if i == 3 then RepaymentCredit
    else if i == 4 then FeeCollectionDebit
    else if i == 5 then FeeCollectionCredit
    else if i == 6 then PenaltyDebit
    else PenaltyCredit
  }

  function AllKeys(): seq<MappingKey> {
    seq(8, i requires 0 <= i < 8 => KeyAt(i))
  }

  lemma EveryKeyListed(key: MappingKey)
    ensures key in AllKeys()
  {
    match key {
      case DisbursementDebit => assert AllKeys()[0] == key;
      case DisbursementCredit => assert AllKeys()[1] == key;
      case RepaymentDebit => assert AllKeys()[2] == key;
      case RepaymentCredit => assert AllKeys()[3] == key;
      case FeeCollectionDebit => assert AllKeys()[4] == key;
      case FeeCollectionCredit => assert AllKeys()[5] == key;
      case PenaltyDebit => assert AllKeys()[6] == key;
      case PenaltyCredit => assert AllKeys()[7] == key;
    }
  }

  function SeedAccount(accounts: seq<Account>, seed: AccountSeed): seq<Account> {
    if FindCode(accounts, seed.code).Some? then accounts
    else accounts + [Account(|accounts|, seed.code, seed.name, seed.kind, None, true)]
  }

  function SeedAccounts(accounts: seq<Account>, seeds: seq<AccountSeed>): seq<Account> {
    if seeds == [] then accounts
    else SeedAccount(SeedAccounts(accounts, seeds[..|seeds| - 1]), seeds[|seeds| - 1])
  }

  function SeedMapping(mappings: map<MappingKey, AccountId>, accounts: seq<Account>, key: MappingKey): map<MappingKey, AccountId> {
    var account := FindCode(accounts, DefaultCode(key));
    if key in mappings || account.None? then mappings else mappings[key := account.value]
  }

  function SeedMappings(mappings: map<MappingKey, AccountId>, accounts: seq<Account>, keys: seq<MappingKey>)
    : map<MappingKey, AccountId>
  {
    if keys == [] then mappings
    else SeedMapping(SeedMappings(mappings, accounts, keys[..|keys| - 1]), accounts, keys[|keys| - 1])
  }

  /** Adds each account whose code is missing, then each mapping whose key is missing. */
  function Seeded(l: Books, seeds: seq<AccountSeed>, keys: seq<MappingKey>): Books {
    var accounts := SeedAccounts(l.accounts, seeds);
    l.(accounts := accounts, mappings := SeedMappings(l.mappings, accounts, keys))
  }

  function Booted(l: Books): Books {
    Seeded(l, DefaultAccounts(), AllKeys())
  }

  // ---------------------------------------------------------------- steps

  function SetStage(l: Books, i: nat, stage: Stage): Books
    requires i < |l.calls|
  {
    l.(calls := l.calls[i := l.calls[i].(stage := stage)])
  }

  /** Both ids resolved: the lines are built and checked before any database access. */
  function AfterResolve(l: Books, i: nat, debit: Option<AccountId>, credit: Option<AccountId>): Books
    requires i < |l.calls|
  {
    if debit.Some? && credit.Some? then
      var lines := Transfer(debit.value, credit.value, l.calls[i].posting.amountKobo);
      if Balanced(lines) then SetStage(l, i, Finding(lines)) else SetStage(l, i, Threw(LinesRejected))
    else SetStage(l, i, Resolving(debit, credit))
  }

  function Resolved(l: Books, i: nat, onDebit: bool): Books
    requires i < |l.calls| && l.calls[i].stage.Resolving?
  {
    var call := l.calls[i];
    var key := if onDebit then DebitKey(call.posting.kind) else CreditKey(call.posting.kind);
    if key !in l.mappings then SetStage(l, i, Threw(NoMapping(key)))
    else if onDebit then AfterResolve(l, i, Some(l.mappings[key]), call.stage.credit)
    else AfterResolve(l, i, call.stage.debit, Some(l.mappings[key]))
  }

  function EntryFor(p: Posting, lines: seq<Line>, now: int): Entry {
    Entry(EventOf(p.kind), p.entityId, RefOf(p), p.branchId, now, lines, None)
  }

  /** The existing entry makes the call a no-op that returns it. */
  function Found(l: Books, i: nat): Books
    requires i < |l.calls| && l.calls[i].stage.Finding?
  {
    match FindRef(l.entries, RefOf(l.calls[i].posting))
    case Some(e) => SetStage(l, i, Returned(e))
    case None => SetStage(l, i, Inserting(l.calls[i].stage.lines))
  }

  /** The insert: the unique index either admits the entry or reports a duplicate key. */
  function Inserted(l: Books, i: nat, now: int): Books
    requires i < |l.calls| && l.calls[i].stage.Inserting?
  {
    var p := l.calls[i].posting;
    if FindRef(l.entries, RefOf(p)).Some? then SetStage(l, i, Refetching)
    else
      SetStage(l, i, Returned(|l.entries|)).(entries := l.entries + [EntryFor(p, l.calls[i].stage.lines, now)])
  }

  function Refetched(l: Books, i: nat): Books
    requires i < |l.calls| && l.calls[i].stage.Refetching?
  {
    match FindRef(l.entries, RefOf(l.calls[i].posting))
    case Some(e) => SetStage(l, i, Returned(e))
    case None => SetStage(l, i, Threw(WinnerMissing))
  }

  function ManualEntry(p: Proposal): Entry {
    Entry(ManualAdjustment, p.requestId, ManualRef(p.requestId), p.branchId, p.date, p.lines, Some(p.initiatedBy))
  }

  /** Writes an approved manual entry as it stands; the unique index is the only check at this point. */
  function PostManual(l: Books, p: Proposal): Books {
    if FindRef(l.entries, ManualRef(p.requestId)).Some? then l
    else l.(entries := l.entries + [ManualEntry(p)])
  }

  /** What `proposeEntry` demands of a payload. */
  predicate Acceptable(l: Books, p: Proposal) {
    Balanced(p.lines) && KnowsAccounts(p.lines, |l.accounts|)
  }

  /** One atomic step; an action whose guard fails (an exception, or nothing to do) changes nothing. */
  function Next(l: Books, a: Action): Books {
    match a
    case Boot => Booted(l)
    case CreateAccount(code, name, kind, parent) =>
      if (parent.Some? && parent.value >= |l.accounts|) || FindCode(l.accounts, code).Some? then l
      else l.(accounts := l.accounts + [Account(|l.accounts|, code, name, kind, parent, true)])
    case UpdateAccount(id, name, parent, active) =>
      if id >= |l.accounts| || (parent.Some? && parent.value.Some? && parent.value.value >= |l.accounts|) then l
      else
        var account := l.accounts[id];
        l.(accounts := l.accounts[id := account.(
                         name := name.GetOr(account.name), parent := parent.GetOr(account.parent),
                         active := active.GetOr(account.active))])
    case SetMapping(key, id) =>
      if id >= |l.accounts| then l else l.(mappings := l.mappings[key := id])
    case BeginPosting(p) => l.(calls := l.calls + [Call(p, Resolving(None, None))])
    case ResolveDebit(i) => if i < |l.calls| && l.calls[i].stage.Resolving? then Resolved(l, i, true) else l
    case ResolveCredit(i) => if i < |l.calls| && l.calls[i].stage.Resolving? then Resolved(l, i, false) else l
    case Find(i) => if i < |l.calls| && l.calls[i].stage.Finding? then Found(l, i) else l
    case Insert(i, now) => if i < |l.calls| && l.calls[i].stage.Inserting? then Inserted(l, i, now) else l
    case InsertFails(i) =>
      if i < |l.calls| && l.calls[i].stage.Inserting? then SetStage(l, i, Threw(OtherDatabaseError)) else l
    case Refetch(i) => if i < |l.calls| && l.calls[i].stage.Refetching? then Refetched(l, i) else l
    case Propose(p) => if Acceptable(l, p) then l.(proposals := l.proposals + [p]) else l
    case ApproveProposal(k) => if k < |l.proposals| then PostManual(l, l.proposals[k]) else l
  }

  function Run(l: Books, actions: seq<Action>): Books {
    if actions == [] then l else Next(Run(l, actions[..|actions| - 1]), actions[|actions| - 1])
  }

  lemma {:induction false} RunAppend(l: Books, x: seq<Action>, y: seq<Action>)
    ensures Run(l, x + y) == Run(Run(l, x), y)
  {
    if y == [] {
      assert x + y == x;
    } else {
      RunAppend(l, x, y[..|y| - 1]);
      assert (x + y)[..|x + y| - 1] == x + y[..|y| - 1];
    }
  }

  ghost predicate Empty(l: Books) {
    l.accounts == [] && l.mappings == map[] && l.entries == [] && l.calls == [] && l.proposals == []
  }

  /** The ledgers a deployment can get to: an empty database, the module's boot, then any steps. */
  ghost predicate Reachable(l: Books) {
    exists empty: Books, actions: seq<Action> :: Empty(empty) && l == Run(Booted(empty), actions)
  }

  // ---------------------------------------------------------------- invariant

  ghost predicate AccountsSound(accounts: seq<Account>) {
    && (forall i :: 0 <= i < |accounts| ==> accounts[i].id == i)
    && (forall i, j :: 0 <= i < j < |accounts| ==> accounts[i].code != accounts[j].code)
  }

  ghost predicate MapsBelow(mappings: map<MappingKey, AccountId>, accountCount: nat) {
    forall key: MappingKey {:trigger mappings[key]} {:trigger key in mappings} ::
      key in mappings ==> mappings[key] < accountCount
  }

  ghost predicate MappingsSound(l: Books) {
    && (forall key :: key in AllKeys() ==> key in l.mappings)
    && MapsBelow(l.mappings, |l.accounts|)
  }

  /** The unique index: one entry per source reference. */
  ghost predicate UniqueRefs(entries: seq<Entry>) {
    forall i, j :: 0 <= i < j < |entries| ==> entries[i].sourceRef != entries[j].sourceRef
  }

  ghost predicate LinesSound(lines: seq<Line>, accountCount: nat) {
    Balanced(lines) && KnowsAccounts(lines, accountCount)
  }

  /** An entry's reference is the one its source document determines. */
  ghost predicate NamesSource(e: Entry) {
    if e.source.ManualAdjustment? then e.sourceRef == ManualRef(e.sourceEntityId)
    else exists p: Posting :: EventOf(p.kind) == e.source && p.entityId == e.sourceEntityId && e.sourceRef == RefOf(p)
  }

  ghost predicate EntrySound(e: Entry, accountCount: nat) {
    LinesSound(e.lines, accountCount) && NamesSource(e)
  }

  ghost predicate StageSound(l: Books, call: Call) {
    match call.stage
    case Resolving(debit, credit) =>
      (debit.Some? ==> debit.value < |l.accounts|) && (credit.Some? ==> credit.value < |l.accounts|)
    case Finding(lines) => LinesSound(lines, |l.accounts|)
    case Inserting(lines) => LinesSound(lines, |l.accounts|)
    case Refetching => FindRef(l.entries, RefOf(call.posting)).Some?
    case Returned(e) => e < |l.entries| && l.entries[e].sourceRef == RefOf(call.posting)
    case Threw(error) => error == OtherDatabaseError
  }

  ghost predicate Sound(l: Books) {
    && AccountsSound(l.accounts)
    && MappingsSound(l)
    && UniqueRefs(l.entries)
    && (forall i :: 0 <= i < |l.entries| ==> EntrySound(l.entries[i], |l.accounts|))
    && (forall i :: 0 <= i < |l.calls| ==> StageSound(l, l.calls[i]))
    && (forall i :: 0 <= i < |l.proposals| ==> LinesSound(l.proposals[i].lines, |l.accounts|))
  }

  /** How a ledger may change: accounts keep their ids, codes and types, entries are only appended. */
  ghost predicate Evolves(l: Books, m: Books) {
    && |l.accounts| <= |m.accounts|
    && (forall i :: 0 <= i < |l.accounts| ==>
          m.accounts[i].id == l.accounts[i].id && m.accounts[i].code == l.accounts[i].code &&
          m.accounts[i].kind == l.accounts[i].kind)
    && l.entries <= m.entries
    && |l.calls| <= |m.calls|
    && (forall i :: 0 <= i < |l.calls| ==> m.calls[i].posting == l.calls[i].posting)
    && (forall i :: 0 <= i < |l.calls| && (l.calls[i].stage.Returned? || l.calls[i].stage.Threw?) ==>
          m.calls[i] == l.calls[i])
  }

  lemma FindRefStable(entries: seq<Entry>, more: seq<Entry>, ref: string)
    requires entries <= more && FindRef(entries, ref).Some?
    ensures FindRef(more, ref).Some?
  {
    var i := FindRef(entries, ref).value;
    assert more[i] == entries[i];
  }

  /** A ledger that evolves in accounts and entries only keeps every other part sound. */
  lemma StagesSurvive(l: Books, m: Books, call: Call)
    requires StageSound(l, call)
    requires |l.accounts| <= |m.accounts| && l.entries <= m.entries
    ensures StageSound(m, call)
  {
    if call.stage.Refetching? {
      FindRefStable(l.entries, m.entries, RefOf(call.posting));
    }
  }

  lemma FindCodeKept(accounts: seq<Account>, more: seq<Account>, code: string)
    requires accounts <= more && FindCode(accounts, code).Some?
    ensures FindCode(more, code).Some?
  {
    var k := FindCode(accounts, code).value;
    assert more[k] == accounts[k];
  }

  lemma SeedAccountSound(accounts: seq<Account>, seed: AccountSeed)
    requires AccountsSound(accounts)
    ensures AccountsSound(SeedAccount(accounts, seed))
    ensures accounts <= SeedAccount(accounts, seed)
    ensures FindCode(SeedAccount(accounts, seed), seed.code).Some?
  {
  }

  lemma {:induction false} SeedAccountsSound(accounts: seq<Account>, seeds: seq<AccountSeed>)
    requires AccountsSound(accounts)
    ensures AccountsSound(SeedAccounts(accounts, seeds))
    ensures accounts <= SeedAccounts(accounts, seeds)
  {
    if seeds != [] {
      var front := seeds[..|seeds| - 1];
      SeedAccountsSound(accounts, front);
      SeedAccountSound(SeedAccounts(accounts, front), seeds[|seeds| - 1]);
    }
  }

  lemma SeedAccountFinds(accounts: seq<Account>, seed: AccountSeed, code: string)
    requires FindCode(accounts, code).Some? || code == seed.code
    ensures FindCode(SeedAccount(accounts, seed), code).Some?
  {
    if FindCode(accounts, code).Some? {
      FindCodeKept(accounts, SeedAccount(accounts, seed), code);
    }
  }

  lemma {:induction false} SeedAccountsFound(accounts: seq<Account>, seeds: seq<AccountSeed>, i: nat)
    requires i < |seeds|
    ensures FindCode(SeedAccounts(accounts, seeds), seeds[i].code).Some?
  {
    var front, last := seeds[..|seeds| - 1], seeds[|seeds| - 1];
    if i < |front| {
      SeedAccountsFound(accounts, front, i);
    }
    SeedAccountFinds(SeedAccounts(accounts, front), last, seeds[i].code);
  }

  lemma {:induction false} SeedMappingsSound(mappings: map<MappingKey, AccountId>, accounts: seq<Account>, keys: seq<MappingKey>)
    requires forall key :: FindCode(accounts, DefaultCode(key)).Some?
    requires MapsBelow(mappings, |accounts|)
    ensures var after := SeedMappings(mappings, accounts, keys);
            && (forall key :: key in mappings ==> key in after && after[key] == mappings[key])
            && (forall key :: key in keys ==> key in after)
            && MapsBelow(after, |accounts|)
  {
    if keys != [] {
      var front, last := keys[..|keys| - 1], keys[|keys| - 1];
      SeedMappingsSound(mappings, accounts, front);
      assert keys == front + [last];
      var before, after := SeedMappings(mappings, accounts, front), SeedMappings(mappings, accounts, keys);
      assert after == SeedMapping(before, accounts, last);
      var found := FindCode(accounts, DefaultCode(last)).value;
      forall key | key in after
        ensures after[key] < |accounts|
      {
        assert key in before || (key == last && after[key] == found);
      }
    }
  }

  function DefaultIndex(key: MappingKey): nat {
    match key
    case DisbursementDebit | RepaymentCredit => 1
    case DisbursementCredit | RepaymentDebit | FeeCollectionDebit => 0
    case FeeCollectionCredit => 3
    case PenaltyDebit => 2
    case PenaltyCredit => 5
  }

  lemma DefaultCodeSeeded(key: MappingKey)
    ensures DefaultIndex(key) < |DefaultAccounts()| && DefaultAccounts()[DefaultIndex(key)].code == DefaultCode(key)
  {
  }

  lemma SeedingSound(accounts: seq<Account>, mappings: map<MappingKey, AccountId>,
                     seeds: seq<AccountSeed>, keys: seq<MappingKey>)
    requires AccountsSound(accounts)
    requires MapsBelow(mappings, |accounts|)
    requires forall key :: DefaultIndex(key) < |seeds| && seeds[DefaultIndex(key)].code == DefaultCode(key)
    ensures var seeded := SeedAccounts(accounts, seeds);
            var after := SeedMappings(mappings, seeded, keys);
            && accounts <= seeded && AccountsSound(seeded)
            && (forall key :: key in mappings ==> key in after && after[key] == mappings[key])
            && (forall key :: key in keys ==> key in after)
            && MapsBelow(after, |seeded|)
  {
    SeedAccountsSound(accounts, seeds);
    var seeded := SeedAccounts(accounts, seeds);
    forall key: MappingKey
      ensures FindCode(seeded, DefaultCode(key)).Some?
    {
      SeedAccountsFound(accounts, seeds, DefaultIndex(key));
    }
    SeedMappingsSound(mappings, seeded, keys);
  }

  /** Seeding never clobbers an administrator's edits: existing accounts and mappings are kept. */
  lemma BootSound(l: Books)
    requires AccountsSound(l.accounts)
    requires MapsBelow(l.mappings, |l.accounts|)
    ensures var m := Booted(l);
            && l.accounts <= m.accounts && AccountsSound(m.accounts) && MappingsSound(m)
            && (forall key :: key in l.mappings ==> key in m.mappings && m.mappings[key] == l.mappings[key])
  {
    forall key: MappingKey
      ensures DefaultIndex(key) < |DefaultAccounts()| && DefaultAccounts()[DefaultIndex(key)].code == DefaultCode(key)
    {
      DefaultCodeSeeded(key);
    }
    SeedingSound(l.accounts, l.mappings, DefaultAccounts(), AllKeys());
  }

  /** A call's own step leaves the rest of the ledger sound. */
  lemma CallStepSound(l: Books, i: nat, m: Books)
    requires Sound(l) && i < |l.calls|
    requires m.accounts == l.accounts && m.mappings == l.mappings && m.proposals == l.proposals
    requires l.entries <= m.entries && UniqueRefs(m.entries)
    requires forall e :: |l.entries| <= e < |m.entries| ==> EntrySound(m.entries[e], |m.accounts|)
    requires |m.calls| == |l.calls| && m.calls == l.calls[i := m.calls[i]]
    requires m.calls[i].posting == l.calls[i].posting && StageSound(m, m.calls[i])
    requires !l.calls[i].stage.Returned? && !l.calls[i].stage.Threw?
    ensures Sound(m) && Evolves(l, m)
  {
    forall j | 0 <= j < |m.calls|
      ensures StageSound(m, m.calls[j])
    {
      if j != i {
        StagesSurvive(l, m, l.calls[j]);
      }
    }
    forall e | 0 <= e < |m.entries|
      ensures EntrySound(m.entries[e], |m.accounts|)
    {
      if e < |l.entries| {
        assert m.entries[e] == l.entries[e];
      }
    }
  }

  /** A step on the books (accounts, mappings, proposals, manual entries) leaves every call sound. */
  lemma BookStepSound(l: Books, m: Books)
    requires Sound(l) && m.calls == l.calls
    requires AccountsSound(m.accounts) && MappingsSound(m) && Evolves(l, m) && UniqueRefs(m.entries)
    requires forall e :: |l.entries| <= e < |m.entries| ==> EntrySound(m.entries[e], |m.accounts|)
    requires l.proposals <= m.proposals
    requires forall k :: |l.proposals| <= k < |m.proposals| ==> LinesSound(m.proposals[k].lines, |m.accounts|)
    ensures Sound(m)
  {
    forall j | 0 <= j < |m.calls|
      ensures StageSound(m, m.calls[j])
    {
      StagesSurvive(l, m, l.calls[j]);
    }
    forall e | 0 <= e < |m.entries|
      ensures EntrySound(m.entries[e], |m.accounts|)
    {
      if e < |l.entries| {
        assert m.entries[e] == l.entries[e];
      }
    }
    forall k | 0 <= k < |m.proposals|
      ensures LinesSound(m.proposals[k].lines, |m.accounts|)
    {
      if k < |l.proposals| {
        assert m.proposals[k] == l.proposals[k];
      }
    }
  }

  lemma ResolvedSound(l: Books, i: nat, onDebit: bool)
    requires Sound(l) && i < |l.calls| && l.calls[i].stage.Resolving?
    ensures Sound(Resolved(l, i, onDebit)) && Evolves(l, Resolved(l, i, onDebit))
  {
    var p, m := l.calls[i].posting, Resolved(l, i, onDebit);
    EveryKeyListed(DebitKey(p.kind));
    EveryKeyListed(CreditKey(p.kind));
    if m.calls[i].stage.Finding? || m.calls[i].stage.Threw? {
      var debit := if onDebit then l.mappings[DebitKey(p.kind)] else l.calls[i].stage.debit.value;
      var credit := if onDebit then l.calls[i].stage.credit.value else l.mappings[CreditKey(p.kind)];
      TransferBalanced(debit, credit, p.amountKobo);
    }
    CallStepSound(l, i, m);
  }

  lemma PostingStepsSound(l: Books, i: nat, now: int)
    requires Sound(l) && i < |l.calls|
    ensures l.calls[i].stage.Finding? ==> Sound(Found(l, i)) && Evolves(l, Found(l, i))
    ensures l.calls[i].stage.Inserting? ==> Sound(Inserted(l, i, now)) && Evolves(l, Inserted(l, i, now))
    ensures l.calls[i].stage.Refetching? ==> Sound(Refetched(l, i)) && Evolves(l, Refetched(l, i))
  {
    match l.calls[i].stage {
      case Finding(_) => CallStepSound(l, i, Found(l, i));
      case Inserting(lines) =>
        assert NamesSource(EntryFor(l.calls[i].posting, lines, now));
        CallStepSound(l, i, Inserted(l, i, now));
      case Refetching => CallStepSound(l, i, Refetched(l, i));
      case _ =>
    }
  }

  predicate IsCallStep(a: Action) {
    a.ResolveDebit? || a.ResolveCredit? || a.Find? || a.Insert? || a.InsertFails? || a.Refetch?
  }

  lemma CallActionSound(l: Books, a: Action)
    requires Sound(l) && IsCallStep(a)
    ensures Sound(Next(l, a)) && Evolves(l, Next(l, a))
  {
    if a.call < |l.calls| {
      match a {
        case ResolveDebit(i) =>
          if l.calls[i].stage.Resolving? {
            ResolvedSound(l, i, true);
          }
        case ResolveCredit(i) =>
          if l.calls[i].stage.Resolving? {
            ResolvedSound(l, i, false);
          }
        case Find(i) => PostingStepsSound(l, i, 0);
        case Insert(i, now) => PostingStepsSound(l, i, now);
        case InsertFails(i) =>
          if l.calls[i].stage.Inserting? {
            CallStepSound(l, i, Next(l, a));
          }
        case Refetch(i) => PostingStepsSound(l, i, 0);
      }
    }
  }

  lemma BeginSound(l: Books, p: Posting)
    requires Sound(l)
    ensures Sound(Next(l, BeginPosting(p))) && Evolves(l, Next(l, BeginPosting(p)))
  {
    var m := Next(l, BeginPosting(p));
    forall j | 0 <= j < |m.calls|
      ensures StageSound(m, m.calls[j])
    {
      if j < |l.calls| {
        StagesSurvive(l, m, l.calls[j]);
      }
    }
  }

  lemma ChartActionSound(l: Books, a: Action)
    requires Sound(l)
    requires a.Boot? || a.CreateAccount? || a.UpdateAccount? || a.SetMapping?
    ensures Sound(Next(l, a)) && Evolves(l, Next(l, a))
  {
    var m := Next(l, a);
    assert AccountsSound(m.accounts) && MappingsSound(m) && Evolves(l, m) by {
      if a.Boot? {
        BootSound(l);
        assert forall i :: 0 <= i < |l.accounts| ==> m.accounts[i] == l.accounts[i];
      }
    }
    BookStepSound(l, m);
  }

  lemma ManualActionSound(l: Books, a: Action)
    requires Sound(l)
    requires a.Propose? || a.ApproveProposal?
    ensures Sound(Next(l, a)) && Evolves(l, Next(l, a))
  {
    BookStepSound(l, Next(l, a));
  }

  /** Every step keeps the ledger sound and only ever extends it. */
  lemma NextSound(l: Books, a: Action)
    requires Sound(l)
    ensures Sound(Next(l, a)) && Evolves(l, Next(l, a))
  {
    if IsCallStep(a) {
      CallActionSound(l, a);
    } else if a.BeginPosting? {
      BeginSound(l, a.posting);
    } else if a.Propose? || a.ApproveProposal? {
      ManualActionSound(l, a);
    } else {
      ChartActionSound(l, a);
    }
  }

  lemma EvolvesTransitive(l: Books, m: Books, n: Books)
    requires Evolves(l, m) && Evolves(m, n)
    ensures Evolves(l, n)
  {
  }

  /** In every run from a sound ledger, with any interleaving of callers, soundness is never lost. */
  lemma {:induction false} RunSound(l: Books, actions: seq<Action>)
    requires Sound(l)
    ensures Sound(Run(l, actions)) && Evolves(l, Run(l, actions))
  {
    if actions != [] {
      var front := actions[..|actions| - 1];
      RunSound(l, front);
      NextSound(Run(l, front), actions[|actions| - 1]);
      EvolvesTransitive(l, Run(l, front), Run(l, actions));
    }
  }

  lemma ReachableSound(l: Books)
    requires Reachable(l)
    ensures Sound(l)
  {
    var empty: Books, actions: seq<Action> :| Empty(empty) && l == Run(Booted(empty), actions);
    BootSound(empty);
    RunSound(Booted(empty), actions);
  }

  // ---------------------------------------------------------------- idempotent posting

  /**
   * However the callers' steps interleave: there is one entry per reference, every caller that returns
   * got the entry of its own reference, two callers got the same entry exactly when they post the same
   * source document, and the only exception a caller can see is a database failure, never a duplicate
   * key, an unmapped account or a missing winner.
   */
  lemma PostingIsIdempotent(l: Books, i: nat, j: nat)
    requires Reachable(l) && i < |l.calls| && j < |l.calls|
    ensures UniqueRefs(l.entries)
    ensures l.calls[i].stage.Threw? ==> l.calls[i].stage.error == OtherDatabaseError
    ensures l.calls[i].stage.Returned? ==>
              l.calls[i].stage.entry < |l.entries| &&
              l.entries[l.calls[i].stage.entry].sourceRef == RefOf(l.calls[i].posting)
    ensures l.calls[i].stage.Returned? && l.calls[j].stage.Returned? ==>
              (l.calls[i].stage.entry == l.calls[j].stage.entry
               <==> l.calls[i].posting.kind == l.calls[j].posting.kind &&
                    l.calls[i].posting.entityId == l.calls[j].posting.entityId)
  {
    ReachableSound(l);
    ReturnedCallsOutcome(l, i);
    if l.calls[i].stage.Returned? && l.calls[j].stage.Returned? {
      ReturnedCallsAgree(l, i, j);
    }
  }

  lemma ReturnedCallsOutcome(l: Books, i: nat)
    requires Sound(l) && i < |l.calls|
    ensures l.calls[i].stage.Threw? ==> l.calls[i].stage.error == OtherDatabaseError
    ensures l.calls[i].stage.Returned? ==>
              l.calls[i].stage.entry < |l.entries| &&
              l.entries[l.calls[i].stage.entry].sourceRef == RefOf(l.calls[i].posting)
  {
    assert StageSound(l, l.calls[i]);
  }

  lemma ReturnedCallsAgree(l: Books, i: nat, j: nat)
    requires Sound(l) && i < |l.calls| && j < |l.calls|
    requires l.calls[i].stage.Returned? && l.calls[j].stage.Returned?
    ensures l.calls[i].stage.entry == l.calls[j].stage.entry
            <==> l.calls[i].posting.kind == l.calls[j].posting.kind &&
                 l.calls[i].posting.entityId == l.calls[j].posting.entityId
  {
    ReturnedCallsOutcome(l, i);
    ReturnedCallsOutcome(l, j);
    PostingRefsDistinct(l.calls[i].posting, l.calls[j].posting, "");
  }

  /** What a caller was given stays in the ledger, unchanged, whatever happens afterwards. */
  lemma ReturnedEntryIsFinal(l: Books, actions: seq<Action>, i: nat)
    requires Sound(l) && i < |l.calls| && l.calls[i].stage.Returned?
    ensures var m := Run(l, actions);
            && i < |m.calls| && m.calls[i] == l.calls[i]
            && l.calls[i].stage.entry < |l.entries| <= |m.entries|
            && m.entries[l.calls[i].stage.entry] == l.entries[l.calls[i].stage.entry]
  {
    RunSound(l, actions);
    assert StageSound(l, l.calls[i]);
  }

  /**
   * Approving a proposal appends its entry exactly when that request has no manual entry yet; a repeated
   * approval changes nothing, and no automated posting can ever stand in the way of one.
   */
  lemma ManualApprovalOnce(l: Books, k: nat)
    requires Sound(l) && k < |l.proposals|
    ensures var p := l.proposals[k];
            Next(l, ApproveProposal(k)).entries
            == (if exists e :: e in l.entries && e.source.ManualAdjustment? && e.sourceEntityId == p.requestId
                then l.entries else l.entries + [ManualEntry(p)])
    ensures Next(Next(l, ApproveProposal(k)), ApproveProposal(k)) == Next(l, ApproveProposal(k))
  {
    var p := l.proposals[k];
    var m := Next(l, ApproveProposal(k));
    var found := FindRef(l.entries, ManualRef(p.requestId));
    if found.None? {
      assert m.entries[|l.entries|].sourceRef == ManualRef(p.requestId);
      forall i | 0 <= i < |l.entries| && l.entries[i].source.ManualAdjustment?
        ensures l.entries[i].sourceEntityId != p.requestId
      {
        assert EntrySound(l.entries[i], |l.accounts|);
      }
    } else {
      var e := l.entries[found.value];
      assert EntrySound(e, |l.accounts|);
      if !e.source.ManualAdjustment? {
        var q: Posting :| e.sourceRef == RefOf(q);
        PostingRefsDistinct(q, q, p.requestId);
      } else {
        RefInjective("MANUAL", e.sourceEntityId, "MANUAL", p.requestId);
      }
    }
  }
}
