/**
 * Which account a posting debits and which it credits: traced to the lookups of its call over every run,
 * and down to the balances of the seeded chart of accounts.
 */
module PostingLines {
  import opened Common
  import opened JournalBalance
  import opened Ledger
  import TrialBalance

  // ---------------------------------------------------------------- what an entry says

  /** The amount as a debit on one account and as a credit on the other, and nothing else. */
  predicate Moves(lines: seq<Line>, debit: AccountId, credit: AccountId, amount: int) {
    && |lines| == 2
    && lines[0].accountId == debit && lines[0].debitKobo == Some(amount) && lines[0].creditKobo == None
    && lines[1].accountId == credit && lines[1].debitKobo == None && lines[1].creditKobo == Some(amount)
  }

  function SourceOf(kind: PostingKind): (SourceEvent, string) {
    match kind
    case ForDisbursement => (LoanDisbursement, "LOAN_DISBURSEMENT:")
    case ForFee => (FeeCollection, "FEE_COLLECTION:")
    case ForRepayment => (Repayment, "REPAYMENT:")
    case ForPenaltyCharge => (Penalty, "PENALTY_CHARGE:")
    case ForLiquidationDelay => (Penalty, "LIQUIDATION_DELAY_CHARGE:")
  }

  /** `e` names the source document, branch and date of an automated posting. */
  predicate Records(e: Entry, p: Posting, now: int) {
    && e.source == SourceOf(p.kind).0 && e.sourceEntityId == p.entityId && e.sourceRef == SourceOf(p.kind).1 + p.entityId
    && e.branchId == p.branchId && e.date == now && e.createdBy == None
  }

  lemma EntryRecords(p: Posting, lines: seq<Line>, now: int)
    ensures Records(EntryFor(p, lines, now), p, now) && EntryFor(p, lines, now).lines == lines
  {
    assert RefOf(p) == SourceOf(p.kind).1 + p.entityId;
  }

  lemma TransferMoves(debit: AccountId, credit: AccountId, amount: int)
    ensures Moves(Transfer(debit, credit, amount), debit, credit, amount)
  {
  }

  // ---------------------------------------------------------------- lookups along a run

  /** Step `i` of the run is the lookup of call `k` on one side, and it found `account`. */
  predicate LooksUp(l: Books, actions: seq<Action>, i: nat, k: nat, onDebit: bool, account: AccountId) {
    && i < |actions| && actions[i] == (if onDebit then ResolveDebit(k) else ResolveCredit(k))
    && var m := Run(l, actions[..i]);
       && k < |m.calls| && m.calls[k].stage.Resolving?
       && var kind := m.calls[k].posting.kind;
          var key := if onDebit then DebitKey(kind) else CreditKey(kind);
          key in m.mappings && m.mappings[key] == account
  }

  ghost predicate LookedUp(l: Books, actions: seq<Action>, k: nat, onDebit: bool, account: AccountId) {
    exists i: nat :: LooksUp(l, actions, i, k, onDebit, account)
  }

  /** The lines move `amount` from the account that call `k` resolved for credits to the one it resolved for debits. */
  ghost predicate LinesTraced(l: Books, actions: seq<Action>, k: nat, amount: int, lines: seq<Line>) {
    exists debit, credit ::
      LookedUp(l, actions, k, true, debit) && LookedUp(l, actions, k, false, credit) && Moves(lines, debit, credit, amount)
  }

  lemma LookupKept(l: Books, front: seq<Action>, more: seq<Action>, k: nat, onDebit: bool, account: AccountId)
    requires LookedUp(l, front, k, onDebit, account)
    ensures LookedUp(l, front + more, k, onDebit, account)
  {
    hide Next;
    var i: nat :| LooksUp(l, front, i, k, onDebit, account);
    assert (front + more)[..i] == front[..i];
    assert LooksUp(l, front + more, i, k, onDebit, account);
  }

  lemma LookupLater(l: Books, front: seq<Action>, more: seq<Action>, k: nat, onDebit: bool, account: AccountId)
    requires LookedUp(Run(l, front), more, k, onDebit, account)
    ensures LookedUp(l, front + more, k, onDebit, account)
  {
    hide Next;
    var i: nat :| LooksUp(Run(l, front), more, i, k, onDebit, account);
    assert (front + more)[..|front| + i] == front + more[..i];
    RunAppend(l, front, more[..i]);
    assert LooksUp(l, front + more, |front| + i, k, onDebit, account);
  }

  lemma LinesLater(l: Books, front: seq<Action>, more: seq<Action>, k: nat, amount: int, lines: seq<Line>)
    requires LinesTraced(Run(l, front), more, k, amount, lines)
    ensures LinesTraced(l, front + more, k, amount, lines)
  {
    hide Run, Moves;
    var debit, credit :| LookedUp(Run(l, front), more, k, true, debit) && LookedUp(Run(l, front), more, k, false, credit) &&
                         Moves(lines, debit, credit, amount);
    LookupLater(l, front, more, k, true, debit);
    LookupLater(l, front, more, k, false, credit);
  }

  lemma LinesKept(l: Books, front: seq<Action>, a: Action, k: nat, amount: int, lines: seq<Line>)
    requires LinesTraced(l, front, k, amount, lines)
    ensures LinesTraced(l, front + [a], k, amount, lines)
  {
    var debit, credit :| LookedUp(l, front, k, true, debit) && LookedUp(l, front, k, false, credit) && Moves(lines, debit, credit, amount);
    LookupKept(l, front, [a], k, true, debit);
    LookupKept(l, front, [a], k, false, credit);
  }

  /** What a call has resolved, or the lines it built, come from its own lookups. */
  ghost predicate StageTraced(l: Books, actions: seq<Action>, k: nat, call: Call) {
    match call.stage
    case Resolving(debit, credit) =>
      && (debit.Some? ==> LookedUp(l, actions, k, true, debit.value))
      && (credit.Some? ==> LookedUp(l, actions, k, false, credit.value))
    case Finding(lines) => LinesTraced(l, actions, k, call.posting.amountKobo, lines)
    case Inserting(lines) => LinesTraced(l, actions, k, call.posting.amountKobo, lines)
    case _ => true
  }

  lemma StageKept(l: Books, front: seq<Action>, a: Action, k: nat, call: Call)
    requires StageTraced(l, front, k, call)
    ensures StageTraced(l, front + [a], k, call)
  {
    match call.stage {
      case Resolving(debit, credit) =>
        if debit.Some? {
          LookupKept(l, front, [a], k, true, debit.value);
        }
        if credit.Some? {
          LookupKept(l, front, [a], k, false, credit.value);
        }
      case Finding(lines) => LinesKept(l, front, a, k, call.posting.amountKobo, lines);
      case Inserting(lines) => LinesKept(l, front, a, k, call.posting.amountKobo, lines);
      case _ =>
    }
  }

  lemma BuiltTraced(l: Books, actions: seq<Action>, m: Books, k: nat, debit: Option<AccountId>, credit: Option<AccountId>)
    requires k < |m.calls|
    requires debit.Some? ==> LookedUp(l, actions, k, true, debit.value)
    requires credit.Some? ==> LookedUp(l, actions, k, false, credit.value)
    ensures StageTraced(l, actions, k, AfterResolve(m, k, debit, credit).calls[k])
  {
    hide LookedUp;
    if debit.Some? && credit.Some? {
      TransferMoves(debit.value, credit.value, m.calls[k].posting.amountKobo);
    }
  }

  lemma LookupEnds(l: Books, front: seq<Action>, k: nat, onDebit: bool)
    requires var m := Run(l, front);
             && k < |m.calls| && m.calls[k].stage.Resolving?
             && (if onDebit then DebitKey(m.calls[k].posting.kind) else CreditKey(m.calls[k].posting.kind)) in m.mappings
    ensures var m := Run(l, front);
            var key := if onDebit then DebitKey(m.calls[k].posting.kind) else CreditKey(m.calls[k].posting.kind);
            LookedUp(l, front + [if onDebit then ResolveDebit(k) else ResolveCredit(k)], k, onDebit, m.mappings[key])
  {
    var m, actions := Run(l, front), front + [if onDebit then ResolveDebit(k) else ResolveCredit(k)];
    var key := if onDebit then DebitKey(m.calls[k].posting.kind) else CreditKey(m.calls[k].posting.kind);
    assert actions[..|front|] == front;
    assert LooksUp(l, actions, |front|, k, onDebit, m.mappings[key]);
  }

  /** A lookup at the end of a run. */
  lemma ResolveTraced(l: Books, front: seq<Action>, k: nat, onDebit: bool)
    requires var m := Run(l, front); k < |m.calls| && m.calls[k].stage.Resolving? && StageTraced(l, front, k, m.calls[k])
    ensures StageTraced(l, front + [if onDebit then ResolveDebit(k) else ResolveCredit(k)], k, Resolved(Run(l, front), k, onDebit).calls[k])
  {
    hide Run, Next, AfterResolve, LookedUp;
    var m, a := Run(l, front), if onDebit then ResolveDebit(k) else ResolveCredit(k);
    var key := if onDebit then DebitKey(m.calls[k].posting.kind) else CreditKey(m.calls[k].posting.kind);
    StageKept(l, front, a, k, m.calls[k]);
    if key in m.mappings {
      LookupEnds(l, front, k, onDebit);
      if onDebit {
        BuiltTraced(l, front + [a], m, k, Some(m.mappings[key]), m.calls[k].stage.credit);
      } else {
        BuiltTraced(l, front + [a], m, k, m.calls[k].stage.debit, Some(m.mappings[key]));
      }
    }
  }

  lemma NextStageTraced(l: Books, front: seq<Action>, a: Action, k: nat)
    requires var m := Run(l, front); k < |m.calls| && StageTraced(l, front, k, m.calls[k])
    ensures k < |Next(Run(l, front), a).calls| && StageTraced(l, front + [a], k, Next(Run(l, front), a).calls[k])
  {
    hide StageTraced, AfterResolve, Resolved, Booted, LinesTraced;
    var m := Run(l, front);
    StageKept(l, front, a, k, m.calls[k]);
    if (a == ResolveDebit(k) || a == ResolveCredit(k)) && m.calls[k].stage.Resolving? {
      ResolveTraced(l, front, k, a.ResolveDebit?);
      assert Next(m, a) == Resolved(m, k, a.ResolveDebit?);
      ResolvedLength(m, k, a.ResolveDebit?);
    } else {
      OtherStage(l, front, m, a, k);
    }
  }

  lemma ResolvedLength(m: Books, k: nat, onDebit: bool)
    requires k < |m.calls| && m.calls[k].stage.Resolving?
    ensures var n := Resolved(m, k, onDebit);
            && n == m.(calls := n.calls) && |n.calls| == |m.calls| && n.calls[k].posting == m.calls[k].posting
            && forall j :: 0 <= j < |m.calls| && j != k ==> n.calls[j] == m.calls[j]
  {
  }

  lemma OtherStage(l: Books, front: seq<Action>, m: Books, a: Action, k: nat)
    requires k < |m.calls| && StageTraced(l, front + [a], k, m.calls[k])
    requires m.calls[k].stage.Resolving? ==> a != ResolveDebit(k) && a != ResolveCredit(k)
    ensures k < |Next(m, a).calls| && StageTraced(l, front + [a], k, Next(m, a).calls[k])
  {
    hide AfterResolve, Resolved, Booted, LinesTraced, LookedUp;
    if (a.ResolveDebit? || a.ResolveCredit?) && a.call < |m.calls| && m.calls[a.call].stage.Resolving? {
      ResolvedLength(m, a.call, a.ResolveDebit?);
    } else if a.Boot? {
      BootKeeps(m);
    }
  }

  // ---------------------------------------------------------------- entries along a run

  /** `e` was written by call `k`: it records its posting and moves its amount between the accounts it looked up. */
  ghost predicate WrittenBy(l: Books, actions: seq<Action>, p: Posting, k: nat, e: Entry) {
    Records(e, p, e.date) && LinesTraced(l, actions, k, p.amountKobo, e.lines)
  }

  /** `e` was entered by hand, exactly as proposed. */
  predicate ByHand(p: Proposal, e: Entry) {
    && e.source == ManualAdjustment && e.sourceEntityId == p.requestId && e.sourceRef == "MANUAL:" + p.requestId
    && e.branchId == p.branchId && e.date == p.date && e.lines == p.lines && e.createdBy == Some(p.initiatedBy)
  }

  ghost predicate EntryExplained(l: Books, actions: seq<Action>, m: Books, e: Entry) {
    || (exists k :: 0 <= k < |m.calls| && WrittenBy(l, actions, m.calls[k].posting, k, e))
    || (exists k :: 0 <= k < |m.proposals| && ByHand(m.proposals[k], e))
  }

  ghost predicate Explained(l: Books, actions: seq<Action>, m: Books) {
    && (forall k :: 0 <= k < |m.calls| ==> StageTraced(l, actions, k, m.calls[k]))
    && (forall e :: 0 <= e < |m.entries| ==> EntryExplained(l, actions, m, m.entries[e]))
  }

  lemma EntryKept(l: Books, front: seq<Action>, a: Action, m: Books, n: Books, e: Entry)
    requires EntryExplained(l, front, m, e) && |m.calls| <= |n.calls| && m.proposals <= n.proposals
    requires forall k :: 0 <= k < |m.calls| ==> n.calls[k].posting == m.calls[k].posting
    ensures EntryExplained(l, front + [a], n, e)
  {
    hide Records, LinesTraced, ByHand;
    if exists k :: 0 <= k < |m.calls| && WrittenBy(l, front, m.calls[k].posting, k, e) {
      var k :| 0 <= k < |m.calls| && WrittenBy(l, front, m.calls[k].posting, k, e);
      LinesKept(l, front, a, k, m.calls[k].posting.amountKobo, e.lines);
      assert WrittenBy(l, front + [a], n.calls[k].posting, k, e);
    } else {
      var k :| 0 <= k < |m.proposals| && ByHand(m.proposals[k], e);
      assert ByHand(n.proposals[k], e);
    }
  }

  /** A step adds at most one entry, and then it is the insert of a call or the approval of a proposal. */
  lemma NextEntries(m: Books, a: Action)
    ensures var n := Next(m, a);
            && m.entries <= n.entries && |n.entries| <= |m.entries| + 1
            && |m.calls| <= |n.calls| && m.proposals <= n.proposals
            && (forall k :: 0 <= k < |m.calls| ==> n.calls[k].posting == m.calls[k].posting)
            && (|n.entries| > |m.entries| ==>
                  || (a.Insert? && a.call < |m.calls| && m.calls[a.call].stage.Inserting? &&
                      n.entries[|m.entries|] == EntryFor(m.calls[a.call].posting, m.calls[a.call].stage.lines, a.now))
                  || (a.ApproveProposal? && a.index < |m.proposals| && n.entries[|m.entries|] == ManualEntry(m.proposals[a.index])))
  {
    hide AfterResolve, Resolved, Booted;
    if (a.ResolveDebit? || a.ResolveCredit?) && a.call < |m.calls| && m.calls[a.call].stage.Resolving? {
      ResolvedLength(m, a.call, a.ResolveDebit?);
    } else if a.Boot? {
      BootKeeps(m);
    }
  }

  lemma BootKeeps(m: Books)
    ensures Booted(m) == m.(accounts := Booted(m).accounts, mappings := Booted(m).mappings)
  {
  }

  lemma NewEntryExplained(l: Books, front: seq<Action>, a: Action)
    requires Explained(l, front, Run(l, front))
    requires var m := Run(l, front); |Next(m, a).entries| > |m.entries|
    ensures EntryExplained(l, front + [a], Next(Run(l, front), a), Next(Run(l, front), a).entries[|Run(l, front).entries|])
  {
    hide Next, Run, Records, LinesTraced;
    var m := Run(l, front);
    var n := Next(m, a);
    NextEntries(m, a);
    var e := n.entries[|m.entries|];
    if a.Insert? {
      var p, lines := m.calls[a.call].posting, m.calls[a.call].stage.lines;
      assert StageTraced(l, front, a.call, m.calls[a.call]);
      LinesKept(l, front, a, a.call, p.amountKobo, lines);
      EntryRecords(p, lines, a.now);
      assert WrittenBy(l, front + [a], n.calls[a.call].posting, a.call, e);
    } else {
      assert ByHand(n.proposals[a.index], e);
    }
  }

  lemma NewCallTraced(l: Books, actions: seq<Action>, m: Books, a: Action, k: nat)
    requires |m.calls| <= k < |Next(m, a).calls|
    ensures StageTraced(l, actions, k, Next(m, a).calls[k])
  {
    hide AfterResolve, Resolved, Booted;
    if (a.ResolveDebit? || a.ResolveCredit?) && a.call < |m.calls| && m.calls[a.call].stage.Resolving? {
      ResolvedLength(m, a.call, a.ResolveDebit?);
    } else if a.Boot? {
      BootKeeps(m);
    }
  }

  /**
   * In every run, however the callers interleave, each entry is either one entered by hand as it was proposed,
   * or was written by a call: it then names the call's source document, branch and amount, and has exactly that
   * amount as a debit on the account the call resolved from its debit mapping and as a credit on the one from
   * its credit mapping.
   */
  lemma {:induction false} EveryEntryExplained(l: Books, actions: seq<Action>)
    requires l.calls == [] && l.entries == []
    ensures Explained(l, actions, Run(l, actions))
  {
    hide Next, StageTraced, EntryExplained;
    if actions != [] {
      var front, a := actions[..|actions| - 1], actions[|actions| - 1];
      assert actions == front + [a];
      EveryEntryExplained(l, front);
      var m := Run(l, front);
      NextEntries(m, a);
      forall k | 0 <= k < |Next(m, a).calls|
        ensures StageTraced(l, actions, k, Next(m, a).calls[k])
      {
        if k < |m.calls| {
          NextStageTraced(l, front, a, k);
        } else {
          NewCallTraced(l, actions, m, a, k);
        }
      }
      forall e | 0 <= e < |Next(m, a).entries|
        ensures EntryExplained(l, actions, Next(m, a), Next(m, a).entries[e])
      {
        if e < |m.entries| {
          EntryKept(l, front, a, m, Next(m, a), m.entries[e]);
        } else {
          NewEntryExplained(l, front, a);
        }
      }
    }
  }

  // ---------------------------------------------------------------- the seeded chart

  /** The key is mapped to the account with this code, which is of this type. */
  predicate MapsTo(l: Books, key: MappingKey, code: string, kind: AccountType) {
    && key in l.mappings && l.mappings[key] < |l.accounts|
    && l.accounts[l.mappings[key]].code == code && l.accounts[l.mappings[key]].kind == kind
  }

  /** Each posting kind between the accounts the chart is seeded for. */
  predicate MappedAsSeeded(l: Books) {
    && MapsTo(l, DisbursementDebit, "1020", Asset) && MapsTo(l, DisbursementCredit, "1010", Asset)
    && MapsTo(l, RepaymentDebit, "1010", Asset) && MapsTo(l, RepaymentCredit, "1020", Asset)
    && MapsTo(l, FeeCollectionDebit, "1010", Asset) && MapsTo(l, FeeCollectionCredit, "4010", Income)
    && MapsTo(l, PenaltyDebit, "1030", Asset) && MapsTo(l, PenaltyCredit, "4030", Income)
  }

  lemma {:induction false} SeededAccounts(seeds: seq<AccountSeed>, i: nat)
    requires i < |seeds| && forall j, k :: 0 <= j < k < |seeds| ==> seeds[j].code != seeds[k].code
    ensures |SeedAccounts([], seeds)| == |seeds|
    ensures SeedAccounts([], seeds)[i] == Account(i, seeds[i].code, seeds[i].name, seeds[i].kind, None, true)
  {
    var front := seeds[..|seeds| - 1];
    if front != [] {
      forall j: nat | j < |front|
        ensures |SeedAccounts([], front)| == |front| && SeedAccounts([], front)[j].code == front[j].code
      {
        SeededAccounts(front, j);
      }
      SeededAccounts(front, if i < |front| then i else 0);
    }
  }

  lemma {:induction false} SeededMappings(accounts: seq<Account>, keys: seq<MappingKey>, key: MappingKey)
    requires key in keys && FindCode(accounts, DefaultCode(key)).Some?
    ensures key in SeedMappings(map[], accounts, keys)
    ensures FindCode(accounts, DefaultCode(key)) == Some(SeedMappings(map[], accounts, keys)[key])
  {
    var front, last := keys[..|keys| - 1], keys[|keys| - 1];
    assert keys == front + [last];
    if key in front {
      SeededMappings(accounts, front, key);
    } else {
      SeededOnly(accounts, front, key);
    }
  }

  lemma {:induction false} SeededOnly(accounts: seq<Account>, keys: seq<MappingKey>, key: MappingKey)
    requires key !in keys
    ensures key !in SeedMappings(map[], accounts, keys)
  {
    if keys != [] {
      assert keys == keys[..|keys| - 1] + [keys[|keys| - 1]];
      SeededOnly(accounts, keys[..|keys| - 1], key);
    }
  }

  lemma BootMaps(empty: Books, key: MappingKey, i: nat)
    requires Empty(empty) && i < 6 && DefaultAccount(i).code == DefaultCode(key)
    ensures MapsTo(Booted(empty), key, DefaultAccount(i).code, DefaultAccount(i).kind)
  {
    hide SeedAccounts, SeedMappings, DefaultCode, DefaultAccount;
    var seeds, accounts := DefaultAccounts(), SeedAccounts([], DefaultAccounts());
    assert forall j :: 0 <= j < 6 ==> seeds[j] == DefaultAccount(j);
    forall j, k | 0 <= j < k < 6
      ensures seeds[j].code != seeds[k].code
    {
      if seeds[j].code == seeds[k].code {
        DefaultCodesDiffer(j, k);
      }
    }
    forall j: nat | j < 6
      ensures |accounts| == 6 && accounts[j].code == DefaultAccount(j).code && accounts[j].kind == DefaultAccount(j).kind
    {
      SeededAccounts(seeds, j);
    }
    assert accounts[i].code == DefaultCode(key);
    EveryKeyListed(key);
    SeededMappings(accounts, AllKeys(), key);
    var found := FindCode(accounts, DefaultCode(key)).value;
    assert DefaultAccount(found).code == DefaultAccount(i).code;
    DefaultCodesDiffer(found, i);
  }

  lemma DefaultCodesDiffer(i: nat, j: nat)
    requires i < 6 && j < 6 && DefaultAccount(i).code == DefaultAccount(j).code
    ensures i == j
  {
  }

  lemma BootMapsAll(empty: Books)
    requires Empty(empty)
    ensures MappedAsSeeded(Booted(empty))
  {
    hide Booted, MapsTo;
    BootMaps(empty, DisbursementDebit, 1);
    BootMaps(empty, DisbursementCredit, 0);
    BootMaps(empty, RepaymentDebit, 0);
    BootMaps(empty, RepaymentCredit, 1);
    BootMaps(empty, FeeCollectionDebit, 0);
    BootMaps(empty, FeeCollectionCredit, 3);
    BootMaps(empty, PenaltyDebit, 2);
    BootMaps(empty, PenaltyCredit, 5);
  }

  /** No administrator has changed the mapping. */
  ghost predicate NeverRemapped(actions: seq<Action>) {
    forall i :: 0 <= i < |actions| ==> !actions[i].SetMapping?
  }

  lemma MappingKept(l: Books, a: Action, key: MappingKey, code: string, kind: AccountType)
    requires Sound(l) && !a.SetMapping? && MapsTo(l, key, code, kind)
    ensures MapsTo(Next(l, a), key, code, kind)
  {
    hide AfterResolve, Resolved, Booted;
    NextSound(l, a);
    if a.Boot? {
      BootSound(l);
    } else if (a.ResolveDebit? || a.ResolveCredit?) && a.call < |l.calls| && l.calls[a.call].stage.Resolving? {
      ResolvedLength(l, a.call, a.ResolveDebit?);
    }
  }

  lemma MappingsKept(l: Books, a: Action)
    requires Sound(l) && !a.SetMapping? && MappedAsSeeded(l)
    ensures MappedAsSeeded(Next(l, a))
  {
    hide Next, Sound, MapsTo;
    MappingKept(l, a, DisbursementDebit, "1020", Asset);
    MappingKept(l, a, DisbursementCredit, "1010", Asset);
    MappingKept(l, a, RepaymentDebit, "1010", Asset);
    MappingKept(l, a, RepaymentCredit, "1020", Asset);
    MappingKept(l, a, FeeCollectionDebit, "1010", Asset);
    MappingKept(l, a, FeeCollectionCredit, "4010", Income);
    MappingKept(l, a, PenaltyDebit, "1030", Asset);
    MappingKept(l, a, PenaltyCredit, "4030", Income);
  }

  /** From the first boot on, every kind of posting goes between the accounts it was seeded for, until someone remaps it. */
  lemma {:induction false} RunMappedAsSeeded(empty: Books, actions: seq<Action>)
    requires Empty(empty) && NeverRemapped(actions)
    ensures MappedAsSeeded(Run(Booted(empty), actions)) && Sound(Run(Booted(empty), actions))
  {
    hide Next, Booted, Sound, MappedAsSeeded;
    if actions == [] {
      BootMapsAll(empty);
    } else {
      var front := actions[..|actions| - 1];
      RunMappedAsSeeded(empty, front);
      MappingsKept(Run(Booted(empty), front), actions[|actions| - 1]);
    }
    assert Sound(Run(Booted(empty), actions)) by {
      ReachableSound(Run(Booted(empty), actions));
    }
  }

  // ---------------------------------------------------------------- what a posting does to the balances

  /** A posting with nobody else in between. */
  function PostSteps(k: nat, p: Posting, now: int): seq<Action> {
    [BeginPosting(p)] + [ResolveDebit(k)] + [ResolveCredit(k)] + [Find(k)] + [Insert(k, now)]
  }

  lemma RunStep(l: Books, front: seq<Action>, a: Action)
    ensures Run(l, front + [a]) == Next(Run(l, front), a)
  {
    assert (front + [a])[..|front|] == front;
  }

  lemma PostsUnrolled(l: Books, p: Posting, now: int)
    ensures var k := |l.calls|;
            Run(l, PostSteps(k, p, now))
            == Next(Next(Next(Next(Next(l, BeginPosting(p)), ResolveDebit(k)), ResolveCredit(k)), Find(k)), Insert(k, now))
  {
    hide Next;
    var k := |l.calls|;
    var s1 := [BeginPosting(p)];
    var s2 := s1 + [ResolveDebit(k)];
    var s3 := s2 + [ResolveCredit(k)];
    var s4 := s3 + [Find(k)];
    RunStep(l, [], BeginPosting(p));
    assert [] + s1 == s1;
    RunStep(l, s1, ResolveDebit(k));
    RunStep(l, s2, ResolveCredit(k));
    RunStep(l, s3, Find(k));
    RunStep(l, s4, Insert(k, now));
  }

  lemma PostsLookups(l: Books, p: Posting)
    requires DebitKey(p.kind) in l.mappings && CreditKey(p.kind) in l.mappings
    ensures var k := |l.calls|;
            var lines := Transfer(l.mappings[DebitKey(p.kind)], l.mappings[CreditKey(p.kind)], p.amountKobo);
            Next(Next(Next(l, BeginPosting(p)), ResolveDebit(k)), ResolveCredit(k)) == l.(calls := l.calls + [Call(p, Finding(lines))])
  {
    var k, debit, credit := |l.calls|, l.mappings[DebitKey(p.kind)], l.mappings[CreditKey(p.kind)];
    TransferBalanced(debit, credit, p.amountKobo);
    hide Booted;
    var m := l.(calls := l.calls + [Call(p, Resolving(None, None))]);
    assert Next(l, BeginPosting(p)) == m;
    var n := l.(calls := l.calls + [Call(p, Resolving(Some(debit), None))]);
    assert Next(m, ResolveDebit(k)) == n;
    assert Next(n, ResolveCredit(k)).calls == l.calls + [Call(p, Finding(Transfer(debit, credit, p.amountKobo)))];
  }

  lemma PostsInsert(l: Books, p: Posting, lines: seq<Line>, now: int)
    requires FindRef(l.entries, RefOf(p)).None?
    ensures var k, m := |l.calls|, l.(calls := l.calls + [Call(p, Finding(lines))]);
            var n := Next(Next(m, Find(k)), Insert(k, now));
            n.accounts == l.accounts && n.entries == l.entries + [EntryFor(p, lines, now)]
  {
    var k, m := |l.calls|, l.(calls := l.calls + [Call(p, Finding(lines))]);
    assert Next(m, Find(k)) == l.(calls := l.calls + [Call(p, Inserting(lines))]);
  }

  lemma PostsEntry(l: Books, p: Posting, now: int)
    requires Sound(l) && FindRef(l.entries, RefOf(p)).None?
    ensures DebitKey(p.kind) in l.mappings && CreditKey(p.kind) in l.mappings
    ensures var m := Run(l, PostSteps(|l.calls|, p, now));
            var e := EntryFor(p, Transfer(l.mappings[DebitKey(p.kind)], l.mappings[CreditKey(p.kind)], p.amountKobo), now);
            m.accounts == l.accounts && m.entries == l.entries + [e]
  {
    EveryKeyListed(DebitKey(p.kind));
    EveryKeyListed(CreditKey(p.kind));
    assert DebitKey(p.kind) in l.mappings && CreditKey(p.kind) in l.mappings;
    hide Next, Run, Sound;
    PostsUnrolled(l, p, now);
    PostsLookups(l, p);
    PostsInsert(l, p, Transfer(l.mappings[DebitKey(p.kind)], l.mappings[CreditKey(p.kind)], p.amountKobo), now);
  }

  lemma OwnLinesMoved(e: Entry, debit: AccountId, credit: AccountId, amount: int, a: AccountId)
    requires Moves(e.lines, debit, credit, amount)
    ensures TrialBalance.OwnLines(Debit(), a)(e) == if a == debit then amount else 0
    ensures TrialBalance.OwnLines(Credit(), a)(e) == if a == credit then amount else 0
  {
    assert e.lines == [e.lines[0]] + [e.lines[1]];
    SumSnoc(TrialBalance.OnAccount(Debit(), a), [e.lines[0]], e.lines[1]);
    SumSnoc(TrialBalance.OnAccount(Credit(), a), [e.lines[0]], e.lines[1]);
    SumOne(TrialBalance.OnAccount(Debit(), a), e.lines[0]);
    SumOne(TrialBalance.OnAccount(Credit(), a), e.lines[0]);
  }

  /** How a posting of one kobo changes the balance of the account with this code in the seeded chart. */
  function ChangeOf(kind: PostingKind, code: string): int {
    match kind
    case ForDisbursement => if code == "1020" then 1 else if code == "1010" then -1 else 0
    case ForRepayment => if code == "1010" then 1 else if code == "1020" then -1 else 0
    case ForFee => if code == "1010" || code == "4010" then 1 else 0
    case ForPenaltyCharge | ForLiquidationDelay => if code == "1030" || code == "4030" then 1 else 0
  }

  lemma SeededChange(l: Books, kind: PostingKind, a: AccountId, amount: int)
    requires AccountsSound(l.accounts) && MappedAsSeeded(l) && a < |l.accounts|
    ensures DebitKey(kind) in l.mappings && CreditKey(kind) in l.mappings
    ensures TrialBalance.NaturalBalance(l.accounts[a].kind, if a == l.mappings[DebitKey(kind)] then amount else 0,
                                        if a == l.mappings[CreditKey(kind)] then amount else 0)
            == amount * ChangeOf(kind, l.accounts[a].code)
  {
    var debit, credit := l.mappings[DebitKey(kind)], l.mappings[CreditKey(kind)];
    assert a == debit <==> l.accounts[a].code == l.accounts[debit].code;
    assert a == credit <==> l.accounts[a].code == l.accounts[credit].code;
  }

  lemma BalanceOfRow(l: Books, a: AccountId, asOf: Option<int>)
    requires AccountsSound(l.accounts) && a < |l.accounts|
    ensures TrialBalance.GetAccountBalance(l, a, asOf)
            == Some(TrialBalance.RowFor(l.entries, l.accounts[a], TrialBalance.Filter(asOf, None)).balanceKobo)
  {
  }

  /**
   * With the mappings as seeded, from the day of the posting on: a disbursement raises Loans Receivable (1020) and
   * lowers Cash (1010), a repayment does the reverse, a fee raises Cash and Fee Income (4010), a penalty raises
   * Penalty Receivable (1030) and Penalty Income (4030), each by exactly the amount; nothing else moves.
   */
  lemma PostingMovesBalances(empty: Books, actions: seq<Action>, p: Posting, now: int, a: AccountId, asOf: Option<int>)
    requires Empty(empty) && NeverRemapped(actions)
    requires var l := Run(Booted(empty), actions); FindRef(l.entries, RefOf(p)).None? && a < |l.accounts|
    ensures var l := Run(Booted(empty), actions);
            var m := Run(l, PostSteps(|l.calls|, p, now));
            && TrialBalance.GetAccountBalance(l, a, asOf).Some? && TrialBalance.GetAccountBalance(m, a, asOf).Some?
            && TrialBalance.GetAccountBalance(m, a, asOf).value - TrialBalance.GetAccountBalance(l, a, asOf).value
               == if asOf.Some? && asOf.value < now then 0 else p.amountKobo * ChangeOf(p.kind, l.accounts[a].code)
  {
    RunMappedAsSeeded(empty, actions);
    var l := Run(Booted(empty), actions);
    PostMoves(l, p, now, a, asOf);
  }

  lemma PostMoves(l: Books, p: Posting, now: int, a: AccountId, asOf: Option<int>)
    requires Sound(l) && MappedAsSeeded(l) && FindRef(l.entries, RefOf(p)).None? && a < |l.accounts|
    ensures var m := Run(l, PostSteps(|l.calls|, p, now));
            && TrialBalance.GetAccountBalance(l, a, asOf).Some? && TrialBalance.GetAccountBalance(m, a, asOf).Some?
            && TrialBalance.GetAccountBalance(m, a, asOf).value - TrialBalance.GetAccountBalance(l, a, asOf).value
               == if asOf.Some? && asOf.value < now then 0 else p.amountKobo * ChangeOf(p.kind, l.accounts[a].code)
  {
    hide Next, Run, MappedAsSeeded, TrialBalance.RowFor, TrialBalance.GetAccountBalance, TrialBalance.NaturalBalance;
    hide ChangeOf, DebitKey, CreditKey, Transfer, Moves;
    PostsEntry(l, p, now);
    var m, debit, credit := Run(l, PostSteps(|l.calls|, p, now)), l.mappings[DebitKey(p.kind)], l.mappings[CreditKey(p.kind)];
    var e := EntryFor(p, Transfer(debit, credit, p.amountKobo), now);
    TransferMoves(debit, credit, p.amountKobo);
    OwnLinesMoved(e, debit, credit, p.amountKobo, a);
    TrialBalance.EntryMovesRow(l.entries, e, l.accounts[a], TrialBalance.Filter(asOf, None));
    BalanceOfRow(l, a, asOf);
    BalanceOfRow(m, a, asOf);
    SeededChange(l, p.kind, a, p.amountKobo);
  }
}
