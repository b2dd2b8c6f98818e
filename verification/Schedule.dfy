/** Repayment schedules: instalment count, due dates, balance bookkeeping, and re-anchoring at a cheque handover. */
module Schedule {
  import opened Common
  import opened Interest

  type Positive = x: int | x >= 1 witness 1

  datatype InterestType = Flat | Reducing

  datatype Product = Product(
    interestRate: nat, interestType: InterestType, repaymentPeriodDays: Positive,
    tenureOptions: seq<int>, minGroupSize: int)

  datatype ScheduleEntry = ScheduleEntry(
    installmentNumber: int, dueDate: int, openingBalance: int,
    principalPortion: int, interestPortion: int, totalDue: int, closingBalance: int)

  /** What fixes the due dates: where counting starts (an instant in milliseconds), how often, how long. */
  datatype Terms = Terms(anchor: int, period: Positive, tenure: int)

  const MS_PER_DAY := 86_400_000

  function AddDays(date: int, days: int): int {
    date + days * MS_PER_DAY
  }

  function CeilDiv(a: int, b: Positive): int {
    (a + b - 1) / b
  }

  function InstallmentCount(tenure: int, period: Positive): Positive {
    var c := CeilDiv(tenure, period);
    if c < 1 then 1 else c
  }

  /** Days from the anchor to instalment `k` of `n`; the last falls exactly at the tenure. */
  function DueOffset(k: int, n: int, period: Positive, tenure: int): int {
    if k == n then tenure else k * period
  }

  function DueDate(k: int, n: int, terms: Terms): int {
    AddDays(terms.anchor, DueOffset(k, n, terms.period, terms.tenure))
  }

  // ---------------------------------------------------------------- due dates

  function Offsets(n: nat, period: Positive, tenure: int): (s: seq<int>)
    ensures |s| == n
  {
    seq(n, i => DueOffset(i + 1, n, period, tenure))
  }

  /** Days between due date `i` and the one before it, or the anchor. */
  function Gap(offsets: seq<int>, i: nat): int
    requires i < |offsets|
  {
    offsets[i] - (if i == 0 then 0 else offsets[i - 1])
  }

  /** A repayment plan: steps of 1 to `period` days from the anchor, the last one exactly at the tenure. */
  ghost predicate CoversTenure(offsets: seq<int>, period: int, tenure: int) {
    && offsets != []
    && offsets[|offsets| - 1] == tenure
    && (forall i :: 0 <= i < |offsets| ==> 1 <= Gap(offsets, i) <= period)
  }

  lemma CancelFactor(a: int, b: int, p: Positive)
    requires a * p < b * p
    ensures a < b
  {
    assert (b - a) * p == b * p - a * p;
  }

  lemma CeilBounds(tenure: int, period: Positive)
    ensures (CeilDiv(tenure, period) - 1) * period < tenure <= CeilDiv(tenure, period) * period
    ensures tenure >= 1 ==> CeilDiv(tenure, period) >= 1
  {
    var c := CeilDiv(tenure, period);
    assert tenure + period - 1 == c * period + (tenure + period - 1) % period;
    assert (c - 1) * period == c * period - period;
    if tenure >= 1 {
      CancelFactor(0, c, period);
    }
  }

  /** The computed count and due dates form a plan for the tenure. */
  lemma DueDatesCoverTenure(tenure: Positive, period: Positive)
    ensures CoversTenure(Offsets(InstallmentCount(tenure, period), period, tenure), period, tenure)
  {
    var n := InstallmentCount(tenure, period);
    CeilBounds(tenure, period);
    var s := Offsets(n, period, tenure);
    forall i | 0 <= i < n
      ensures 1 <= Gap(s, i) <= period
    {
      assert i * period + period == (i + 1) * period;
      if i == n - 1 {
        assert (n - 1) * period < tenure <= n * period;
      }
    }
  }

  lemma {:induction false} StepsBound(offsets: seq<int>, period: Positive, m: nat)
    requires m < |offsets|
    requires forall i :: 0 <= i < |offsets| ==> 1 <= Gap(offsets, i) <= period
    ensures offsets[m] <= (m + 1) * period
  {
    if m == 0 {
      assert Gap(offsets, 0) <= period;
    } else {
      StepsBound(offsets, period, m - 1);
      assert Gap(offsets, m) <= period;
      assert (m + 1) * period == m * period + period;
    }
  }

  /** No plan for the tenure has fewer instalments. */
  lemma InstallmentCountMinimal(offsets: seq<int>, tenure: int, period: Positive)
    requires CoversTenure(offsets, period, tenure)
    ensures |offsets| >= InstallmentCount(tenure, period)
  {
    StepsBound(offsets, period, |offsets| - 1);
    CeilBounds(tenure, period);
    CancelFactor(CeilDiv(tenure, period) - 1, |offsets|, period);
  }

  // ---------------------------------------------------------------- building a schedule

  /** The balances telescope from the principal to zero and each total is principal plus interest. */
  ghost predicate Telescopes(s: seq<ScheduleEntry>, principal: int) {
    && s != []
    && s[0].openingBalance == principal
    && s[|s| - 1].closingBalance == 0
    && (forall i :: 0 <= i < |s| ==> s[i].openingBalance - s[i].closingBalance == s[i].principalPortion)
    && (forall i :: 0 < i < |s| ==> s[i].openingBalance == s[i - 1].closingBalance)
    && (forall i :: 0 <= i < |s| ==> s[i].totalDue == s[i].principalPortion + s[i].interestPortion)
    && (forall i :: 0 <= i < |s| ==> s[i].installmentNumber == i + 1)
  }

  ghost predicate DatedBy(s: seq<ScheduleEntry>, terms: Terms) {
    forall i :: 0 <= i < |s| ==> s[i].dueDate == DueDate(s[i].installmentNumber, |s|, terms)
  }

  /** The principal repaid by the first `i` instalments. */
  function PaidDown(s: seq<FlatInstallment>, i: nat): int
    requires i <= |s|
  {
    Sum(FlatPrincipal(), s[..i])
  }

  lemma PaidDownStep(s: seq<FlatInstallment>, i: nat)
    requires i < |s|
    ensures PaidDown(s, i + 1) == PaidDown(s, i) + s[i].principalPortion
  {
    assert s[..i + 1] == s[..i] + [s[i]];
    SumSnoc(FlatPrincipal(), s[..i], s[i]);
  }

  /** One flat instalment with its balances: the opening balance is the principal not yet paid down. */
  function WithBalances(s: seq<FlatInstallment>, i: nat, principal: int, terms: Terms): ScheduleEntry
    requires i < |s|
  {
    ScheduleEntry(s[i].installmentNumber, DueDate(s[i].installmentNumber, |s|, terms),
                  principal - PaidDown(s, i),
                  s[i].principalPortion, s[i].interestPortion, s[i].totalDue,
                  principal - PaidDown(s, i + 1))
  }

  function NormalizedFlat(s: seq<FlatInstallment>, principal: int, terms: Terms): (r: seq<ScheduleEntry>)
    ensures |r| == |s|
  {
    seq(|s|, i requires 0 <= i < |s| => WithBalances(s, i, principal, terms))
  }

  function NormalizedReducing(s: seq<ReducingInstallment>, terms: Terms): (r: seq<ScheduleEntry>)
    ensures |r| == |s|
  {
    seq(|s|, i requires 0 <= i < |s| =>
      ScheduleEntry(s[i].installmentNumber, DueDate(s[i].installmentNumber, |s|, terms),
                    s[i].openingBalance, s[i].principalPortion, s[i].interestPortion,
                    s[i].totalDue, s[i].closingBalance))
  }

  method NormalizeFlat(s: seq<FlatInstallment>, principalKobo: int, terms: Terms) returns (r: seq<ScheduleEntry>)
    ensures r == NormalizedFlat(s, principalKobo, terms)
  {
    var outstanding := principalKobo;
    r := [];
    for i := 0 to |s|
      invariant outstanding == principalKobo - PaidDown(s, i)
      invariant r == NormalizedFlat(s, principalKobo, terms)[..i]
    {
      PaidDownStep(s, i);
      var openingBalance := outstanding;
      outstanding := outstanding - s[i].principalPortion;
      r := r + [ScheduleEntry(s[i].installmentNumber, DueDate(s[i].installmentNumber, |s|, terms),
                              openingBalance, s[i].principalPortion, s[i].interestPortion,
                              s[i].totalDue, outstanding)];
    }
  }

  /** The schedule a disbursement writes for one member. */
  function BuildSchedule(product: Product, principal: nat, tenure: int, anchor: int): (r: seq<ScheduleEntry>)
    ensures |r| == InstallmentCount(tenure, product.repaymentPeriodDays)
  {
    var n := InstallmentCount(tenure, product.repaymentPeriodDays);
    var terms := Terms(anchor, product.repaymentPeriodDays, tenure);
    match product.interestType
    case Flat => NormalizedFlat(FlatSchedule(principal, product.interestRate, n), principal, terms)
    case Reducing => NormalizedReducing(ReducingSchedule(principal, product.interestRate, n), terms)
  }

  method GenerateSchedule(product: Product, principal: nat, tenure: int, anchor: int) returns (r: seq<ScheduleEntry>)
    ensures r == BuildSchedule(product, principal, tenure, anchor)
  {
    var n := InstallmentCount(tenure, product.repaymentPeriodDays);
    var terms := Terms(anchor, product.repaymentPeriodDays, tenure);
    match product.interestType
    case Flat =>
      var result := CalculateFlatInterestSchedule(principal, product.interestRate, n);
      r := NormalizeFlat(result.value.schedule, principal, terms);
    case Reducing =>
      var result := CalculateReducingBalanceSchedule(principal, product.interestRate, n);
      r := NormalizedReducing(result.value, terms);
  }

  function EntryPrincipal(): ScheduleEntry -> int { (e: ScheduleEntry) => e.principalPortion }
  function EntryInterest(): ScheduleEntry -> int { (e: ScheduleEntry) => e.interestPortion }
  function EntryDue(): ScheduleEntry -> int { (e: ScheduleEntry) => e.totalDue }

  /** The balances of `r` are those of the flat instalments `s` paid down from `principal`. */
  ghost predicate CarriesBalances(r: seq<ScheduleEntry>, s: seq<FlatInstallment>, principal: int) {
    && |r| == |s|
    && (forall i :: 0 <= i < |s| ==> r[i].openingBalance == principal - PaidDown(s, i))
    && (forall i :: 0 <= i < |s| ==> r[i].closingBalance == r[i].openingBalance - r[i].principalPortion)
    && (forall i :: 0 <= i < |s| ==> r[i].installmentNumber == s[i].installmentNumber)
    && (forall i :: 0 <= i < |s| ==> r[i].principalPortion == s[i].principalPortion)
    && (forall i :: 0 <= i < |s| ==> r[i].interestPortion == s[i].interestPortion)
    && (forall i :: 0 <= i < |s| ==> r[i].totalDue == s[i].totalDue)
  }

  lemma NormalizedFlatCarriesBalances(s: seq<FlatInstallment>, principal: int, terms: Terms)
    ensures CarriesBalances(NormalizedFlat(s, principal, terms), s, principal)
  {
    forall i: nat | i < |s|
      ensures PaidDown(s, i + 1) == PaidDown(s, i) + s[i].principalPortion
    {
      PaidDownStep(s, i);
    }
  }

  lemma FlatTelescopes(r: seq<ScheduleEntry>, s: seq<FlatInstallment>, principal: int)
    requires s != [] && Sum(FlatPrincipal(), s) == principal && CarriesBalances(r, s, principal)
    requires forall i :: 0 <= i < |s| ==>
               s[i].installmentNumber == i + 1 && s[i].totalDue == s[i].principalPortion + s[i].interestPortion
    ensures Telescopes(r, principal) && Sum(EntryPrincipal(), r) == principal
  {
    SumEqual(EntryPrincipal(), r, FlatPrincipal(), s);
    assert s[..|s|] == s;
    PaidDownStep(s, |s| - 1);
    forall i: nat | 0 < i < |s|
      ensures r[i].openingBalance == r[i - 1].closingBalance
    {
      PaidDownStep(s, i - 1);
    }
  }

  lemma ReducingTelescopes(principal: nat, rate: nat, n: nat, terms: Terms)
    requires n >= 1
    ensures var r := NormalizedReducing(ReducingSchedule(principal, rate, n), terms);
            Telescopes(r, principal) && Sum(EntryPrincipal(), r) == principal
  {
    var s := ReducingSchedule(principal, rate, n);
    ReducingScheduleExact(principal, rate, n);
    SumEqual(EntryPrincipal(), NormalizedReducing(s, terms), ReducingPrincipal(), s);
  }

  lemma FlatBuildSound(principal: nat, rate: nat, n: nat, terms: Terms)
    requires n >= 1
    ensures var r := NormalizedFlat(FlatSchedule(principal, rate, n), principal, terms);
            Telescopes(r, principal) && Sum(EntryPrincipal(), r) == principal
  {
    var f := FlatSchedule(principal, rate, n);
    FlatScheduleExact(principal, rate, n);
    NormalizedFlatCarriesBalances(f, principal, terms);
    FlatTelescopes(NormalizedFlat(f, principal, terms), f, principal);
  }

  lemma BuiltScheduleDated(product: Product, principal: nat, tenure: int, anchor: int)
    ensures DatedBy(BuildSchedule(product, principal, tenure, anchor),
                    Terms(anchor, product.repaymentPeriodDays, tenure))
  {
  }

  /**
   * Under either interest type a built schedule telescopes, is dated by the product's period and the
   * loan's tenure, repays exactly the principal, and its totals add up to the principal plus all interest.
   */
  lemma BuiltScheduleSound(product: Product, principal: nat, tenure: int, anchor: int)
    ensures var s := BuildSchedule(product, principal, tenure, anchor);
            && Telescopes(s, principal)
            && DatedBy(s, Terms(anchor, product.repaymentPeriodDays, tenure))
            && Sum(EntryPrincipal(), s) == principal
            && Sum(EntryDue(), s) == principal + Sum(EntryInterest(), s)
  {
    var n := InstallmentCount(tenure, product.repaymentPeriodDays);
    var terms := Terms(anchor, product.repaymentPeriodDays, tenure);
    var s := BuildSchedule(product, principal, tenure, anchor);
    match product.interestType {
      case Flat => FlatBuildSound(principal, product.interestRate, n, terms);
      case Reducing => ReducingTelescopes(principal, product.interestRate, n, terms);
    }
    BuiltScheduleDated(product, principal, tenure, anchor);
    SumPlus(EntryPrincipal(), EntryInterest(), EntryDue(), s);
  }

  /** Under a flat rate the schedule charges exactly that share of the principal. */
  lemma FlatBuildAmount(product: Product, principal: nat, tenure: int, anchor: int)
    requires product.interestType.Flat?
    ensures var t := Sum(EntryInterest(), BuildSchedule(product, principal, tenure, anchor));
            10000 * t <= principal * product.interestRate + 5000 < 10000 * (t + 1)
  {
    var n := InstallmentCount(tenure, product.repaymentPeriodDays);
    var f := FlatSchedule(principal, product.interestRate, n);
    FlatInterestAmount(principal, product.interestRate, n);
    SumEqual(EntryInterest(), BuildSchedule(product, principal, tenure, anchor), FlatInterest(), f);
  }

  /** Under a reducing one every instalment charges its share of the balance before it. */
  lemma ReducingBuildAmounts(product: Product, principal: nat, tenure: int, anchor: int)
    requires product.interestType.Reducing?
    ensures var s := BuildSchedule(product, principal, tenure, anchor);
            forall i :: 0 <= i < |s| ==>
              10000 * |s| * s[i].interestPortion <= s[i].openingBalance * product.interestRate + 5000 * |s|
              < 10000 * |s| * (s[i].interestPortion + 1)
  {
    var n := InstallmentCount(tenure, product.repaymentPeriodDays);
    var s, r := BuildSchedule(product, principal, tenure, anchor), ReducingSchedule(principal, product.interestRate, n);
    ReducingInterestAmounts(principal, product.interestRate, n);
    assert forall i :: 0 <= i < n ==> s[i].interestPortion == r[i].interestPortion && s[i].openingBalance == r[i].openingBalance;
  }

  /** Instalment `i + 1` is due that many periods of 86,400,000 milliseconds after the anchor; the last when the tenure ends. */
  lemma DueInMilliseconds(product: Product, principal: nat, tenure: int, anchor: int, i: nat)
    requires i < |BuildSchedule(product, principal, tenure, anchor)|
    ensures var s := BuildSchedule(product, principal, tenure, anchor);
            s[i].dueDate == anchor + 86_400_000 * if i == |s| - 1 then tenure else (i + 1) * product.repaymentPeriodDays
  {
    BuiltScheduleSound(product, principal, tenure, anchor);
  }

  /** The interest shown for a member before any schedule exists. */
  function EstimatedInterest(product: Product, principal: nat, tenure: int): int {
    var n := InstallmentCount(tenure, product.repaymentPeriodDays);
    match product.interestType
    case Flat => FlatTotalInterest(principal, product.interestRate)
    case Reducing => Sum(ReducingInterest(), ReducingSchedule(principal, product.interestRate, n))
  }

  /** The estimate is the interest the schedule will contain, whenever it is built. */
  lemma EstimateMatchesSchedule(product: Product, principal: nat, tenure: int, anchor: int)
    ensures EstimatedInterest(product, principal, tenure)
            == Sum(EntryInterest(), BuildSchedule(product, principal, tenure, anchor))
  {
    var n := InstallmentCount(tenure, product.repaymentPeriodDays);
    var s := BuildSchedule(product, principal, tenure, anchor);
    match product.interestType {
      case Flat =>
        FlatScheduleExact(principal, product.interestRate, n);
        SumEqual(EntryInterest(), s, FlatInterest(), FlatSchedule(principal, product.interestRate, n));
      case Reducing =>
        SumEqual(EntryInterest(), s, ReducingInterest(), ReducingSchedule(principal, product.interestRate, n));
    }
  }

  // ---------------------------------------------------------------- re-anchoring

  /** Every due date recomputed from new terms, the amounts kept. */
  function Reanchored(s: seq<ScheduleEntry>, terms: Terms): (r: seq<ScheduleEntry>)
    ensures |r| == |s|
  {
    seq(|s|, i requires 0 <= i < |s| =>
      s[i].(dueDate := DueDate(s[i].installmentNumber, |s|, terms)))
  }

  method ReanchorInPlace(entries: array<ScheduleEntry>, terms: Terms)
    modifies entries
    ensures entries[..] == Reanchored(old(entries[..]), terms)
  {
    var installmentCount := entries.Length;
    for i := 0 to entries.Length
      invariant entries[..i] == Reanchored(old(entries[..]), terms)[..i]
      invariant entries[i..] == old(entries[..])[i..]
    {
      var entry := entries[i];
      assert entry == old(entries[..])[i..][0];
      entries[i] := entry.(dueDate := DueDate(entry.installmentNumber, installmentCount, terms));
    }
  }

  /** Re-anchoring moves due dates only: balances, totals and their sums are untouched. */
  lemma ReanchorKeepsAmounts(s: seq<ScheduleEntry>, principal: int, terms: Terms)
    requires Telescopes(s, principal)
    ensures Telescopes(Reanchored(s, terms), principal) && DatedBy(Reanchored(s, terms), terms)
    ensures Sum(EntryPrincipal(), Reanchored(s, terms)) == Sum(EntryPrincipal(), s)
    ensures Sum(EntryInterest(), Reanchored(s, terms)) == Sum(EntryInterest(), s)
    ensures Sum(EntryDue(), Reanchored(s, terms)) == Sum(EntryDue(), s)
  {
    var r := Reanchored(s, terms);
    SumEqual(EntryPrincipal(), r, EntryPrincipal(), s);
    SumEqual(EntryInterest(), r, EntryInterest(), s);
    SumEqual(EntryDue(), r, EntryDue(), s);
  }

  /**
   * A handover re-dates the schedule to the one built fresh on the handover date exactly when the
   * product's repayment period is still the one at disbursement, or there is a single instalment.
   */
  lemma HandoverIsFreshScheduleIff(product: Product, principal: nat, tenure: int,
                                   disbursed: int, handover: int, period: Positive)
    ensures Reanchored(BuildSchedule(product, principal, tenure, disbursed), Terms(handover, period, tenure))
            == BuildSchedule(product, principal, tenure, handover)
            <==> period == product.repaymentPeriodDays || InstallmentCount(tenure, product.repaymentPeriodDays) == 1
  {
    var n := InstallmentCount(tenure, product.repaymentPeriodDays);
    var s, fresh' := BuildSchedule(product, principal, tenure, disbursed), BuildSchedule(product, principal, tenure, handover);
    var r := Reanchored(s, Terms(handover, period, tenure));
    BuiltScheduleSound(product, principal, tenure, disbursed);
    BuiltScheduleSound(product, principal, tenure, handover);
    SameAmounts(product, principal, tenure, disbursed, handover);
    if n > 1 {
      assert r[0].dueDate == AddDays(handover, 1 * period);
      assert fresh'[0].dueDate == AddDays(handover, 1 * product.repaymentPeriodDays);
    }
  }

  lemma SameAmounts(product: Product, principal: nat, tenure: int, d0: int, d1: int)
    ensures var s, t := BuildSchedule(product, principal, tenure, d0), BuildSchedule(product, principal, tenure, d1);
            && (forall i :: 0 <= i < |s| ==> t[i] == s[i].(dueDate := t[i].dueDate))
            && (forall i :: 0 <= i < |s| ==> t[i].dueDate - s[i].dueDate == d1 - d0)
  {
  }

  /** With the period unchanged, a handover shifts every due date by the delay between the two dates. */
  lemma HandoverShiftsUniformly(product: Product, principal: nat, tenure: int, disbursed: int, handover: int)
    ensures var s := BuildSchedule(product, principal, tenure, disbursed);
            var r := Reanchored(s, Terms(handover, product.repaymentPeriodDays, tenure));
            forall i :: 0 <= i < |s| ==> r[i].dueDate - s[i].dueDate == handover - disbursed
  {
    HandoverIsFreshScheduleIff(product, principal, tenure, disbursed, handover, product.repaymentPeriodDays);
    SameAmounts(product, principal, tenure, disbursed, handover);
  }

  /**
   * If the product's period was changed between disbursement and handover, the new due dates keep
   * increasing exactly when the last-but-one still falls before the tenure ends.
   */
  lemma ReanchoredIncreasingIff(s: seq<ScheduleEntry>, principal: int, terms: Terms)
    requires Telescopes(s, principal)
    ensures var r := Reanchored(s, terms);
            (forall i :: 0 < i < |r| ==> r[i - 1].dueDate < r[i].dueDate)
            <==> |s| == 1 || (|s| - 1) * terms.period < terms.tenure
  {
    var r, n := Reanchored(s, terms), |s|;
    forall i | 0 < i < n - 1
      ensures r[i - 1].dueDate < r[i].dueDate
    {
      assert (i + 1) * terms.period == i * terms.period + terms.period;
      assert r[i - 1].dueDate == AddDays(terms.anchor, i * terms.period);
      assert r[i].dueDate == AddDays(terms.anchor, (i + 1) * terms.period);
    }
    if n > 1 {
      assert r[n - 2].dueDate == AddDays(terms.anchor, (n - 1) * terms.period);
      assert r[n - 1].dueDate == AddDays(terms.anchor, terms.tenure);
    }
  }
}
