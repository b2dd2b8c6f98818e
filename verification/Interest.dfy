/** The two interest calculations a repayment schedule is built from. Amounts are kobo, rates basis points. */
module Interest {
  import opened Common

  datatype FlatInstallment = FlatInstallment(
    installmentNumber: int, principalPortion: int, interestPortion: int, totalDue: int)

  datatype FlatResult = FlatResult(
    installmentAmountKobo: int, totalInterestKobo: int, schedule: seq<FlatInstallment>)

  datatype ReducingInstallment = ReducingInstallment(
    installmentNumber: int, openingBalance: int, interestPortion: int,
    principalPortion: int, closingBalance: int, totalDue: int)

  datatype CalculationError = NegativePrincipal | NegativeRate | NonPositiveCount

  function CheckArguments(principal: int, rate: int, count: int): Option<CalculationError> {
    if principal < 0 then Some(NegativePrincipal)
    else if rate < 0 then Some(NegativeRate)
    else if count <= 0 then Some(NonPositiveCount)
    else None
  }

  /** Rounds to the nearest integer, a half going up; negative halves go up too. */
  function RoundHalfUp(x: real): int {
    (x + 0.5).Floor
  }

  lemma RoundMonotone(x: real, y: real)
    requires x <= y
    ensures RoundHalfUp(x) <= RoundHalfUp(y)
  {
  }

  /** One instalment's interest on the balance still owed. */
  function InterestOn(balance: int, r: real): int {
    RoundHalfUp(balance as real * r)
  }

  lemma InterestMonotone(a: int, b: int, r: real)
    requires a <= b && r >= 0.0
    ensures InterestOn(a, r) <= InterestOn(b, r)
  {
    var x, y := a as real * r, b as real * r;
    assert y - x == (b - a) as real * r;
    RoundMonotone(x, y);
  }

  // ---------------------------------------------------------------- flat rate

  function FlatTotalInterest(principal: nat, rate: nat): (interest: nat) {
    assert ((principal * rate) as real / 10000.0 + 0.5) >= 0.0;
    RoundHalfUp((principal * rate) as real / 10000.0)
  }

  /** An even split of `total` over `n` installments, the last absorbing the remainder. */
  function FlatPortion(total: nat, n: nat, k: nat): int
    requires 1 <= k <= n
  {
    if k == n then total - (n - 1) * (total / n) else total / n
  }

  function FlatEntry(principal: nat, interest: nat, n: nat, k: nat): FlatInstallment
    requires 1 <= k <= n
  {
    var p, i := FlatPortion(principal, n, k), FlatPortion(interest, n, k);
    FlatInstallment(k, p, i, p + i)
  }

  function FlatSchedule(principal: nat, rate: nat, n: nat): (schedule: seq<FlatInstallment>)
    requires n >= 1
    ensures |schedule| == n
  {
    var interest := FlatTotalInterest(principal, rate);
    seq(n, i requires 0 <= i < n => FlatEntry(principal, interest, n, i + 1))
  }

  method CalculateFlatInterestSchedule(principalKobo: int, rateBasisPoints: int, installmentCount: int)
    returns (result: Result<FlatResult, CalculationError>)
    ensures result.Ok? <==> principalKobo >= 0 && rateBasisPoints >= 0 && installmentCount >= 1
    ensures match CheckArguments(principalKobo, rateBasisPoints, installmentCount)
            case Some(e) => result == Err(e)
            case None =>
              result.Ok? && result.value.totalInterestKobo == FlatTotalInterest(principalKobo, rateBasisPoints) &&
              result.value.schedule == FlatSchedule(principalKobo, rateBasisPoints, installmentCount) &&
              result.value.installmentAmountKobo == result.value.schedule[0].totalDue
  {
    if principalKobo < 0 {
      return Err(NegativePrincipal);
    }
    if rateBasisPoints < 0 {
      return Err(NegativeRate);
    }
    if installmentCount <= 0 {
      return Err(NonPositiveCount);
    }
    var totalInterestKobo := FlatTotalInterest(principalKobo, rateBasisPoints);
    var basePrincipal := principalKobo / installmentCount;
    var baseInterest := totalInterestKobo / installmentCount;
    var schedule: seq<FlatInstallment> := [];
    var principalAllocated, interestAllocated := 0, 0;
    var number := 1;
    ghost var target := FlatSchedule(principalKobo, rateBasisPoints, installmentCount);
    while number <= installmentCount
      invariant 1 <= number <= installmentCount + 1
      invariant number <= installmentCount ==> principalAllocated == (number - 1) * basePrincipal
      invariant number <= installmentCount ==> interestAllocated == (number - 1) * baseInterest
      invariant schedule == target[..number - 1]
    {
      var isLast := number == installmentCount;
      var principalPortion := if isLast then principalKobo - principalAllocated else basePrincipal;
      var interestPortion := if isLast then totalInterestKobo - interestAllocated else baseInterest;
      principalAllocated := principalAllocated + principalPortion;
      interestAllocated := interestAllocated + interestPortion;
      schedule := schedule +
        [FlatInstallment(number, principalPortion, interestPortion, principalPortion + interestPortion)];
      number := number + 1;
    }
    return Ok(FlatResult(schedule[0].totalDue, totalInterestKobo, schedule));
  }

  function FlatPrincipal(): FlatInstallment -> int { (e: FlatInstallment) => e.principalPortion }
  function FlatInterest(): FlatInstallment -> int { (e: FlatInstallment) => e.interestPortion }
  function FlatDue(): FlatInstallment -> int { (e: FlatInstallment) => e.totalDue }

  lemma {:induction false} EvenSplitPrefix(total: nat, n: nat, entries: seq<FlatInstallment>,
                                           f: FlatInstallment -> int, m: nat)
    requires m <= n - 1 && |entries| == n
    requires forall i :: 0 <= i < n ==> f(entries[i]) == FlatPortion(total, n, i + 1)
    ensures Sum(f, entries[..m]) == m * (total / n)
  {
    if m > 0 {
      EvenSplitPrefix(total, n, entries, f, m - 1);
      assert entries[..m] == entries[..m - 1] + [entries[m - 1]];
      SumSnoc(f, entries[..m - 1], entries[m - 1]);
      assert (m - 1) * (total / n) + total / n == m * (total / n);
    }
  }

  lemma EvenSplitExact(total: nat, n: nat, entries: seq<FlatInstallment>, f: FlatInstallment -> int)
    requires n >= 1 && |entries| == n
    requires forall i :: 0 <= i < n ==> f(entries[i]) == FlatPortion(total, n, i + 1)
    ensures Sum(f, entries) == total
  {
    EvenSplitPrefix(total, n, entries, f, n - 1);
    assert entries == entries[..n - 1] + [entries[n - 1]];
    SumSnoc(f, entries[..n - 1], entries[n - 1]);
  }

  /** The remainder the last installment absorbs is what integer division left over. */
  lemma LastPortionAbsorbsRemainder(total: nat, n: nat, k: nat)
    requires 1 <= k <= n
    ensures FlatPortion(total, n, k) == total / n + (if k == n then total % n else 0)
    ensures FlatPortion(total, n, k) >= 0
  {
    assert total == n * (total / n) + total % n;
    assert (n - 1) * (total / n) == n * (total / n) - total / n;
  }

  /** A flat schedule pays exactly the principal plus the whole interest, never a kobo off. */
  lemma FlatScheduleExact(principal: nat, rate: nat, n: nat)
    requires n >= 1
    ensures Sum(FlatPrincipal(), FlatSchedule(principal, rate, n)) == principal
    ensures Sum(FlatInterest(), FlatSchedule(principal, rate, n)) == FlatTotalInterest(principal, rate)
    ensures Sum(FlatDue(), FlatSchedule(principal, rate, n)) == principal + FlatTotalInterest(principal, rate)
    ensures forall i :: 0 <= i < n ==>
              var e := FlatSchedule(principal, rate, n)[i];
              e.principalPortion >= 0 && e.interestPortion >= 0 && e.totalDue == e.principalPortion + e.interestPortion
  {
    var s := FlatSchedule(principal, rate, n);
    var interest := FlatTotalInterest(principal, rate);
    EvenSplitExact(principal, n, s, FlatPrincipal());
    EvenSplitExact(interest, n, s, FlatInterest());
    SumPlus(FlatPrincipal(), FlatInterest(), FlatDue(), s);
    forall i | 0 <= i < n
      ensures s[i].principalPortion >= 0 && s[i].interestPortion >= 0
    {
      LastPortionAbsorbsRemainder(principal, n, i + 1);
      LastPortionAbsorbsRemainder(interest, n, i + 1);
    }
  }

  lemma RoundedQuotient(x: int, y: int)
    requires y > 0
    ensures var t := RoundHalfUp(x as real / y as real); 2 * y * t <= 2 * x + y < 2 * y * (t + 1)
  {
    var q := x as real / y as real;
    RoundsWithin(q);
    QuotientWithin(x, y, RoundHalfUp(q), RoundHalfUp(q) + 1);
  }

  lemma QuotientWithin(x: int, y: int, t: int, u: int)
    requires y > 0 && t as real <= x as real / y as real + 0.5 < u as real
    ensures 2 * y * t <= 2 * x + y < 2 * y * u
  {
    QuotientTimes(x as real, y as real);
    ScaleRounded(x as real / y as real, y as real, x as real, t as real, u as real);
    InWholeNumbers(x, y, t, u);
  }

  lemma RoundsWithin(q: real)
    ensures RoundHalfUp(q) as real <= q + 0.5 < (RoundHalfUp(q) + 1) as real
  {
  }

  lemma QuotientTimes(x: real, y: real)
    requires y != 0.0
    ensures (x / y) * y == x
  {
  }

  lemma InWholeNumbers(x: int, y: int, t: int, u: int)
    requires 2.0 * (y as real * t as real) <= 2.0 * x as real + y as real < 2.0 * (y as real * u as real)
    ensures 2 * y * t <= 2 * x + y < 2 * y * u
  {
    CastProduct(y, t);
    CastProduct(y, u);
    assert (2 * (y * t)) as real <= (2 * x + y) as real < (2 * (y * u)) as real;
    assert 2 * y * t == 2 * (y * t) && 2 * y * u == 2 * (y * u);
  }

  lemma CastProduct(a: int, b: int)
    ensures (a * b) as real == a as real * b as real
  {
  }

  lemma ScaleRounded(q: real, w: real, x: real, t: real, u: real)
    requires w > 0.0 && q * w == x && t <= q + 0.5 < u
    ensures 2.0 * (w * t) <= 2.0 * x + w < 2.0 * (w * u)
  {
    var h := q + 0.5;
    assert w * h == x + 0.5 * w;
    ScaleBetween(w, t, h, u);
  }

  lemma ScaleBetween(w: real, t: real, h: real, u: real)
    requires w > 0.0 && t <= h < u
    ensures w * t <= w * h < w * u
  {
    assert w * (u - h) > 0.0;
    assert w * (h - t) >= 0.0;
  }

  /** The interest a flat schedule charges is a ten-thousandth of principal times rate, rounded to the nearest kobo. */
  lemma FlatInterestAmount(principal: nat, rate: nat, n: nat)
    requires n >= 1
    ensures var t := Sum(FlatInterest(), FlatSchedule(principal, rate, n));
            10000 * t <= principal * rate + 5000 < 10000 * (t + 1)
  {
    FlatScheduleExact(principal, rate, n);
    RoundedQuotient(principal * rate, 10000);
  }

  // ---------------------------------------------------------------- reducing balance

  function Power(x: real, n: nat): (r: real)
    ensures x >= 1.0 ==> r >= 1.0
    ensures x > 1.0 && n >= 1 ==> r > 1.0
  {
    if n == 0 then 1.0 else
      var p := Power(x, n - 1);
      assert x >= 1.0 ==> x * p >= x;
      x * p
  }

  function PerInstallmentRate(rate: nat, n: nat): (r: real)
    requires n >= 1
    ensures r >= 0.0
  {
    rate as real / 10000.0 / n as real
  }

  /** One period's interest on the principal, spread by the compounding factor. */
  function Annuity(interest: real, factor: real): real
    requires factor > 1.0
  {
    interest * factor / (factor - 1.0)
  }

  /** The fixed instalment before rounding: the annuity formula, or an even split at rate zero. */
  function ExactInstallment(principal: nat, r: real, n: nat): real
    requires n >= 1 && r >= 0.0
  {
    if r == 0.0 then principal as real / n as real
    else Annuity(principal as real * r, Power(1.0 + r, n))
  }

  function ReducingEntry(opening: int, k: int, n: int, r: real, fixedDue: int): ReducingInstallment {
    var interest := InterestOn(opening, r);
    if k == n then
      ReducingInstallment(k, opening, interest, opening, 0, opening + interest)
    else
      var principal := if fixedDue - interest < 0 then 0 else fixedDue - interest;
      ReducingInstallment(k, opening, interest, principal, opening - principal, fixedDue)
  }

  /** Installments `k` to `n`, starting from balance `opening`. */
  function ReducingFrom(opening: int, k: int, n: int, r: real, fixedDue: int): (schedule: seq<ReducingInstallment>)
    decreases n - k
    ensures k <= n ==> |schedule| == n - k + 1
  {
    if k > n then []
    else
      var e := ReducingEntry(opening, k, n, r, fixedDue);
      [e] + ReducingFrom(e.closingBalance, k + 1, n, r, fixedDue)
  }

  function ReducingSchedule(principal: nat, rate: nat, n: nat): (schedule: seq<ReducingInstallment>)
    requires n >= 1
    ensures |schedule| == n
  {
    var r := PerInstallmentRate(rate, n);
    ReducingFrom(principal, 1, n, r, RoundHalfUp(ExactInstallment(principal, r, n)))
  }

  method CalculateReducingBalanceSchedule(principalKobo: int, rateBasisPoints: int, installmentCount: int)
    returns (result: Result<seq<ReducingInstallment>, CalculationError>)
    ensures result.Ok? <==> principalKobo >= 0 && rateBasisPoints >= 0 && installmentCount >= 1
    ensures match CheckArguments(principalKobo, rateBasisPoints, installmentCount)
            case Some(e) => result == Err(e)
            case None => result == Ok(ReducingSchedule(principalKobo, rateBasisPoints, installmentCount))
  {
    if principalKobo < 0 {
      return Err(NegativePrincipal);
    }
    if rateBasisPoints < 0 {
      return Err(NegativeRate);
    }
    if installmentCount <= 0 {
      return Err(NonPositiveCount);
    }
    var r := PerInstallmentRate(rateBasisPoints, installmentCount);
    var fixedDue := RoundHalfUp(ExactInstallment(principalKobo, r, installmentCount));
    var schedule: seq<ReducingInstallment> := [];
    var openingBalance := principalKobo;
    var number := 1;
    ghost var target := ReducingSchedule(principalKobo, rateBasisPoints, installmentCount);
    while number <= installmentCount
      invariant 1 <= number <= installmentCount + 1
      invariant schedule + ReducingFrom(openingBalance, number, installmentCount, r, fixedDue) == target
    {
      var isLast := number == installmentCount;
      var interestPortion := InterestOn(openingBalance, r);
      var principalPortion, totalDue;
      if isLast {
        principalPortion := openingBalance;
        totalDue := principalPortion + interestPortion;
      } else {
        totalDue := fixedDue;
        principalPortion := totalDue - interestPortion;
        if principalPortion < 0 {
          principalPortion := 0;
        }
      }
      var closingBalance := openingBalance - principalPortion;
      var entry := ReducingInstallment(number, openingBalance, interestPortion, principalPortion, closingBalance, totalDue);
      assert entry == ReducingEntry(openingBalance, number, installmentCount, r, fixedDue);
      ghost var rest := ReducingFrom(closingBalance, number + 1, installmentCount, r, fixedDue);
      assert schedule + ([entry] + rest) == (schedule + [entry]) + rest;
      schedule := schedule + [entry];
      openingBalance := closingBalance;
      number := number + 1;
    }
    assert schedule + [] == schedule;
    return Ok(schedule);
  }

  function ReducingPrincipal(): ReducingInstallment -> int { (e: ReducingInstallment) => e.principalPortion }
  function ReducingInterest(): ReducingInstallment -> int { (e: ReducingInstallment) => e.interestPortion }
  function ReducingDue(): ReducingInstallment -> int { (e: ReducingInstallment) => e.totalDue }

  /** The balances chain from `opening` down to zero and the entries are numbered from `k`. */
  ghost predicate Chains(s: seq<ReducingInstallment>, opening: int, k: int) {
    && s != []
    && s[0].openingBalance == opening
    && s[|s| - 1].closingBalance == 0
    && (forall i :: 0 <= i < |s| ==> s[i].installmentNumber == k + i)
    && (forall i :: 0 <= i < |s| ==> s[i].closingBalance == s[i].openingBalance - s[i].principalPortion)
    && (forall i :: 0 < i < |s| ==> s[i].openingBalance == s[i - 1].closingBalance)
  }

  lemma ChainsOne(e: ReducingInstallment, opening: int, k: int)
    requires e.openingBalance == opening && e.installmentNumber == k && e.closingBalance == 0 && e.principalPortion == opening
    ensures Chains([e], opening, k)
  {
  }

  lemma ChainsOn(e: ReducingInstallment, rest: seq<ReducingInstallment>, opening: int, k: int)
    requires e.openingBalance == opening && e.installmentNumber == k && e.closingBalance == opening - e.principalPortion
    requires Chains(rest, e.closingBalance, k + 1)
    ensures Chains([e] + rest, opening, k)
  {
    var s := [e] + rest;
    assert s[|s| - 1] == rest[|rest| - 1];
    forall i | 0 < i < |s|
      ensures s[i] == rest[i - 1] && s[i].openingBalance == s[i - 1].closingBalance
    {
      if i > 1 {
        assert s[i - 1] == rest[i - 2];
      }
    }
  }

  /** Whatever the rate does to the fixed instalment, the schedule is fully paid off at the end. */
  lemma {:induction false} ReducingFromChains(opening: int, k: int, n: int, r: real, fixedDue: int)
    requires k <= n
    ensures Chains(ReducingFrom(opening, k, n, r, fixedDue), opening, k)
    ensures Sum(ReducingPrincipal(), ReducingFrom(opening, k, n, r, fixedDue)) == opening
    decreases n - k
  {
    hide InterestOn, Chains;
    var e := ReducingEntry(opening, k, n, r, fixedDue);
    var rest := ReducingFrom(e.closingBalance, k + 1, n, r, fixedDue);
    assert ReducingFrom(opening, k, n, r, fixedDue) == [e] + rest;
    SumCons(ReducingPrincipal(), [e] + rest);
    assert ([e] + rest)[1..] == rest;
    if k == n {
      assert [e] + rest == [e];
      assert Sum(ReducingPrincipal(), rest) == 0;
      ChainsOne(e, opening, k);
    } else {
      ReducingFromChains(e.closingBalance, k + 1, n, r, fixedDue);
      ChainsOn(e, rest, opening, k);
    }
  }

  /** Every entry owes its principal plus its interest, and interest never rises along the schedule. */
  ghost predicate Amortizes(s: seq<ReducingInstallment>) {
    && (forall i :: 0 <= i < |s| ==> s[i].totalDue == s[i].principalPortion + s[i].interestPortion)
    && (forall i :: 0 <= i < |s| - 1 ==> s[i].principalPortion >= 0)
    && (forall i :: 0 < i < |s| ==> s[i].interestPortion <= s[i - 1].interestPortion)
  }

  /**
   * If the fixed instalment covers the first interest charge, the guard against negative
   * principal is never taken.
   */
  lemma {:induction false} ReducingFromAmortizes(opening: int, k: int, n: int, r: real, fixedDue: int)
    requires k <= n && r >= 0.0
    requires InterestOn(opening, r) <= fixedDue
    ensures Amortizes(ReducingFrom(opening, k, n, r, fixedDue))
    decreases n - k
  {
    if k < n {
      var e := ReducingEntry(opening, k, n, r, fixedDue);
      var s, rest := ReducingFrom(opening, k, n, r, fixedDue), ReducingFrom(e.closingBalance, k + 1, n, r, fixedDue);
      InterestMonotone(e.closingBalance, opening, r);
      ReducingFromAmortizes(e.closingBalance, k + 1, n, r, fixedDue);
      assert forall i :: 0 < i < |s| ==> s[i] == rest[i - 1];
      forall i | 0 < i < |s|
        ensures s[i].interestPortion <= s[i - 1].interestPortion
      {
        if i > 1 {
          assert rest[i - 1].interestPortion <= rest[i - 2].interestPortion;
        }
      }
    }
  }

  /** The annuity instalment exceeds the interest on the whole principal. */
  lemma InstallmentCoversInterest(principal: nat, rate: nat, n: nat)
    requires n >= 1
    ensures var r := PerInstallmentRate(rate, n);
            InterestOn(principal, r) <= RoundHalfUp(ExactInstallment(principal, r, n))
  {
    var r := PerInstallmentRate(rate, n);
    ExactInstallmentCovers(principal, r, n);
    RoundMonotone(principal as real * r, ExactInstallment(principal, r, n));
  }

  lemma ExactInstallmentCovers(principal: nat, r: real, n: nat)
    requires n >= 1 && r >= 0.0
    ensures principal as real * r <= ExactInstallment(principal, r, n)
  {
    if r == 0.0 {
      QuotientBound(principal as real, n as real, 0.0);
    } else {
      ProductNonNegative(principal as real, r);
      AnnuityCovers(principal as real * r, Power(1.0 + r, n));
    }
  }

  lemma ProductNonNegative(x: real, y: real)
    requires x >= 0.0 && y >= 0.0
    ensures x * y >= 0.0
  {
  }

  lemma AnnuityCovers(a: real, factor: real)
    requires a >= 0.0 && factor > 1.0
    ensures Annuity(a, factor) >= a
  {
    assert a * factor == a * (factor - 1.0) + a;
    QuotientBound(a * factor, factor - 1.0, a);
  }

  lemma QuotientBound(x: real, y: real, z: real)
    requires y > 0.0 && x >= z * y
    ensures x / y >= z
  {
    assert (x / y) * y == x;
  }

  /**
   * For every principal, rate and count the reducing schedule chains from the principal to zero, its
   * principal portions sum to the principal, each total is principal plus interest (so the guard
   * against negative principal is dead code), and interest never rises.
   */
  lemma ReducingScheduleExact(principal: nat, rate: nat, n: nat)
    requires n >= 1
    ensures var s := ReducingSchedule(principal, rate, n);
            && Chains(s, principal, 1) && Amortizes(s)
            && Sum(ReducingPrincipal(), s) == principal
            && Sum(ReducingDue(), s) == principal + Sum(ReducingInterest(), s)
  {
    var r := PerInstallmentRate(rate, n);
    var fixedDue := RoundHalfUp(ExactInstallment(principal, r, n));
    ReducingFromChains(principal, 1, n, r, fixedDue);
    InstallmentCoversInterest(principal, rate, n);
    ReducingFromAmortizes(principal, 1, n, r, fixedDue);
    SumPlus(ReducingPrincipal(), ReducingInterest(), ReducingDue(), ReducingSchedule(principal, rate, n));
  }

  lemma InterestAmount(balance: int, rate: nat, n: nat)
    requires n >= 1
    ensures var t := InterestOn(balance, PerInstallmentRate(rate, n));
            10000 * n * t <= balance * rate + 5000 * n < 10000 * n * (t + 1)
  {
    var r := PerInstallmentRate(rate, n);
    assert r * (10000 * n) as real == rate as real;
    assert (balance as real * r) * (10000 * n) as real == (balance * rate) as real;
    assert balance as real * r == (balance * rate) as real / (10000 * n) as real;
    RoundedQuotient(balance * rate, 10000 * n);
  }

  lemma {:induction false} ReducingFromEntries(opening: int, k: int, n: int, r: real, fixedDue: int, i: nat)
    requires i < |ReducingFrom(opening, k, n, r, fixedDue)|
    ensures var e := ReducingFrom(opening, k, n, r, fixedDue)[i];
            e.interestPortion == InterestOn(e.openingBalance, r) && (k + i < n ==> e.totalDue == fixedDue)
    decreases n - k
  {
    hide InterestOn;
    if k <= n && i > 0 {
      ReducingFromEntries(ReducingEntry(opening, k, n, r, fixedDue).closingBalance, k + 1, n, r, fixedDue, i - 1);
    }
  }

  /**
   * Every instalment charges the n-th part of the rate on the balance still owed, rounded to the nearest kobo;
   * the first on the whole principal.
   */
  lemma ReducingInterestAmounts(principal: nat, rate: nat, n: nat)
    requires n >= 1
    ensures var s := ReducingSchedule(principal, rate, n);
            && s[0].openingBalance == principal
            && forall i :: 0 <= i < n ==>
                 10000 * n * s[i].interestPortion <= s[i].openingBalance * rate + 5000 * n < 10000 * n * (s[i].interestPortion + 1)
  {
    var s := ReducingSchedule(principal, rate, n);
    ReducingScheduleExact(principal, rate, n);
    forall i | 0 <= i < n
      ensures 10000 * n * s[i].interestPortion <= s[i].openingBalance * rate + 5000 * n < 10000 * n * (s[i].interestPortion + 1)
    {
      ReducingFromEntries(principal, 1, n, PerInstallmentRate(rate, n), FixedDue(principal, rate, n), i);
      InterestAmount(s[i].openingBalance, rate, n);
    }
  }

  // ---------------------------------------------------------------- negative portions

  /** No instalment pays a negative principal. */
  ghost predicate NoNegativePortion(s: seq<ReducingInstallment>) {
    forall i :: 0 <= i < |s| ==> s[i].principalPortion >= 0
  }

  function LastPortion(s: seq<ReducingInstallment>): int
    requires s != []
  {
    s[|s| - 1].principalPortion
  }

  /** The instalment a reducing schedule is built on. */
  function FixedDue(principal: nat, rate: nat, n: nat): int
    requires n >= 1
  {
    RoundHalfUp(ExactInstallment(principal, PerInstallmentRate(rate, n), n))
  }

  /** The interest of the first instalment, which no later one exceeds. */
  function FirstInterest(principal: nat, rate: nat, n: nat): int
    requires n >= 1
  {
    InterestOn(principal, PerInstallmentRate(rate, n))
  }

  /** Only the last instalment can pay a negative principal. */
  lemma NegativePortionIsLast(principal: nat, rate: nat, n: nat)
    requires n >= 1
    ensures var s := ReducingSchedule(principal, rate, n); NoNegativePortion(s) <==> LastPortion(s) >= 0
  {
    ReducingScheduleExact(principal, rate, n);
  }

  /** An instalment that covers its interest pays the balance down by the rest; the remaining ones start from there. */
  lemma PaysDown(opening: int, k: int, n: int, r: real, due: int)
    requires k < n && r >= 0.0 && InterestOn(opening, r) <= due
    ensures var closing := opening - (due - InterestOn(opening, r));
            && LastPortion(ReducingFrom(opening, k, n, r, due)) == LastPortion(ReducingFrom(closing, k + 1, n, r, due))
            && InterestOn(closing, r) <= InterestOn(opening, r)
  {
    var e := ReducingEntry(opening, k, n, r, due);
    var s, rest := ReducingFrom(opening, k, n, r, due), ReducingFrom(e.closingBalance, k + 1, n, r, due);
    assert s[|s| - 1] == rest[|rest| - 1];
    InterestMonotone(e.closingBalance, opening, r);
  }

  /** Where the last balance would be if no instalment but the last carried interest. */
  function Floor(opening: int, due: int, m: int): int {
    opening - m * due
  }

  /** Each instalment but the last pays down at least `due - interest` and, if none charges negative interest, at most `due`. */
  lemma {:induction false} LastPortionBounds(opening: int, k: int, n: int, r: real, due: int, interest: int)
    requires k <= n && r >= 0.0 && InterestOn(opening, r) <= interest <= due && due >= 0
    ensures LastPortion(ReducingFrom(opening, k, n, r, due)) <= Floor(opening, due - interest, n - k)
    ensures InterestOn(Floor(opening, due, n - k), r) >= 0 ==>
              LastPortion(ReducingFrom(opening, k, n, r, due)) >= Floor(opening, due, n - k)
    decreases n - k
  {
    if k < n {
      var closing := opening - (due - InterestOn(opening, r));
      PaysDown(opening, k, n, r, due);
      FloorStep(opening, due - interest, n - k);
      FloorStep(opening, due, n - k);
      FloorShift(closing, opening - (due - interest), due - interest, n - k - 1);
      LastPortionBounds(closing, k + 1, n, r, due, interest);
      if InterestOn(Floor(opening, due, n - k), r) >= 0 {
        FloorBelow(opening, due, n - k);
        InterestMonotone(Floor(opening, due, n - k), opening, r);
        FloorShift(opening - due, closing, due, n - k - 1);
        InterestMonotone(Floor(opening, due, n - k), Floor(closing, due, n - k - 1), r);
      }
    }
  }

  lemma FloorStep(opening: int, due: int, m: int)
    ensures Floor(opening, due, m) == Floor(opening - due, due, m - 1)
  {
  }

  lemma FloorShift(x: int, y: int, due: int, m: int)
    requires x <= y
    ensures Floor(x, due, m) <= Floor(y, due, m)
  {
  }

  lemma FloorBelow(opening: int, due: int, m: int)
    requires m >= 0 && due >= 0
    ensures Floor(opening, due, m) <= opening
  {
    assert m * due >= 0;
  }

  /** At every rate: if the rounded instalment, paid n - 1 times, stays within the principal, no portion is negative. */
  lemma CoveredPortionsNonNegative(principal: nat, rate: nat, n: nat)
    requires n >= 1 && (n - 1) * FixedDue(principal, rate, n) <= principal
    ensures NoNegativePortion(ReducingSchedule(principal, rate, n))
  {
    var r, due := PerInstallmentRate(rate, n), FixedDue(principal, rate, n);
    FirstInterestNonNegative(principal, rate, n);
    InterestMonotone(0, Floor(principal, due, n - 1), r);
    LastPortionBounds(principal, 1, n, r, due, due);
    NegativePortionIsLast(principal, rate, n);
  }

  lemma FirstInterestNonNegative(principal: nat, rate: nat, n: nat)
    requires n >= 1
    ensures 0 <= FirstInterest(principal, rate, n) <= FixedDue(principal, rate, n)
  {
    InterestMonotone(0, principal, PerInstallmentRate(rate, n));
    InstallmentCoversInterest(principal, rate, n);
  }

  /** At every rate: if n - 1 instalments pay back more than the principal even net of the first interest, the last is negative. */
  lemma OverpaidPortionNegative(principal: nat, rate: nat, n: nat)
    requires n >= 1 && principal < (n - 1) * (FixedDue(principal, rate, n) - FirstInterest(principal, rate, n))
    ensures LastPortion(ReducingSchedule(principal, rate, n)) < 0
  {
    FirstInterestNonNegative(principal, rate, n);
    LastPortionBounds(principal, 1, n, PerInstallmentRate(rate, n), FixedDue(principal, rate, n), FirstInterest(principal, rate, n));
  }

  /**
   * For loans so small that each interest charge rounds to nothing, at whatever rate, both bounds meet: no
   * portion is negative exactly when n - 1 rounded instalments stay within the principal.
   */
  lemma PortionsNonNegativeIff(principal: nat, rate: nat, n: nat)
    requires n >= 1 && FirstInterest(principal, rate, n) == 0
    ensures NoNegativePortion(ReducingSchedule(principal, rate, n)) <==> (n - 1) * FixedDue(principal, rate, n) <= principal
  {
    if (n - 1) * FixedDue(principal, rate, n) <= principal {
      CoveredPortionsNonNegative(principal, rate, n);
    } else {
      OverpaidPortionNegative(principal, rate, n);
      NegativePortionIsLast(principal, rate, n);
    }
  }

  /** An interest-free loan is one of them. */
  lemma ZeroRatePortionsNonNegativeIff(principal: nat, n: nat)
    requires n >= 1
    ensures NoNegativePortion(ReducingSchedule(principal, 0, n))
            <==> (n - 1) * RoundHalfUp(principal as real / n as real) <= principal
  {
    assert PerInstallmentRate(0, n) == 0.0;
    PortionsNonNegativeIff(principal, 0, n);
  }

  // ---------------------------------------------------------------- the size of the instalment

  /** 1 + (1 + r) + ... : what `n` payments of one kobo are worth at the end. */
  function Geometric(r: real, n: nat): real {
    if n == 0 then 0.0 else (1.0 + r) * Geometric(r, n - 1) + 1.0
  }

  lemma {:induction false} GeometricPower(r: real, n: nat)
    ensures Power(1.0 + r, n) == 1.0 + r * Geometric(r, n)
  {
    if n > 0 {
      GeometricPower(r, n - 1);
      var g := Geometric(r, n - 1);
      assert (1.0 + r) * (1.0 + r * g) == 1.0 + r * ((1.0 + r) * g + 1.0);
    }
  }

  /** The last payment of the n counts once, the others as n - 1 payments made a period earlier. */
  lemma {:induction false} GeometricFirst(r: real, n: nat)
    requires n >= 1
    ensures Geometric(r, n) == Geometric(r, n - 1) + Power(1.0 + r, n - 1)
  {
    GeometricPower(r, n - 1);
  }

  /** `g`, what m payments are worth, lies between all at face value and all grown by `factor`. */
  predicate Worth(m: real, g: real, factor: real) {
    m <= g <= m * factor
  }

  lemma {:induction false} GeometricBounds(r: real, n: nat)
    requires r >= 0.0
    ensures Worth(n as real, Geometric(r, n), Power(1.0 + r, n))
  {
    if n > 0 {
      GeometricBounds(r, n - 1);
      hide Worth;
      GrowthStep(r, Geometric(r, n - 1), Power(1.0 + r, n - 1), (n - 1) as real,
                 Geometric(r, n), Power(1.0 + r, n), n as real);
    }
  }

  lemma GrowthStep(r: real, g: real, p: real, m: real, g': real, p': real, m': real)
    requires r >= 0.0 && m >= 0.0 && p >= 1.0 && Worth(m, g, p)
    requires g' == (1.0 + r) * g + 1.0 && p' == (1.0 + r) * p && m' == m + 1.0
    ensures Worth(m', g', p')
  {
    ProductNonNegative(r, g);
    ProductNonNegative(1.0 + r, m * p - g);
    ProductNonNegative(r, p);
    assert (1.0 + r) * (m * p - g) == m * p' - (1.0 + r) * g;
    assert p' == p + r * p;
    assert m' * p' == m * p' + p';
  }

  /** The annuity repays exactly the principal and its interest: at every rate, zero included. */
  lemma InstallmentRepays(principal: nat, r: real, n: nat)
    requires n >= 1 && r >= 0.0
    ensures ExactInstallment(principal, r, n) * Geometric(r, n) == principal as real * Power(1.0 + r, n)
  {
    GeometricPower(r, n);
    hide Power, Geometric;
    if r == 0.0 {
      GeometricBounds(r, n);
      hide Annuity;
      EvenSplitRepays(principal as real, n as real, Geometric(r, n), Power(1.0 + r, n));
    } else {
      AnnuityRepays(principal as real, r, Power(1.0 + r, n), Geometric(r, n));
    }
  }

  lemma EvenSplitRepays(p: real, n: real, g: real, f: real)
    requires n >= 1.0 && f == 1.0 && Worth(n, g, f)
    ensures p / n * g == p * f
  {
    assert g == n;
  }

  lemma AnnuityRepays(p: real, r: real, f: real, g: real)
    requires r > 0.0 && f > 1.0 && f == 1.0 + r * g
    ensures Annuity(p * r, f) * g == p * f
  {
    AnnuityTimes(p * r, f);
    hide Annuity;
    CancelRate(Annuity(p * r, f), g, p, f, r);
  }

  lemma AnnuityTimes(interest: real, factor: real)
    requires factor > 1.0
    ensures Annuity(interest, factor) * (factor - 1.0) == interest * factor
  {
  }

  lemma CancelRate(a: real, g: real, p: real, f: real, r: real)
    requires r > 0.0 && a * (r * g) == (p * r) * f
    ensures a * g == p * f
  {
    assert r * (a * g - p * f) == 0.0;
  }

  /** `due` is the nearest whole kobo to the payment that, made n times at the n-th part of the rate, repays the principal. */
  ghost predicate LevelPayment(due: int, principal: nat, rate: nat, n: nat, r: real, exact: real) {
    && r * (10000 * n) as real == rate as real
    && exact * Geometric(r, n) == principal as real * Power(1.0 + r, n)
    && due as real - 0.5 <= exact < due as real + 0.5
  }

  lemma PeriodRate(rate: nat, n: nat)
    requires n >= 1
    ensures PerInstallmentRate(rate, n) * (10000 * n) as real == rate as real
  {
  }

  /** All instalments but the last are that one payment. */
  lemma LevelInstallments(principal: nat, rate: nat, n: nat, i: nat)
    requires i < n - 1
    ensures exists r: real, exact: real :: LevelPayment(ReducingSchedule(principal, rate, n)[i].totalDue, principal, rate, n, r, exact)
    ensures ReducingSchedule(principal, rate, n)[i].totalDue == ReducingSchedule(principal, rate, n)[0].totalDue
  {
    hide ExactInstallment, Power, Geometric, ReducingFrom, InterestOn;
    var r := PerInstallmentRate(rate, n);
    var exact, due := ExactInstallment(principal, r, n), FixedDue(principal, rate, n);
    ReducingFromEntries(principal, 1, n, r, due, i);
    ReducingFromEntries(principal, 1, n, r, due, 0);
    InstallmentRepays(principal, r, n);
    PeriodRate(rate, n);
    assert ReducingSchedule(principal, rate, n)[i].totalDue == due;
    assert LevelPayment(ReducingSchedule(principal, rate, n)[i].totalDue, principal, rate, n, r, exact);
  }

  /** Between an even split of the principal and that split plus one period's interest on all of it. */
  lemma InstallmentBounds(principal: nat, r: real, n: nat)
    requires n >= 1 && r >= 0.0
    ensures var a, p := ExactInstallment(principal, r, n), principal as real;
            p <= a * n as real <= p + (p * r) * n as real
  {
    hide ExactInstallment, Power, Geometric;
    var p, f, g, a := principal as real, Power(1.0 + r, n), Geometric(r, n), ExactInstallment(principal, r, n);
    InstallmentRepays(principal, r, n);
    GeometricPower(r, n);
    GeometricBounds(r, n);
    ExactInstallmentCovers(principal, r, n);
    ProductNonNegative(p, r);
    SplitBounds(a, g, p, f, r, n as real);
  }

  lemma SplitBounds(a: real, g: real, p: real, f: real, r: real, n: real)
    requires a * g == p * f && f == 1.0 + r * g && n <= g <= n * f && f >= 1.0
    requires a >= p * r >= 0.0
    ensures p <= a * n <= p + (p * r) * n
  {
    assert (a * n - p) * f >= 0.0 by {
      ProductNonNegative(a, n * f - g);
      assert a * (n * f - g) == a * n * f - a * g;
    }
    assert (a - p * r) * g == p by {
      assert p * f == p + p * r * g;
    }
    ProductNonNegative(a - p * r, g - n);
  }

  /**
   * At every rate: a loan spread so thin that the instalment rounds up by half or more, while no interest is ever
   * charged, ends in a negative portion.
   */
  lemma ThinLoanPortionNegative(principal: nat, rate: nat, n: nat)
    requires principal + 1 < n <= 2 * principal && FirstInterest(principal, rate, n) == 0
    ensures LastPortion(ReducingSchedule(principal, rate, n)) < 0
  {
    hide ExactInstallment, ReducingSchedule, PerInstallmentRate;
    var r := PerInstallmentRate(rate, n);
    var a := ExactInstallment(principal, r, n);
    InstallmentBounds(principal, r, n);
    HalfAtLeast(a, n as real, principal as real);
    RoundMonotone(0.5, a);
    DueAtLeastOne(n - 1, FixedDue(principal, rate, n), FirstInterest(principal, rate, n));
    OverpaidPortionNegative(principal, rate, n);
  }

  lemma HalfAtLeast(a: real, n: real, p: real)
    requires n > 0.0 && p <= a * n && n <= 2.0 * p
    ensures a >= 0.5
  {
    if a < 0.5 {
      SmallProduct(a, n);
    }
  }

  lemma SmallProduct(a: real, n: real)
    requires a < 0.5 && n > 0.0
    ensures a * n < 0.5 * n
  {
  }

  lemma DueAtLeastOne(m: int, due: int, interest: int)
    requires m >= 0 && due >= 1 && interest == 0
    ensures m * (due - interest) >= m
  {
    assert m * (due - 1) >= 0;
  }

  /** Five kobo over ten instalments, at any rate below 100%: nine of one kobo, and then minus four. */
  lemma NegativeLastPortionExample(rate: nat)
    requires rate < 10000
    ensures LastPortion(ReducingSchedule(5, rate, 10)) == -4
  {
    hide ExactInstallment, ReducingFrom, PerInstallmentRate;
    var r := PerInstallmentRate(rate, 10);
    SmallRate(rate);
    InstallmentBounds(5, r, 10);
    assert RoundHalfUp(ExactInstallment(5, r, 10)) == 1;
    LastPortionBounds(5, 1, 10, r, 1, 0);
  }

  lemma SmallRate(rate: nat)
    requires rate < 10000
    ensures 0.0 <= PerInstallmentRate(rate, 10) < 0.1
  {
  }

  // ---------------------------------------------------------------- rounding drift

  /** A balance grown by `factor` still meets n payments of `a`, worth `g` each, less the drift. */
  predicate Meets(balance: real, factor: real, a: real, g: real, drift: real) {
    balance * factor >= (a + 1.0) * g - drift
  }

  /** One instalment costs at most half a kobo in its interest and half a kobo in the instalment itself. */
  lemma DriftStep(opening: real, closing: real, r: real, a: real, f: real, g: real, drift: real, f': real, g': real)
    requires f >= 1.0 && closing >= (1.0 + r) * opening - a - 1.0
    requires f' == (1.0 + r) * f && g' == g + f && Meets(opening, f', a, g', drift)
    ensures Meets(closing, f, a, g, drift)
  {
    ProductNonNegative(closing - ((1.0 + r) * opening - a - 1.0), f);
    assert (closing - ((1.0 + r) * opening - a - 1.0)) * f == closing * f - opening * f' + (a + 1.0) * f;
    assert (a + 1.0) * g' == (a + 1.0) * g + (a + 1.0) * f;
  }

  lemma OnePeriod(r: real)
    ensures Power(1.0 + r, 1) == 1.0 + r && Geometric(r, 1) == 1.0
  {
    assert Power(1.0 + r, 0) == 1.0 && Geometric(r, 0) == 0.0;
  }

  /** One instalment on: the last portion is the same, and what is left still meets what is to come. */
  lemma DriftOn(opening: int, k: int, n: int, r: real, due: int, a: real, drift: real) returns (closing: int)
    requires k < n && r >= 0.0 && InterestOn(opening, r) <= due && due == RoundHalfUp(a)
    requires Meets(opening as real, Power(1.0 + r, n - k + 1), a, Geometric(r, n - k + 1), drift)
    ensures LastPortion(ReducingFrom(opening, k, n, r, due)) == LastPortion(ReducingFrom(closing, k + 1, n, r, due))
    ensures InterestOn(closing, r) <= due
    ensures Meets(closing as real, Power(1.0 + r, n - k), a, Geometric(r, n - k), drift)
  {
    hide InterestOn, RoundHalfUp, Meets, ReducingFrom, ReducingEntry, Power, Geometric;
    closing := opening - (due - InterestOn(opening, r));
    PaysDown(opening, k, n, r, due);
    PowerStep(r, n - k);
    GeometricFirst(r, n - k + 1);
    ClosingAtLeast(opening, r, due, a);
    DriftStep(opening as real, closing as real, r, a, Power(1.0 + r, n - k), Geometric(r, n - k), drift,
              Power(1.0 + r, n - k + 1), Geometric(r, n - k + 1));
  }

  lemma {:induction false} DriftBound(opening: int, k: int, n: int, r: real, due: int, a: real, drift: real)
    requires k <= n && r >= 0.0 && InterestOn(opening, r) <= due && due == RoundHalfUp(a)
    requires Meets(opening as real, Power(1.0 + r, n - k + 1), a, Geometric(r, n - k + 1), drift)
    ensures Meets(LastPortion(ReducingFrom(opening, k, n, r, due)) as real, 1.0 + r, a, 1.0, drift)
    decreases n - k
  {
    hide InterestOn, RoundHalfUp, Meets, Geometric, Power;
    if k == n {
      OnePeriod(r);
    } else {
      hide ReducingFrom, ReducingEntry;
      var closing := DriftOn(opening, k, n, r, due, a, drift);
      DriftBound(closing, k + 1, n, r, due, a, drift);
    }
  }

  lemma PowerStep(r: real, m: nat)
    requires r >= 0.0
    ensures Power(1.0 + r, m) >= 1.0 && Power(1.0 + r, m + 1) == (1.0 + r) * Power(1.0 + r, m)
  {
  }

  lemma ClosingAtLeast(opening: int, r: real, due: int, a: real)
    requires due == RoundHalfUp(a)
    ensures (opening - (due - InterestOn(opening, r))) as real >= (1.0 + r) * opening as real - a - 1.0
  {
    var charged := opening as real * r;
    assert InterestOn(opening, r) as real >= charged - 0.5;
    assert due as real <= a + 0.5;
    assert (1.0 + r) * opening as real == opening as real + charged;
  }

  /**
   * At every rate: no portion is negative once the instalment exceeds the drift that n roundings can build up,
   * each of at most a kobo and compounded to the end.
   */
  lemma LargeInstallmentPortionsNonNegative(principal: nat, rate: nat, n: nat)
    requires n >= 1
    requires var r := PerInstallmentRate(rate, n); Geometric(r, n) < ExactInstallment(principal, r, n) + 2.0
    ensures NoNegativePortion(ReducingSchedule(principal, rate, n))
  {
    hide ExactInstallment, Power, Geometric, PerInstallmentRate, ReducingFrom, InterestOn;
    var r := PerInstallmentRate(rate, n);
    var a, drift := ExactInstallment(principal, r, n), Geometric(r, n);
    InstallmentRepays(principal, r, n);
    assert (a + 1.0) * drift - drift == a * drift;
    InstallmentCoversInterest(principal, rate, n);
    DriftBound(principal, 1, n, r, FixedDue(principal, rate, n), a, drift);
    var last := LastPortion(ReducingSchedule(principal, rate, n));
    LastNonNegative(last, r);
    NegativePortionIsLast(principal, rate, n);
  }

  lemma LastNonNegative(last: int, r: real)
    requires r >= 0.0 && last as real * (1.0 + r) > -1.0
    ensures last >= 0
  {
    if last <= -1 {
      GrowsBelow(-1.0 - last as real, r);
    }
  }

  lemma GrowsBelow(x: real, r: real)
    requires x >= 0.0 && r >= 0.0
    ensures (-1.0 - x) * (1.0 + r) <= -1.0
  {
    ProductNonNegative(x, 1.0 + r);
    assert (-1.0 - x) * (1.0 + r) == -(1.0 + r) - x * (1.0 + r);
  }
}
