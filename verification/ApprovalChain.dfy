/**
 * Approval chains of loan products: the check on step orders, and the chain registered for a product,
 * which every approved creation or update derives again from the product's stored steps.
 */
module ApprovalChain {
  import opened Common

  datatype Step = Step(order: int, requiredCapability: string)

  datatype ChainError = NoSteps | OrdersNotContiguous | UnknownCapability(capability: string) | ProductNotFound

  /** Products by position; the chain registered in the workflow engine for each product. */
  datatype Catalog = Catalog(products: seq<seq<Step>>, chains: map<nat, seq<Step>>)

  // ---------------------------------------------------------------- the order check

  function IntLe(): (int, int) -> bool { (a: int, b: int) => a <= b }

  function Range(n: nat): (r: seq<int>)
    ensures |r| == n
  {
    seq(n, i => i)
  }

  function Orders(steps: seq<Step>): (r: seq<int>)
    ensures |r| == |steps|
  {
    seq(|steps|, i requires 0 <= i < |steps| => steps[i].order)
  }

  ghost predicate Ascending(s: seq<int>) {
    forall i, j :: 0 <= i < j < |s| ==> s[i] <= s[j]
  }

  lemma SortAscending(s: seq<int>)
    ensures Ascending(Sort(IntLe(), s))
  {
    SortOrdered(IntLe(), s);
    assert forall i, j :: 0 <= i < j < |s| ==> IntLe()(Sort(IntLe(), s)[i], Sort(IntLe(), s)[j]) by {
      SortMultiset(IntLe(), s);
    }
    SortMultiset(IntLe(), s);
  }

  lemma LastIsGreatest(s: seq<int>, x: int)
    requires Ascending(s) && x in multiset(s)
    ensures s != [] && x <= s[|s| - 1]
  {
    assert x in s;
  }

  lemma SameLast(s: seq<int>, t: seq<int>)
    requires Ascending(s) && Ascending(t) && multiset(s) == multiset(t) && s != []
    ensures t != [] && s[|s| - 1] == t[|t| - 1]
  {
    assert s[|s| - 1] in multiset(s);
    LastIsGreatest(t, s[|s| - 1]);
    assert t[|t| - 1] in multiset(t);
    LastIsGreatest(s, t[|t| - 1]);
  }

  lemma WithoutLast(s: seq<int>)
    requires s != []
    ensures multiset(s[..|s| - 1]) == multiset(s) - multiset{s[|s| - 1]}
  {
    assert s == s[..|s| - 1] + [s[|s| - 1]];
  }

  /** An ascending list is determined by its elements. */
  lemma {:induction false} AscendingUnique(s: seq<int>, t: seq<int>)
    requires Ascending(s) && Ascending(t) && multiset(s) == multiset(t)
    ensures s == t
  {
    if s == [] {
      assert |multiset(t)| == 0;
    } else {
      SameLast(s, t);
      WithoutLast(s);
      WithoutLast(t);
      AscendingUnique(s[..|s| - 1], t[..|t| - 1]);
      assert s == s[..|s| - 1] + [s[|s| - 1]] && t == t[..|t| - 1] + [t[|t| - 1]];
    }
  }

  /** Sorted and compared with 0, 1, 2, ... */
  predicate Contiguous(orders: seq<int>) {
    Sort(IntLe(), orders) == Range(|orders|)
  }

  /** The comparison accepts exactly the rearrangements of 0 to n - 1. */
  lemma ContiguousIffPermutation(orders: seq<int>)
    ensures Contiguous(orders) <==> multiset(orders) == multiset(Range(|orders|))
  {
    SortMultiset(IntLe(), orders);
    SortAscending(orders);
    if multiset(orders) == multiset(Range(|orders|)) {
      AscendingUnique(Sort(IntLe(), orders), Range(|orders|));
    }
  }

  /** Every order from 0 to n - 1 is taken by one step, and by one only. */
  lemma ContiguousNamesEachOnce(steps: seq<Step>, k: nat)
    requires Contiguous(Orders(steps)) && k < |steps|
    ensures exists i :: 0 <= i < |steps| && steps[i].order == k
    ensures forall i, j :: 0 <= i < j < |steps| ==> steps[i].order != steps[j].order
  {
    var orders := Orders(steps);
    ContiguousIffPermutation(orders);
    assert Range(|orders|)[k] == k;
    assert k in multiset(orders);
    assert k in orders;
    var i :| 0 <= i < |orders| && orders[i] == k;
    assert steps[i].order == k;
    forall i, j | 0 <= i < j < |steps|
      ensures steps[i].order != steps[j].order
    {
      OccursOnce(orders, i, j);
    }
  }

  lemma TwiceCounted(s: seq<int>, i: nat, j: nat)
    requires i < j < |s| && s[i] == s[j]
    ensures multiset(s)[s[i]] >= 2
  {
    assert s == s[..j] + s[j..];
    assert s[..j][i] == s[i] && s[j..][0] == s[i];
    assert s[i] in multiset(s[..j]) && s[i] in multiset(s[j..]);
  }

  lemma OccursOnce(orders: seq<int>, i: nat, j: nat)
    requires multiset(orders) == multiset(Range(|orders|)) && i < j < |orders|
    ensures orders[i] != orders[j]
  {
    RangeOnce(|orders|, orders[i]);
    if orders[i] == orders[j] {
      TwiceCounted(orders, i, j);
    }
  }

  lemma {:induction false} RangeOnce(n: nat, x: int)
    ensures multiset(Range(n))[x] == if 0 <= x < n then 1 else 0
  {
    if n > 0 {
      RangeOnce(n - 1, x);
      assert Range(n) == Range(n - 1) + [n - 1];
    }
  }

  // ---------------------------------------------------------------- the checks as they run

  /** What the engine demands when a chain is registered. */
  predicate WellOrdered(steps: seq<Step>) {
    steps != [] && Contiguous(Orders(steps))
  }

  predicate AllKnown(known: set<string>, steps: seq<Step>) {
    forall i :: 0 <= i < |steps| ==> steps[i].requiredCapability in known
  }

  method EveryInPlace(orders: seq<int>) returns (ok: bool)
    ensures ok <==> orders == Range(|orders|)
  {
    ok := true;
    for i := 0 to |orders|
      invariant ok <==> orders[..i] == Range(i)
    {
      assert orders[..i + 1] == orders[..i] + [orders[i]];
      assert Range(i + 1) == Range(i) + [i];
      assert orders[..i] == orders[..i + 1][..i];
      assert Range(i) == Range(i + 1)[..i];
      assert orders[..i + 1][i] == orders[i] && Range(i + 1)[i] == i;
      ok := ok && orders[i] == i;
    }
    assert orders[..|orders|] == orders;
  }

  method ValidateApprovalChainSteps(known: set<string>, steps: seq<Step>) returns (error: Option<ChainError>)
    ensures error.None? <==> steps != [] && multiset(Orders(steps)) == multiset(Range(|steps|)) && AllKnown(known, steps)
    ensures error.None? <==> WellOrdered(steps) && AllKnown(known, steps)
    ensures error == Some(NoSteps) <==> steps == []
    ensures error == Some(OrdersNotContiguous) <==> steps != [] && !WellOrdered(steps)
  {
    hide Sort;
    if |steps| == 0 {
      return Some(NoSteps);
    }
    var orders := Sort(IntLe(), Orders(steps));
    SortMultiset(IntLe(), Orders(steps));
    ContiguousIffPermutation(Orders(steps));
    var isContiguousFromZero := EveryInPlace(orders);
    if !isContiguousFromZero {
      return Some(OrdersNotContiguous);
    }
    for i := 0 to |steps|
      invariant AllKnown(known, steps[..i])
    {
      if steps[i].requiredCapability !in known {
        return Some(UnknownCapability(steps[i].requiredCapability));
      }
      assert steps[..i + 1] == steps[..i] + [steps[i]];
    }
    assert steps[..|steps|] == steps;
    return None;
  }

  // ---------------------------------------------------------------- products and their chains

  datatype Action =
    | CreationApproved(steps: seq<Step>)
    | UpdateApproved(product: nat, newSteps: Option<seq<Step>>)

  /** Registration refuses an ill-ordered chain, leaving the one registered before. */
  function Registered(c: Catalog, product: nat, steps: seq<Step>): Catalog {
    if WellOrdered(steps) then c.(chains := c.chains[product := steps]) else c
  }

  /** The product is written first, its chain registered from what was written. */
  function Next(c: Catalog, a: Action): Catalog {
    match a
    case CreationApproved(steps) => Registered(c.(products := c.products + [steps]), |c.products|, steps)
    case UpdateApproved(p, newSteps) =>
      if p >= |c.products| then c
      else
        var steps := newSteps.GetOr(c.products[p]);
        Registered(c.(products := c.products[p := steps]), p, steps)
  }

  function Run(c: Catalog, actions: seq<Action>): Catalog {
    if actions == [] then c else Next(Run(c, actions[..|actions| - 1]), actions[|actions| - 1])
  }

  /** Every product's registered chain is its stored steps, and is usable. */
  ghost predicate InStep(c: Catalog) {
    forall p :: 0 <= p < |c.products| ==> p in c.chains && c.chains[p] == c.products[p] && WellOrdered(c.products[p])
  }

  /** Whether an approved payload still meets the order check when it is written. */
  predicate Passes(c: Catalog, a: Action) {
    match a
    case CreationApproved(steps) => WellOrdered(steps)
    case UpdateApproved(p, newSteps) => p >= |c.products| || newSteps.None? || WellOrdered(newSteps.value)
  }

  /** From a catalog in step, an approval keeps it in step exactly when its payload meets the order check. */
  lemma StepKeepsInStepIff(c: Catalog, a: Action)
    requires InStep(c)
    ensures InStep(Next(c, a)) <==> Passes(c, a)
  {
    var d := Next(c, a);
    if a.CreationApproved? {
      assert d.products[|c.products|] == a.steps;
    } else if a.product < |c.products| {
      assert d.products[a.product] == a.newSteps.GetOr(c.products[a.product]);
    }
  }

  /** Payloads come from proposals that `ValidateApprovalChainSteps` accepted. */
  ghost predicate Proposed(known: set<string>, a: Action) {
    match a
    case CreationApproved(steps) => WellOrdered(steps) && AllKnown(known, steps)
    case UpdateApproved(p, newSteps) => newSteps.Some? ==> WellOrdered(newSteps.value) && AllKnown(known, newSteps.value)
  }

  ghost predicate StepsKnown(known: set<string>, c: Catalog) {
    forall p :: 0 <= p < |c.products| ==> AllKnown(known, c.products[p])
  }

  lemma StepKeepsKnown(known: set<string>, c: Catalog, a: Action)
    requires StepsKnown(known, c) && Proposed(known, a)
    ensures StepsKnown(known, Next(c, a))
  {
    var d := Next(c, a);
    forall p | 0 <= p < |d.products|
      ensures AllKnown(known, d.products[p])
    {
      assert p < |c.products| ==> AllKnown(known, c.products[p]);
    }
  }

  lemma {:induction false} StepsStayKnown(known: set<string>, c: Catalog, actions: seq<Action>)
    requires c.products == [] && forall i :: 0 <= i < |actions| ==> Proposed(known, actions[i])
    ensures StepsKnown(known, Run(c, actions))
  {
    if actions != [] {
      var front, a := actions[..|actions| - 1], actions[|actions| - 1];
      StepsStayKnown(known, c, front);
      assert Proposed(known, a);
      StepKeepsKnown(known, Run(c, front), a);
    }
  }

  lemma {:induction false} StaysInStep(known: set<string>, c: Catalog, actions: seq<Action>)
    requires c.products == [] && forall i :: 0 <= i < |actions| ==> Proposed(known, actions[i])
    ensures InStep(Run(c, actions))
  {
    if actions != [] {
      var front, a := actions[..|actions| - 1], actions[|actions| - 1];
      StaysInStep(known, c, front);
      assert Proposed(known, a);
      StepKeepsInStepIff(Run(c, front), a);
    }
  }

  /**
   * After any approvals of accepted proposals, every product has a registered chain equal to its stored
   * steps, well ordered, and naming known capabilities only.
   */
  lemma {:induction false} CatalogStaysInStep(known: set<string>, c: Catalog, actions: seq<Action>)
    requires c.products == [] && forall i :: 0 <= i < |actions| ==> Proposed(known, actions[i])
    ensures InStep(Run(c, actions)) && StepsKnown(known, Run(c, actions))
  {
    StepsStayKnown(known, c, actions);
    StaysInStep(known, c, actions);
  }

  class ProductCatalog {
    var products: seq<seq<Step>>
    var chains: map<nat, seq<Step>>

    function State(): Catalog
      reads this
    {
      Catalog(products, chains)
    }

    constructor ()
      ensures State() == Catalog([], map[])
    {
      products, chains := [], map[];
    }

    method RegisterLoanApprovalChain(product: nat) returns (error: Option<ChainError>)
      requires product < |products|
      modifies this`chains
      ensures State() == Registered(old(State()), product, products[product])
      ensures error.None? <==> WellOrdered(products[product])
    {
      var steps := products[product];
      if |steps| == 0 {
        return Some(NoSteps);
      }
      var inPlace := EveryInPlace(Sort(IntLe(), Orders(steps)));
      SortMultiset(IntLe(), Orders(steps));
      if !inPlace {
        return Some(OrdersNotContiguous);
      }
      chains := chains[product := steps];
      return None;
    }

    method OnCreationApproved(steps: seq<Step>) returns (error: Option<ChainError>)
      modifies this
      ensures State() == Next(old(State()), CreationApproved(steps))
      ensures error.None? <==> WellOrdered(steps)
      ensures old(InStep(State())) && error.None? ==> InStep(State())
    {
      if InStep(State()) {
        StepKeepsInStepIff(State(), CreationApproved(steps));
      }
      products := products + [steps];
      error := RegisterLoanApprovalChain(|products| - 1);
    }

    /** The chain is derived again whether or not this update touches the steps. */
    method OnUpdateApproved(product: nat, newSteps: Option<seq<Step>>) returns (error: Option<ChainError>)
      modifies this
      ensures State() == Next(old(State()), UpdateApproved(product, newSteps))
      ensures product >= |old(products)| ==> error == Some(ProductNotFound)
      ensures old(InStep(State())) && error.None? ==> InStep(State())
    {
      if InStep(State()) {
        StepKeepsInStepIff(State(), UpdateApproved(product, newSteps));
      }
      if product >= |products| {
        return Some(ProductNotFound);
      }
      if newSteps.Some? {
        products := products[product := newSteps.value];
      }
      error := RegisterLoanApprovalChain(product);
    }
  }
}
