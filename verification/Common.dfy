/** Option and Result, sums over sequences of documents, and sorting. */
module Common {

  datatype Option<+T> = None | Some(value: T) {
    function GetOr(default: T): T {
      match this
      case Some(v) => v
      case None => default
    }
  }

  /** `Ok` for a normal return, `Err` for a thrown exception. */
  datatype Result<+T, +E> = Ok(value: T) | Err(error: E)

  // ---------------------------------------------------------------- selections

  /** The elements that satisfy `keep`, in their order. */
  function Filter<T>(keep: T -> bool, s: seq<T>): seq<T> {
    if s == [] then []
    else
      var front, last := Filter(keep, s[..|s| - 1]), s[|s| - 1];
      if keep(last) then front + [last] else front
  }

  lemma {:induction false} FilterAppend<T>(keep: T -> bool, a: seq<T>, b: seq<T>)
    ensures Filter(keep, a + b) == Filter(keep, a) + Filter(keep, b)
  {
    if b == [] {
      assert a + b == a;
    } else {
      FilterAppend(keep, a, b[..|b| - 1]);
      assert (a + b)[..|a + b| - 1] == a + b[..|b| - 1];
    }
  }

  // ---------------------------------------------------------------- sums

  /** The sum of `f` over a collection; a `reduce` starting at zero. */
  function Sum<T>(f: T -> int, s: seq<T>): int {
    if s == [] then 0 else Sum(f, s[..|s| - 1]) + f(s[|s| - 1])
  }

  lemma {:induction false} SumAppend<T>(f: T -> int, a: seq<T>, b: seq<T>)
    ensures Sum(f, a + b) == Sum(f, a) + Sum(f, b)
  {
    if b == [] {
      assert a + b == a;
    } else {
      SumAppend(f, a, b[..|b| - 1]);
      assert (a + b)[..|a + b| - 1] == a + b[..|b| - 1];
    }
  }

  /** Summands that vanish outside a selection can be left out. */
  lemma {:induction false} SumFiltered<T>(keep: T -> bool, f: T -> int, g: T -> int, s: seq<T>)
    requires forall i :: 0 <= i < |s| ==> f(s[i]) == if keep(s[i]) then g(s[i]) else 0
    ensures Sum(f, s) == Sum(g, Filter(keep, s))
  {
    if s != [] {
      var front, last := s[..|s| - 1], s[|s| - 1];
      SumFiltered(keep, f, g, front);
      SumSnoc(g, Filter(keep, front), last);
    }
  }

  lemma SumOne<T>(f: T -> int, x: T)
    ensures Sum(f, [x]) == f(x)
  {
    assert [x][..0] == [];
  }

  lemma SumSnoc<T>(f: T -> int, s: seq<T>, x: T)
    ensures Sum(f, s + [x]) == Sum(f, s) + f(x)
  {
    assert (s + [x])[..|s + [x]| - 1] == s;
  }

  lemma SumCons<T>(f: T -> int, s: seq<T>)
    requires s != []
    ensures Sum(f, s) == f(s[0]) + Sum(f, s[1..])
  {
    assert s == [s[0]] + s[1..];
    SumAppend(f, [s[0]], s[1..]);
    SumOne(f, s[0]);
  }

  lemma SumUpdate<T>(f: T -> int, s: seq<T>, i: nat, v: T)
    requires i < |s|
    ensures Sum(f, s[i := v]) == Sum(f, s) - f(s[i]) + f(v)
  {
    assert s == s[..i] + [s[i]] + s[i + 1..];
    assert s[i := v] == s[..i] + [v] + s[i + 1..];
    SumAppend(f, s[..i] + [s[i]], s[i + 1..]);
    SumAppend(f, s[..i] + [v], s[i + 1..]);
    SumSnoc(f, s[..i], s[i]);
    SumSnoc(f, s[..i], v);
  }

  /** Pointwise equal summands give equal sums, over two collections of one length. */
  lemma {:induction false} SumEqual<T, U>(f: T -> int, s: seq<T>, g: U -> int, t: seq<U>)
    requires |s| == |t|
    requires forall i :: 0 <= i < |s| ==> f(s[i]) == g(t[i])
    ensures Sum(f, s) == Sum(g, t)
  {
    if s != [] {
      SumEqual(f, s[..|s| - 1], g, t[..|t| - 1]);
    }
  }

  lemma {:induction false} SumZero<T>(f: T -> int, s: seq<T>)
    requires forall i :: 0 <= i < |s| ==> f(s[i]) == 0
    ensures Sum(f, s) == 0
  {
    if s != [] {
      SumZero(f, s[..|s| - 1]);
    }
  }

  /** A sum with one non-zero summand is that summand. */
  lemma {:induction false} SumPick<T>(f: T -> int, s: seq<T>, i: nat)
    requires i < |s|
    requires forall j :: 0 <= j < |s| && j != i ==> f(s[j]) == 0
    ensures Sum(f, s) == f(s[i])
  {
    if i == |s| - 1 {
      SumZero(f, s[..|s| - 1]);
    } else {
      SumPick(f, s[..|s| - 1], i);
    }
  }

  /** A sum whose first `cut` summands vanish is that of the others. */
  lemma SumTail<T, U>(f: T -> int, s: seq<T>, g: U -> int, t: seq<U>, cut: nat)
    requires cut <= |s| == |t|
    requires forall i :: 0 <= i < |s| ==> f(s[i]) == if i < cut then 0 else g(t[i])
    ensures Sum(f, s) == Sum(g, t[cut..])
  {
    assert s == s[..cut] + s[cut..];
    SumAppend(f, s[..cut], s[cut..]);
    SumZero(f, s[..cut]);
    SumEqual(f, s[cut..], g, t[cut..]);
  }

  lemma {:induction false} SumNonNegative<T>(f: T -> int, s: seq<T>)
    requires forall i :: 0 <= i < |s| ==> f(s[i]) >= 0
    ensures Sum(f, s) >= 0
  {
    if s != [] {
      SumNonNegative(f, s[..|s| - 1]);
    }
  }

  /** A smaller summand gives a smaller sum, and the same sum only if it is the same everywhere. */
  lemma {:induction false} SumAtMost<T>(f: T -> int, g: T -> int, s: seq<T>)
    requires forall i :: 0 <= i < |s| ==> f(s[i]) <= g(s[i])
    ensures Sum(f, s) <= Sum(g, s)
    ensures Sum(f, s) == Sum(g, s) <==> forall i :: 0 <= i < |s| ==> f(s[i]) == g(s[i])
  {
    if s != [] {
      SumAtMost(f, g, s[..|s| - 1]);
      assert s == s[..|s| - 1] + [s[|s| - 1]];
    }
  }

  /** Sums are additive in the summand. */
  lemma {:induction false} SumPlus<T>(f: T -> int, g: T -> int, h: T -> int, s: seq<T>)
    requires forall i :: 0 <= i < |s| ==> h(s[i]) == f(s[i]) + g(s[i])
    ensures Sum(h, s) == Sum(f, s) + Sum(g, s)
  {
    if s != [] {
      SumPlus(f, g, h, s[..|s| - 1]);
    }
  }

  lemma {:induction false} SumMinus<T>(f: T -> int, g: T -> int, h: T -> int, s: seq<T>)
    requires forall i :: 0 <= i < |s| ==> h(s[i]) == f(s[i]) - g(s[i])
    ensures Sum(h, s) == Sum(f, s) - Sum(g, s)
  {
    if s != [] {
      SumMinus(f, g, h, s[..|s| - 1]);
    }
  }

  function FixFirst<X, Y>(k: (X, Y) -> int, x: X): Y -> int { (y: Y) => k(x, y) }
  function FixSecond<X, Y>(k: (X, Y) -> int, y: Y): X -> int { (x: X) => k(x, y) }

  /** For each `x`, the sum of `k(x, y)` over `ys`; and for each `y`, over `xs`. */
  function OverSecond<X, Y>(k: (X, Y) -> int, ys: seq<Y>): X -> int { (x: X) => Sum(FixFirst(k, x), ys) }
  function OverFirst<X, Y>(k: (X, Y) -> int, xs: seq<X>): Y -> int { (y: Y) => Sum(FixSecond(k, y), xs) }

  /** Two nested sums can be exchanged. */
  lemma {:induction false} SumExchange<X, Y>(k: (X, Y) -> int, xs: seq<X>, ys: seq<Y>)
    ensures Sum(OverSecond(k, ys), xs) == Sum(OverFirst(k, xs), ys)
  {
    if xs == [] {
      SumZero(OverFirst(k, xs), ys);
    } else {
      var front, last := xs[..|xs| - 1], xs[|xs| - 1];
      SumExchange(k, front, ys);
      SumPlus(OverFirst(k, front), FixFirst(k, last), OverFirst(k, xs), ys);
    }
  }

  // ---------------------------------------------------------------- sorting

  function Insert<T>(le: (T, T) -> bool, x: T, s: seq<T>): seq<T> {
    if s == [] || le(x, s[0]) then [x] + s else [s[0]] + Insert(le, x, s[1..])
  }

  /** A stable sort by `le`. */
  function Sort<T>(le: (T, T) -> bool, s: seq<T>): seq<T> {
    if s == [] then [] else Insert(le, s[0], Sort(le, s[1..]))
  }

  ghost predicate Total<T(!new)>(le: (T, T) -> bool) {
    forall x, y :: le(x, y) || le(y, x)
  }

  ghost predicate Transitive<T(!new)>(le: (T, T) -> bool) {
    forall x, y, z :: le(x, y) && le(y, z) ==> le(x, z)
  }

  ghost predicate Ordered<T>(le: (T, T) -> bool, s: seq<T>) {
    forall i, j :: 0 <= i < j < |s| ==> le(s[i], s[j])
  }

  lemma {:induction false} InsertOrdered<T(!new)>(le: (T, T) -> bool, x: T, s: seq<T>)
    requires Total(le) && Transitive(le) && Ordered(le, s)
    ensures Ordered(le, Insert(le, x, s))
  {
    if s != [] && !le(x, s[0]) {
      InsertOrdered(le, x, s[1..]);
      var rest := Insert(le, x, s[1..]);
      InsertMultiset(le, x, s[1..]);
      forall j | 0 <= j < |rest|
        ensures le(s[0], rest[j])
      {
        assert rest[j] in multiset(rest);
        assert rest[j] == x || rest[j] in s[1..];
      }
    }
  }

  /** Sorting puts in order. */
  lemma {:induction false} SortOrdered<T(!new)>(le: (T, T) -> bool, s: seq<T>)
    requires Total(le) && Transitive(le)
    ensures Ordered(le, Sort(le, s))
  {
    if s != [] {
      SortOrdered(le, s[1..]);
      InsertOrdered(le, s[0], Sort(le, s[1..]));
    }
  }

  lemma {:induction false} SumInsert<T>(f: T -> int, le: (T, T) -> bool, x: T, s: seq<T>)
    ensures Sum(f, Insert(le, x, s)) == f(x) + Sum(f, s)
  {
    if s == [] || le(x, s[0]) {
      SumAppend(f, [x], s);
      SumOne(f, x);
    } else {
      SumInsert(f, le, x, s[1..]);
      SumAppend(f, [s[0]], Insert(le, x, s[1..]));
      SumOne(f, s[0]);
      SumCons(f, s);
    }
  }

  /** A sum does not depend on the order in which the rows are listed. */
  lemma {:induction false} SumSort<T>(f: T -> int, le: (T, T) -> bool, s: seq<T>)
    ensures Sum(f, Sort(le, s)) == Sum(f, s)
  {
    if s != [] {
      SumSort(f, le, s[1..]);
      SumInsert(f, le, s[0], Sort(le, s[1..]));
      SumCons(f, s);
    }
  }

  lemma {:induction false} InsertMultiset<T>(le: (T, T) -> bool, x: T, s: seq<T>)
    ensures multiset(Insert(le, x, s)) == multiset(s) + multiset{x}
    ensures |Insert(le, x, s)| == |s| + 1
  {
    if !(s == [] || le(x, s[0])) {
      InsertMultiset(le, x, s[1..]);
      assert s == [s[0]] + s[1..];
    }
  }

  /** Sorting permutes. */
  lemma {:induction false} SortMultiset<T>(le: (T, T) -> bool, s: seq<T>)
    ensures multiset(Sort(le, s)) == multiset(s)
    ensures |Sort(le, s)| == |s|
  {
    if s != [] {
      SortMultiset(le, s[1..]);
      InsertMultiset(le, s[0], Sort(le, s[1..]));
      assert s == [s[0]] + s[1..];
    }
  }
}
