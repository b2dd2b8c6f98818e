/**
 * Three stores keep a history the same way: an approval closes the open record of its key and opens a new
 * one. Branch managers and salaries close with a date, platform configurations with a status. All three
 * are shown to be one thing: the append-only log of their approvals.
 */
module Registers {
  import opened Common

  datatype Approval<K, V> = Approval(key: K, value: V, at: int)

  /** A record as it is derived from the log: closed at the date of the next approval for its key. */
  datatype Version<K, V> = Version(key: K, value: V, from: int, until: Option<int>)

  // ---------------------------------------------------------------- the log and its versions

  /** The last approval for `key`. */
  function LastIndex<K(==), V>(log: seq<Approval<K, V>>, key: K): (r: Option<nat>)
    ensures r.Some? ==> r.value < |log| && log[r.value].key == key
    ensures r.Some? ==> forall i :: r.value < i < |log| ==> log[i].key != key
    ensures r.None? ==> forall i :: 0 <= i < |log| ==> log[i].key != key
  {
    if log == [] then None
    else if log[|log| - 1].key == key then Some(|log| - 1)
    else LastIndex(log[..|log| - 1], key)
  }

  /** The value last approved for `key`. */
  function Current<K(==), V>(log: seq<Approval<K, V>>, key: K): Option<V> {
    match LastIndex(log, key)
    case Some(i) => Some(log[i].value)
    case None => None
  }

  /** The date of the first approval after `i` for the same key. */
  function NextAt<K(==), V>(log: seq<Approval<K, V>>, i: nat): Option<int>
    requires i < |log|
    decreases |log|
  {
    if i == |log| - 1 then None
    else
      var earlier := NextAt(log[..|log| - 1], i);
      if earlier.Some? then earlier
      else if log[|log| - 1].key == log[i].key then Some(log[|log| - 1].at)
      else None
  }

  function VersionAt<K(==), V>(log: seq<Approval<K, V>>, i: nat): Version<K, V>
    requires i < |log|
  {
    Version(log[i].key, log[i].value, log[i].at, NextAt(log, i))
  }

  function Versions<K(==), V>(log: seq<Approval<K, V>>): (r: seq<Version<K, V>>)
    ensures |r| == |log|
  {
    seq(|log|, i requires 0 <= i < |log| => VersionAt(log, i))
  }

  /** A record is open exactly while it is the last of its key. */
  lemma {:induction false} OpenIffLast<K, V>(log: seq<Approval<K, V>>, i: nat)
    requires i < |log|
    ensures NextAt(log, i).None? <==> LastIndex(log, log[i].key) == Some(i)
    decreases |log|
  {
    if i < |log| - 1 {
      OpenIffLast(log[..|log| - 1], i);
    }
  }

  /** At most one record of a key is open, and it holds the value last approved. */
  lemma OneOpenVersion<K, V>(log: seq<Approval<K, V>>, i: nat, j: nat)
    requires i < |log| && j < |log|
    requires Versions(log)[i].until.None? && Versions(log)[j].until.None? && log[i].key == log[j].key
    ensures i == j && Current(log, log[i].key) == Some(Versions(log)[i].value)
  {
    OpenIffLast(log, i);
    OpenIffLast(log, j);
  }

  /** Approving closes the open record of the key, if any, on the new record's date, and adds the new one. */
  lemma AppendClosesAndOpens<K, V>(log: seq<Approval<K, V>>, a: Approval<K, V>)
    ensures var vs := Versions(log);
            var added := Version(a.key, a.value, a.at, None);
            Versions(log + [a])
            == match LastIndex(log, a.key)
               case Some(i) => vs[i := vs[i].(until := Some(a.at))] + [added]
               case None => vs + [added]
  {
    var more := log + [a];
    assert more[..|log|] == log;
    forall i: nat | i < |log|
      ensures VersionAt(more, i)
              == if LastIndex(log, a.key) == Some(i) then VersionAt(log, i).(until := Some(a.at)) else VersionAt(log, i)
    {
      OpenIffLast(log, i);
    }
  }

  // ---------------------------------------------------------------- which instants the records cover

  predicate InForce<K, V>(v: Version<K, V>, t: int) {
    v.from <= t && (v.until.None? || t < v.until.value)
  }

  function CoversFor<K(==), V>(key: K, t: int): Version<K, V> -> int {
    (v: Version<K, V>) => if v.key == key && InForce(v, t) then 1 else 0
  }

  /** How many records of `key` are in force at `t`. */
  function Coverage<K(==), V>(log: seq<Approval<K, V>>, key: K, t: int): int {
    Sum(CoversFor(key, t), Versions(log))
  }

  predicate LastBy<K(==), V>(log: seq<Approval<K, V>>, key: K, t: int) {
    LastIndex(log, key).Some? && log[LastIndex(log, key).value].at <= t
  }

  /** How often the dates of `key`'s approvals, in approval order, come down to `t` or below. */
  function Arrivals<K(==), V>(log: seq<Approval<K, V>>, key: K, t: int): nat {
    if log == [] then 0
    else
      var front, last := log[..|log| - 1], log[|log| - 1];
      Arrivals(front, key, t) + if last.key == key && last.at <= t && !LastBy(front, key, t) then 1 else 0
  }

  lemma {:induction false} CoverageIsArrivals<K, V>(log: seq<Approval<K, V>>, key: K, t: int)
    ensures Coverage(log, key, t) == Arrivals(log, key, t)
  {
    if log != [] {
      var front, last := log[..|log| - 1], log[|log| - 1];
      CoverageIsArrivals(front, key, t);
      assert log == front + [last];
      AppendClosesAndOpens(front, last);
      var vs, f := Versions(front), CoversFor<K, V>(key, t);
      var added := Version(last.key, last.value, last.at, None);
      match LastIndex(front, last.key) {
        case Some(i) =>
          OpenIffLast(front, i);
          SumUpdate(f, vs, i, vs[i].(until := Some(last.at)));
          SumSnoc(f, vs[i := vs[i].(until := Some(last.at))], added);
        case None =>
          SumSnoc(f, vs, added);
      }
    }
  }

  /** Some approval of `key` is dated `t` or earlier. */
  predicate Reached<K(==), V>(log: seq<Approval<K, V>>, key: K, t: int) {
    exists i :: 0 <= i < |log| && log[i].key == key && log[i].at <= t
  }

  /** A record dated `t` or earlier was followed by one dated later, and then by one dated `t` or earlier again. */
  predicate Spans<K(==), V>(log: seq<Approval<K, V>>, key: K, t: int, i: int, j: int, k: int) {
    && 0 <= i < j < k < |log|
    && log[i].key == key && log[j].key == key && log[k].key == key
    && log[i].at <= t < log[j].at && log[k].at <= t
  }

  /** Some approval was backdated across `t`. */
  ghost predicate Backdated<K(!new), V>(log: seq<Approval<K, V>>, key: K, t: int) {
    exists i, j, k :: Spans(log, key, t, i, j, k)
  }

  lemma {:induction false} ArrivalsCount<K(!new), V>(log: seq<Approval<K, V>>, key: K, t: int)
    ensures Arrivals(log, key, t) >= 1 <==> Reached(log, key, t)
    ensures Arrivals(log, key, t) <= 1 <==> !Backdated(log, key, t)
  {
    if log != [] {
      var front, last := log[..|log| - 1], log[|log| - 1];
      ArrivalsCount(front, key, t);
      ReachedSnoc(front, last, key, t);
      BackdatedSnoc(front, last, key, t);
      assert log == front + [last];
    }
  }

  lemma ReachedSnoc<K, V>(front: seq<Approval<K, V>>, last: Approval<K, V>, key: K, t: int)
    ensures Reached(front + [last], key, t) <==> Reached(front, key, t) || (last.key == key && last.at <= t)
    ensures LastBy(front, key, t) ==> Reached(front, key, t)
  {
    var log := front + [last];
    if Reached(front, key, t) {
      var i :| 0 <= i < |front| && front[i].key == key && front[i].at <= t;
      assert log[i] == front[i];
    }
    if last.key == key && last.at <= t {
      assert log[|front|] == last;
    }
  }

  /** The new approval completes a backdating exactly when `t` was reached before but is not at present. */
  lemma BackdatedSnoc<K(!new), V>(front: seq<Approval<K, V>>, last: Approval<K, V>, key: K, t: int)
    ensures Backdated(front + [last], key, t) <==>
            || Backdated(front, key, t)
            || (last.key == key && last.at <= t && Reached(front, key, t) && !LastBy(front, key, t))
  {
    var log := front + [last];
    if Backdated(front, key, t) {
      var i, j, k :| Spans(front, key, t, i, j, k);
      assert Spans(log, key, t, i, j, k);
    } else if last.key == key && last.at <= t && Reached(front, key, t) && !LastBy(front, key, t) {
      var i :| 0 <= i < |front| && front[i].key == key && front[i].at <= t;
      var j := LastIndex(front, key).value;
      assert Spans(log, key, t, i, j, |front|);
    } else if Backdated(log, key, t) {
      var i, j, k :| Spans(log, key, t, i, j, k);
      EndsBackdating(front, last, key, t, i, j, k);
    }
  }

  lemma EndsBackdating<K(!new), V>(front: seq<Approval<K, V>>, last: Approval<K, V>, key: K, t: int, i: nat, j: nat, k: nat)
    requires !Backdated(front, key, t) && Spans(front + [last], key, t, i, j, k)
    ensures last.key == key && last.at <= t && Reached(front, key, t) && !LastBy(front, key, t)
  {
    assert k < |front| ==> Spans(front, key, t, i, j, k);
    assert front[i].key == key && front[i].at <= t;
    var m := LastIndex(front, key).value;
    assert front[j].key == key;
    assert front[m].at <= t ==> Spans(front, key, t, i, j, m);
  }

  /**
   * Histories never have gaps: from the earliest date approved for a key on, some record is in force at
   * every instant. Two are in force at once exactly at the instants some approval was backdated across.
   */
  lemma CoverageExact<K(!new), V>(log: seq<Approval<K, V>>, key: K, t: int)
    ensures Coverage(log, key, t) >= 0
    ensures Coverage(log, key, t) >= 1 <==> Reached(log, key, t)
    ensures Coverage(log, key, t) <= 1 <==> !Backdated(log, key, t)
  {
    CoverageIsArrivals(log, key, t);
    ArrivalsCount(log, key, t);
  }

  ghost predicate InDateOrder<K(!new), V>(log: seq<Approval<K, V>>, key: K) {
    forall i, j :: 0 <= i < j < |log| && log[i].key == key && log[j].key == key ==> log[i].at <= log[j].at
  }

  /** With approvals dated in order the records of a key tile the time line: one at every instant from the first on. */
  lemma OrderedHistoryTiles<K(!new), V>(log: seq<Approval<K, V>>, key: K, t: int)
    requires InDateOrder(log, key)
    ensures Coverage(log, key, t) == if Reached(log, key, t) then 1 else 0
  {
    CoverageExact(log, key, t);
  }

  /** Three salaries effective from days 1, 10 and, approved last, 5: on day 7 the first and the third both apply. */
  lemma BackdatedSalaryOverlaps(key: string, v: int)
    ensures Coverage([Approval(key, v, 1), Approval(key, v, 10), Approval(key, v, 5)], key, 7) >= 2
  {
    var log := [Approval(key, v, 1), Approval(key, v, 10), Approval(key, v, 5)];
    CoverageExact(log, key, 7);
    assert Spans(log, key, 7, 0, 1, 2);
  }

  // ---------------------------------------------------------------- branch managers

  type BranchId = string
  type StaffId = string

  datatype Assignment = Assignment(
    branchId: BranchId, staffId: StaffId, startDate: int, endDate: Option<int>, assignedBy: StaffId, approvedBy: StaffId)

  function AsVersion(a: Assignment): Version<BranchId, StaffId> {
    Version(a.branchId, a.staffId, a.startDate, a.endDate)
  }

  class ManagerStore {
    var assignments: seq<Assignment>
    var workplace: map<StaffId, BranchId>
    ghost var log: seq<Approval<BranchId, StaffId>>

    ghost predicate Valid()
      reads this
    {
      && |assignments| == |log|
      && (forall i :: 0 <= i < |log| ==> AsVersion(assignments[i]) == Versions(log)[i])
    }

    constructor ()
      ensures Valid() && log == []
    {
      assignments, workplace, log := [], map[], [];
    }

    /** The open assignment of a branch, which is the last one approved for it. */
    method GetCurrentManager(b: BranchId) returns (r: Option<nat>)
      requires Valid()
      ensures r == LastIndex(log, b)
      ensures r.Some? ==> r.value < |assignments| && Current(log, b) == Some(assignments[r.value].staffId)
      ensures r.None? ==> Current(log, b) == None
    {
      for i := 0 to |assignments|
        invariant forall j :: 0 <= j < i && assignments[j].branchId == b ==> assignments[j].endDate.Some?
      {
        assert AsVersion(assignments[i]) == Versions(log)[i];
        if assignments[i].branchId == b && assignments[i].endDate.None? {
          OpenIffLast(log, i);
          return Some(i);
        }
      }
      if LastIndex(log, b).Some? {
        OpenIffLast(log, LastIndex(log, b).value);
        assert AsVersion(assignments[LastIndex(log, b).value]) == Versions(log)[LastIndex(log, b).value];
      }
      return None;
    }

    /** Closes the branch's open assignment and opens the new one; the new manager's workplace follows. */
    method ApplyAssignment(b: BranchId, staff: StaffId, assignedBy: StaffId, approvedBy: StaffId, now: int)
      requires Valid()
      modifies this
      ensures Valid()
      ensures log == old(log) + [Approval(b, staff, now)]
      ensures workplace == old(workplace)[staff := b]
      ensures |assignments| == |old(assignments)| + 1
      ensures assignments[|old(assignments)|] == Assignment(b, staff, now, None, assignedBy, approvedBy)
      ensures forall i :: 0 <= i < |old(assignments)| ==>
                assignments[i] == old(assignments)[i].(endDate :=
                  if old(assignments)[i].branchId == b && old(assignments)[i].endDate == None then Some(now) else old(assignments)[i].endDate)
      ensures Current(log, b) == Some(staff)
      ensures forall c :: c != b ==> Current(log, c) == old(Current(log, c))
    {
      var previous := GetCurrentManager(b);
      if previous.Some? {
        assignments := assignments[previous.value := assignments[previous.value].(endDate := Some(now))];
      }
      assignments := assignments + [Assignment(b, staff, now, None, assignedBy, approvedBy)];
      workplace := workplace[staff := b];
      AppendClosesAndOpens(log, Approval(b, staff, now));
      AppendCurrent(log, Approval(b, staff, now));
      log := log + [Approval(b, staff, now)];
    }
  }

  lemma AppendCurrent<K(!new), V>(log: seq<Approval<K, V>>, a: Approval<K, V>)
    ensures Current(log + [a], a.key) == Some(a.value)
    ensures forall key :: key != a.key ==> Current(log + [a], key) == Current(log, key)
  {
    assert (log + [a])[..|log|] == log;
  }

  // ---------------------------------------------------------------- salaries

  datatype Salary = Salary(baseSalaryKobo: int, allowances: seq<int>)

  datatype SalaryRecord = SalaryRecord(
    staffId: StaffId, salary: Salary, effectiveFrom: int, effectiveTo: Option<int>, createdBy: StaffId)

  function SalaryVersion(r: SalaryRecord): Version<StaffId, Salary> {
    Version(r.staffId, r.salary, r.effectiveFrom, r.effectiveTo)
  }

  class SalaryStore {
    var records: seq<SalaryRecord>
    ghost var log: seq<Approval<StaffId, Salary>>

    ghost predicate Valid()
      reads this
    {
      && |records| == |log|
      && (forall i :: 0 <= i < |log| ==> SalaryVersion(records[i]) == Versions(log)[i])
    }

    constructor ()
      ensures Valid() && log == []
    {
      records, log := [], [];
    }

    method FindOpen(staff: StaffId) returns (r: Option<nat>)
      requires Valid()
      ensures r == LastIndex(log, staff) && (r.Some? ==> r.value < |records|)
    {
      for i := 0 to |records|
        invariant forall j :: 0 <= j < i && records[j].staffId == staff ==> records[j].effectiveTo.Some?
      {
        assert SalaryVersion(records[i]) == Versions(log)[i];
        if records[i].staffId == staff && records[i].effectiveTo.None? {
          OpenIffLast(log, i);
          return Some(i);
        }
      }
      if LastIndex(log, staff).Some? {
        OpenIffLast(log, LastIndex(log, staff).value);
        assert SalaryVersion(records[LastIndex(log, staff).value]) == Versions(log)[LastIndex(log, staff).value];
      }
      return None;
    }

    /** Not found exactly if no salary was ever approved; otherwise the one approved last, whatever its dates. */
    method GetCurrentSalary(staff: StaffId) returns (r: Option<Salary>)
      requires Valid()
      ensures r == Current(log, staff)
    {
      var open := FindOpen(staff);
      match open
      case None => return None;
      case Some(i) =>
        assert SalaryVersion(records[i]) == Versions(log)[i];
        return Some(records[i].salary);
    }

    /** The effective date comes with the proposal; it may lie before the one it replaces. */
    method HandleWorkflowApproved(staff: StaffId, salary: Salary, effectiveFrom: int, initiatedBy: StaffId)
      requires Valid()
      modifies this
      ensures Valid()
      ensures log == old(log) + [Approval(staff, salary, effectiveFrom)]
      ensures Current(log, staff) == Some(salary)
      ensures |records| == |old(records)| + 1
      ensures records[|old(records)|] == SalaryRecord(staff, salary, effectiveFrom, None, initiatedBy)
      ensures forall i :: 0 <= i < |old(records)| ==>
                records[i] == old(records)[i].(effectiveTo :=
                  if old(records)[i].staffId == staff && old(records)[i].effectiveTo == None then Some(effectiveFrom) else old(records)[i].effectiveTo)
    {
      var prior := FindOpen(staff);
      if prior.Some? {
        records := records[prior.value := records[prior.value].(effectiveTo := Some(effectiveFrom))];
      }
      records := records + [SalaryRecord(staff, salary, effectiveFrom, None, initiatedBy)];
      AppendClosesAndOpens(log, Approval(staff, salary, effectiveFrom));
      AppendCurrent(log, Approval(staff, salary, effectiveFrom));
      log := log + [Approval(staff, salary, effectiveFrom)];
    }
  }

  // ---------------------------------------------------------------- versioned configurations

  datatype ConfigStatus = Active | Inactive

  datatype Config<V> = Config(fields: V, status: ConfigStatus, proposedBy: StaffId, approvedBy: StaffId, approvedAt: int)

  /** A configuration has a single key and a status instead of an end date. */
  class ConfigStore<V> {
    var records: seq<Config<V>>
    ghost var log: seq<Approval<(), V>>

    ghost predicate Valid()
      reads this
    {
      && |records| == |log|
      && (forall i :: 0 <= i < |log| ==>
            records[i].fields == log[i].value && records[i].approvedAt == log[i].at &&
            (records[i].status == Active <==> Versions(log)[i].until.None?))
    }

    constructor ()
      ensures Valid() && log == []
    {
      records, log := [], [];
    }

    /** Every ACTIVE record is flipped, then the new one is inserted. */
    method HandleApproved(fields: V, proposedBy: StaffId, approvedBy: StaffId, now: int)
      requires Valid()
      modifies this
      ensures Valid()
      ensures log == old(log) + [Approval((), fields, now)]
      ensures Current(log, ()) == Some(fields)
      ensures |records| == |old(records)| + 1 && records[|old(records)|] == Config(fields, Active, proposedBy, approvedBy, now)
      ensures forall i :: 0 <= i < |old(records)| ==> records[i] == old(records)[i].(status := Inactive)
    {
      DeactivateAll();
      records := records + [Config(fields, Active, proposedBy, approvedBy, now)];
      AppendClosesAndOpens(log, Approval((), fields, now));
      AppendCurrent(log, Approval((), fields, now));
      forall i | 0 <= i < |log|
        ensures Versions(log + [Approval((), fields, now)])[i].until.Some?
      {
        var more := log + [Approval((), fields, now)];
        assert more[|log|].key == more[i].key;
        OpenIffLast(more, i);
      }
      log := log + [Approval((), fields, now)];
    }

    method DeactivateAll()
      modifies this`records
      ensures |records| == |old(records)|
      ensures forall i :: 0 <= i < |records| ==> records[i] == old(records)[i].(status := Inactive)
    {
      for i := 0 to |records|
        invariant |records| == |old(records)|
        invariant forall j :: 0 <= j < i ==> records[j] == old(records)[j].(status := Inactive)
        invariant forall j :: i <= j < |records| ==> records[j] == old(records)[j]
      {
        if records[i].status == Active {
          records := records[i := records[i].(status := Inactive)];
        }
      }
    }

    /** The active configuration is the one approved last; there is one as soon as any was approved. */
    method FindActive() returns (r: Option<V>)
      requires Valid()
      ensures r == Current(log, ())
      ensures r.None? <==> records == []
    {
      for i := 0 to |records|
        invariant forall j :: 0 <= j < i ==> records[j].status == Inactive
      {
        if records[i].status == Active {
          assert log[i].key == ();
          OpenIffLast(log, i);
          return Some(records[i].fields);
        }
      }
      if records != [] {
        OpenIffLast(log, |log| - 1);
      }
      return None;
    }
  }
}
