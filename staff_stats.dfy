/**
 * `GET /api/staff/stats`: the number of records, the number per staff status,
 * and the `$group` stages that count records per department and per role and
 * the embedded assignments per assignment status.
 */
module StaffStatistics {
  import opened StaffSchema

  /** One document of a `$group` stage's output: `{ _id, count }`. */
  datatype Group = Group(id: string, count: nat)

  datatype Stats = Stats(
    totalStaff: nat,
    activeStaff: nat,
    inactiveStaff: nat,
    onLeaveStaff: nat,
    departmentStats: seq<Group>,
    roleStats: seq<Group>,
    assignmentStats: seq<Group>)

  /** How many times `k` occurs in `keys`: `countDocuments({ field: k })` over a column. */
  function Occurrences(keys: seq<string>, k: string): (n: nat)
    ensures n <= |keys|
  {
    if keys == [] then 0
    else Occurrences(keys[..|keys| - 1], k) + (if keys[|keys| - 1] == k then 1 else 0)
  }

  function Sum(gs: seq<Group>): nat {
    if gs == [] then 0 else Sum(gs[..|gs| - 1]) + gs[|gs| - 1].count
  }

  predicate DistinctIds(gs: seq<Group>) {
    forall i, j :: 0 <= i < j < |gs| ==> gs[i].id != gs[j].id
  }

  function IndexOfGroup(gs: seq<Group>, k: string): (i: int)
    ensures -1 <= i < |gs|
    ensures i >= 0 ==> gs[i].id == k
    ensures i < 0 ==> forall j :: 0 <= j < |gs| ==> gs[j].id != k
  {
    if gs == [] then -1
    else if gs[|gs| - 1].id == k then |gs| - 1
    else IndexOfGroup(gs[..|gs| - 1], k)
  }

  /** Feeding one more document to `$group`: its key's count goes up by one, or a new group starts. */
  function Bump(gs: seq<Group>, k: string): seq<Group> {
    var i := IndexOfGroup(gs, k);
    if i < 0 then gs + [Group(k, 1)] else gs[i := Group(k, gs[i].count + 1)]
  }

  /**
   * `{ $group: { _id: key, count: { $sum: 1 } } }` over a column of keys. MongoDB
   * leaves the order of the groups unspecified; this one lists them by first appearance.
   */
  function GroupBy(keys: seq<string>): seq<Group> {
    if keys == [] then [] else Bump(GroupBy(keys[..|keys| - 1]), keys[|keys| - 1])
  }

  function StatusColumn(records: seq<Staff>): (keys: seq<string>)
    ensures |keys| == |records| && forall k :: 0 <= k < |records| ==> keys[k] == records[k].status
  {
    seq(|records|, k requires 0 <= k < |records| => records[k].status)
  }

  function DepartmentColumn(records: seq<Staff>): (keys: seq<string>)
    ensures |keys| == |records| && forall k :: 0 <= k < |records| ==> keys[k] == records[k].department
  {
    seq(|records|, k requires 0 <= k < |records| => records[k].department)
  }

  function RoleColumn(records: seq<Staff>): (keys: seq<string>)
    ensures |keys| == |records| && forall k :: 0 <= k < |records| ==> keys[k] == records[k].role
  {
    seq(|records|, k requires 0 <= k < |records| => records[k].role)
  }

  /** The assignment statuses of one record, in list order. */
  function AssignmentColumn(s: Staff): (keys: seq<string>)
    ensures |keys| == |s.assignments|
  {
    seq(|s.assignments|, m requires 0 <= m < |s.assignments| => s.assignments[m].status)
  }

  /** `{ $unwind: '$assignments' }` followed by a projection on the status: one key per embedded assignment. */
  function Unwound(records: seq<Staff>): seq<string> {
    if records == [] then []
    else Unwound(records[..|records| - 1]) + AssignmentColumn(records[|records| - 1])
  }

  /** The number of embedded assignments across the collection. */
  function TotalAssignments(records: seq<Staff>): nat {
    if records == [] then 0
    else TotalAssignments(records[..|records| - 1]) + |records[|records| - 1].assignments|
  }

  function StaffStats(records: seq<Staff>): Stats {
    var statuses := StatusColumn(records);
    Stats(
      |records|,
      Occurrences(statuses, "active"),
      Occurrences(statuses, "inactive"),
      Occurrences(statuses, "on-leave"),
      GroupBy(DepartmentColumn(records)),
      GroupBy(RoleColumn(records)),
      GroupBy(Unwound(records)))
  }

  // ---------------------------------------------------------------------
  // What `$group` computes.
  // ---------------------------------------------------------------------

  lemma {:induction false} SumUpdate(gs: seq<Group>, i: nat, g: Group)
    requires i < |gs|
    ensures Sum(gs[i := g]) + gs[i].count == Sum(gs) + g.count
    decreases |gs|
  {
    var last := |gs| - 1;
    if i == last {
      assert gs[i := g][..last] == gs[..last];
    } else {
      assert gs[i := g][..last] == gs[..last][i := g];
      SumUpdate(gs[..last], i, g);
    }
  }

  lemma SumAppend(gs: seq<Group>, g: Group)
    ensures Sum(gs + [g]) == Sum(gs) + g.count
  {
    assert (gs + [g])[..|gs|] == gs;
  }

  lemma BumpSum(gs: seq<Group>, k: string)
    ensures Sum(Bump(gs, k)) == Sum(gs) + 1
  {
    var i := IndexOfGroup(gs, k);
    if i < 0 {
      SumAppend(gs, Group(k, 1));
    } else {
      SumUpdate(gs, i, Group(k, gs[i].count + 1));
    }
  }

  /** The group counts add up to the number of documents fed to the stage. */
  lemma {:induction false} GroupBySum(keys: seq<string>)
    ensures Sum(GroupBy(keys)) == |keys|
    decreases |keys|
  {
    if keys != [] {
      var init := keys[..|keys| - 1];
      GroupBySum(init);
      BumpSum(GroupBy(init), keys[|keys| - 1]);
    }
  }

  /** A grouped column: one group per distinct key, each counting that key's occurrences. */
  predicate Grouped(gs: seq<Group>, keys: seq<string>) {
    && DistinctIds(gs)
    && (forall i :: 0 <= i < |gs| ==> gs[i].count == Occurrences(keys, gs[i].id) && gs[i].count > 0)
    && (forall k :: k in keys ==> exists i :: 0 <= i < |gs| && gs[i].id == k)
  }

  lemma BumpGrouped(gs: seq<Group>, keys: seq<string>, k: string)
    requires Grouped(gs, keys)
    ensures Grouped(Bump(gs, k), keys + [k])
  {
    var ks := keys + [k];
    assert ks[..|keys|] == keys;
    forall x ensures Occurrences(ks, x) == Occurrences(keys, x) + (if x == k then 1 else 0) {
    }
    var i := IndexOfGroup(gs, k);
    var r := Bump(gs, k);
    if i < 0 {
      assert r == gs + [Group(k, 1)];
      assert Occurrences(keys, k) == 0 by {
        if Occurrences(keys, k) != 0 { OccursIn(keys, k); }
      }
      forall x | x in ks ensures exists j :: 0 <= j < |r| && r[j].id == x {
        if x == k { assert r[|gs|].id == x; }
        else {
          assert x in keys;
          var j :| 0 <= j < |gs| && gs[j].id == x;
          assert r[j].id == x;
        }
      }
    } else {
      assert r == gs[i := Group(k, gs[i].count + 1)];
      forall x | x in ks ensures exists j :: 0 <= j < |r| && r[j].id == x {
        if x == k { assert r[i].id == x; }
        else {
          assert x in keys;
          var j :| 0 <= j < |gs| && gs[j].id == x;
          assert r[j].id == x;
        }
      }
    }
  }

  /** A key with a positive count occurs in the column. */
  lemma {:induction false} OccursIn(keys: seq<string>, k: string)
    requires Occurrences(keys, k) > 0
    ensures k in keys
    decreases |keys|
  {
    var init := keys[..|keys| - 1];
    if keys[|keys| - 1] != k {
      OccursIn(init, k);
    }
  }

  /** `$group` yields, for each distinct key, one group whose count is that key's number of occurrences. */
  lemma {:induction false} GroupByCounts(keys: seq<string>)
    ensures Grouped(GroupBy(keys), keys)
    decreases |keys|
  {
    if keys != [] {
      var init := keys[..|keys| - 1];
      GroupByCounts(init);
      BumpGrouped(GroupBy(init), init, keys[|keys| - 1]);
      assert init + [keys[|keys| - 1]] == keys;
    }
  }

  // ---------------------------------------------------------------------
  // The figures of the statistics answer.
  // ---------------------------------------------------------------------

  /** When every key is one of three values, their occurrence counts add up to the column's length. */
  lemma {:induction false} ThreeWaySplit(keys: seq<string>, a: string, b: string, c: string)
    requires a != b && b != c && a != c
    requires forall i :: 0 <= i < |keys| ==> keys[i] == a || keys[i] == b || keys[i] == c
    ensures Occurrences(keys, a) + Occurrences(keys, b) + Occurrences(keys, c) == |keys|
    decreases |keys|
  {
    if keys != [] {
      ThreeWaySplit(keys[..|keys| - 1], a, b, c);
    }
  }

  lemma {:induction false} UnwoundCounts(records: seq<Staff>)
    ensures |Unwound(records)| == TotalAssignments(records)
    decreases |records|
  {
    if records != [] {
      UnwoundCounts(records[..|records| - 1]);
    }
  }

  /**
   * With every record passing the schema, the three status counts add up to
   * `totalStaff`; the department and role groups each add up to `totalStaff`;
   * the assignment-status groups add up to the number of embedded assignments.
   */
  lemma StatusesAddUp(records: seq<Staff>)
    requires forall k :: 0 <= k < |records| ==> records[k].status in StaffStatuses
    ensures var statuses := StatusColumn(records);
      Occurrences(statuses, "active") + Occurrences(statuses, "inactive") + Occurrences(statuses, "on-leave")
      == |records|
  {
    var statuses := StatusColumn(records);
    forall i | 0 <= i < |statuses|
      ensures statuses[i] == "active" || statuses[i] == "inactive" || statuses[i] == "on-leave"
    {
      assert statuses[i] in StaffStatuses;
    }
    ThreeWaySplit(statuses, "active", "inactive", "on-leave");
  }

  lemma StatsAddUp(records: seq<Staff>)
    requires forall k :: 0 <= k < |records| ==> ValidStaff(records[k])
    ensures var st := StaffStats(records);
      && st.totalStaff == |records|
      && st.activeStaff + st.inactiveStaff + st.onLeaveStaff == st.totalStaff
      && Sum(st.departmentStats) == st.totalStaff
      && Sum(st.roleStats) == st.totalStaff
      && Sum(st.assignmentStats) == TotalAssignments(records)
  {
    forall k | 0 <= k < |records| ensures records[k].status in StaffStatuses {
      ValidStaffFields(records[k]);
    }
    StatusesAddUp(records);
    GroupBySum(DepartmentColumn(records));
    GroupBySum(RoleColumn(records));
    GroupBySum(Unwound(records));
    UnwoundCounts(records);
  }

  /** Every department group names a department some record has, and counts exactly the records in it. */
  lemma DepartmentGroups(records: seq<Staff>)
    ensures var gs := StaffStats(records).departmentStats;
      && DistinctIds(gs)
      && (forall i :: 0 <= i < |gs| ==> gs[i].count == Occurrences(DepartmentColumn(records), gs[i].id) > 0)
      && (forall k :: 0 <= k < |records| ==> exists i :: 0 <= i < |gs| && gs[i].id == records[k].department)
  {
    var keys := DepartmentColumn(records);
    GroupByCounts(keys);
    forall k | 0 <= k < |records| ensures records[k].department in keys {
      assert keys[k] == records[k].department;
    }
  }
}
