/**
 * The anomaly detection page: the chip colours and labels of an anomaly's
 * status, the status filter menu, and the rows the table shows for the chosen
 * filter.
 */
module Anomalies {
  /** One row of the page's table. */
  datatype Anomaly = Anomaly(id: int, kind: string, date: string, status: string, assignedTo: string, location: string)

  /** The three statuses the row type allows. */
  const Statuses: seq<string> := ["fixed", "not_fixed", "pending"]

  predicate ValidAnomaly(a: Anomaly) {
    a.status in Statuses
  }

  /** The filter value that shows every row. */
  const All := "all"

  /** The rows the page is built with. */
  const SampleData: seq<Anomaly> := [
    Anomaly(1, "Physical damage", "7-04-2025", "fixed", "Tesnim", "Panel A-237"),
    Anomaly(2, "Dust Accumulation", "6-04-2025", "pending", "Ahmed", "Panel B-112"),
    Anomaly(3, "Shadow Pattern", "5-04-2025", "not_fixed", "Tesnim", "Panel C-045"),
    Anomaly(4, "Crack Detected", "4-04-2025", "fixed", "Sarah", "Panel A-189"),
    Anomaly(5, "Connection Issue", "3-04-2025", "pending", "Tesnim", "Panel D-023")
  ]

  /** A chip's background and text colour. */
  datatype Swatch = Swatch(bg: string, color: string)

  const Grey := Swatch("#e0e0e0", "#616161")

  /** `getStatusColor`. */
  function StatusColor(status: string): Swatch {
    if status == "fixed" then Swatch("#e8f5e9", "#2e7d32")
    else if status == "not_fixed" then Swatch("#ffebee", "#c62828")
    else if status == "pending" then Swatch("#fff8e1", "#f57f17")
    else Grey
  }

  /** `getStatusLabel`: the three statuses spelled for reading, anything else as it is. */
  function StatusLabel(status: string): string {
    if status == "fixed" then "Fixed"
    else if status == "not_fixed" then "Not Fixed"
    else if status == "pending" then "Pending"
    else status
  }

  /** `filter(item => item.status === status)`. */
  function Keep(data: seq<Anomaly>, status: string): (r: seq<Anomaly>)
    ensures |r| <= |data|
  {
    if data == [] then [] else (if data[0].status == status then [data[0]] else []) + Keep(data[1..], status)
  }

  /** `filteredData`. */
  function Filtered(data: seq<Anomaly>, statusFilter: string): seq<Anomaly> {
    if statusFilter == All then data else Keep(data, statusFilter)
  }

  /** How many rows have the status. */
  function CountStatus(data: seq<Anomaly>, status: string): nat {
    if data == [] then 0 else (if data[0].status == status then 1 else 0) + CountStatus(data[1..], status)
  }

  class AnomalyPage {
    var statusFilter: string
    var filterMenuOpen: bool

    constructor()
      ensures statusFilter == All && !filterMenuOpen
    {
      statusFilter := All;
      filterMenuOpen := false;
    }

    /** `handleStatusFilter`: the chosen status, and the menu closes. */
    method HandleStatusFilter(status: string)
      modifies this
      ensures statusFilter == status && !filterMenuOpen
    {
      statusFilter := status;
      filterMenuOpen := false;
    }

    /** The rows on screen. */
    function Shown(): seq<Anomaly>
      reads this
    {
      Filtered(SampleData, statusFilter)
    }
  }

  // ---------------------------------------------------------------------
  // The filter.
  // ---------------------------------------------------------------------

  /** Filtering the concatenation of two tables filters each and keeps them in order. */
  lemma {:induction false} KeepAppend(a: seq<Anomaly>, b: seq<Anomaly>, status: string)
    ensures Keep(a + b, status) == Keep(a, status) + Keep(b, status)
    decreases |a|
  {
    if a == [] {
      assert a + b == b;
    } else {
      var head := if a[0].status == status then [a[0]] else [];
      assert (a + b)[0] == a[0] && (a + b)[1..] == a[1..] + b;
      KeepAppend(a[1..], b, status);
      calc {
        Keep(a + b, status);
        head + Keep(a[1..] + b, status);
        head + (Keep(a[1..], status) + Keep(b, status));
        (head + Keep(a[1..], status)) + Keep(b, status);
        Keep(a, status) + Keep(b, status);
      }
    }
  }

  /** A row is kept exactly when it is in the table and has the status; the number kept is the count. */
  lemma {:induction false} KeepMembers(data: seq<Anomaly>, status: string)
    ensures forall x :: x in Keep(data, status) <==> x in data && x.status == status
    ensures |Keep(data, status)| == CountStatus(data, status)
    decreases |data|
  {
    if data != [] {
      KeepMembers(data[1..], status);
      assert data == [data[0]] + data[1..];
    }
  }

  /** With every row valid, the three filters split the table: their sizes add up to its size. */
  lemma {:induction false} StatusesPartition(data: seq<Anomaly>)
    requires forall k :: 0 <= k < |data| ==> ValidAnomaly(data[k])
    ensures CountStatus(data, "fixed") + CountStatus(data, "not_fixed") + CountStatus(data, "pending") == |data|
    decreases |data|
  {
    if data != [] {
      assert data[0].status in Statuses;
      StatusesPartition(data[1..]);
    }
  }

  /** `all` shows the table as it is; any other filter shows exactly the rows with that status. */
  lemma FilterMeaning(data: seq<Anomaly>, statusFilter: string)
    ensures statusFilter == All ==> Filtered(data, statusFilter) == data
    ensures statusFilter != All ==>
      forall x :: x in Filtered(data, statusFilter) <==> x in data && x.status == statusFilter
  {
    KeepMembers(data, statusFilter);
  }

  /** The sample table has two fixed, one unfixed and two pending anomalies. */
  lemma SampleCounts()
    ensures |Filtered(SampleData, "fixed")| == 2
    ensures |Filtered(SampleData, "not_fixed")| == 1
    ensures |Filtered(SampleData, "pending")| == 2
    ensures |Filtered(SampleData, All)| == 5
  {
    KeepMembers(SampleData, "fixed");
    KeepMembers(SampleData, "not_fixed");
    KeepMembers(SampleData, "pending");
  }

  // ---------------------------------------------------------------------
  // The chips.
  // ---------------------------------------------------------------------

  /**
   * Each of the three statuses gets its own colours and its own label, none of
   * them grey; any other status is grey and shown as it is.
   */
  lemma ChipsDistinguishStatuses(s: string, t: string)
    ensures s in Statuses ==> StatusColor(s) != Grey && StatusLabel(s) != s
    ensures s in Statuses && t in Statuses && s != t ==>
      StatusColor(s) != StatusColor(t) && StatusLabel(s) != StatusLabel(t)
    ensures s !in Statuses ==> StatusColor(s) == Grey && StatusLabel(s) == s
  {
    assert Statuses == ["fixed", "not_fixed", "pending"];
  }
}
