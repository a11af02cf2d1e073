/**
 * How the staff pages show a status: the colour and label of a staff member's
 * status chip (the same on the management page and in the detail dialog), the
 * colour, icon and label of an assignment's status chip, and which actions
 * the detail dialog offers on an assignment.
 */
module StatusChips {
  import opened Base
  import opened Text
  import opened StaffSchema

  /** The palette names a chip can take. */
  datatype Color = Success | Error | Warning | Info | Default

  datatype Icon = NoIcon | CheckCircle | CancelCircle

  /** The actions on an assignment card. */
  datatype Action = MarkCompleted | CancelAssignment | RemoveAssignment

  /** `renderStatusChip`: the colour of a staff status. */
  function StaffStatusColor(status: string): Color {
    if status == "active" then Success
    else if status == "inactive" then Error
    else if status == "on-leave" then Warning
    else Default
  }

  /** The label of a staff status chip: the first character upper-cased. */
  function StaffStatusLabel(status: string): string {
    Capitalize(status)
  }

  /** `renderAssignmentStatusChip`: the colour of an assignment status. */
  function AssignmentStatusColor(status: string): Color {
    if status == "pending" then Warning
    else if status == "in-progress" then Info
    else if status == "completed" then Success
    else if status == "cancelled" then Error
    else Default
  }

  /** Only finished assignments carry an icon. */
  function AssignmentStatusIcon(status: string): Icon {
    if status == "completed" then CheckCircle
    else if status == "cancelled" then CancelCircle
    else NoIcon
  }

  /** The first character upper-cased, and in the rest only the first `-` turned into a space. */
  function AssignmentStatusLabel(status: string): (shown: string)
    ensures |shown| == |status|
  {
    if status == [] then [] else [Upper(status[0])] + ReplaceFirst(status[1..], '-', ' ')
  }

  /** The actions offered on an assignment with the given status; removing is always offered. */
  function Actions(status: string): set<Action> {
    {RemoveAssignment}
    + (if status != "completed" then {MarkCompleted} else {})
    + (if status != "cancelled" then {CancelAssignment} else {})
  }

  /** The status a status-changing action sets. */
  function TargetStatus(act: Action): string
    requires act != RemoveAssignment
  {
    if act == MarkCompleted then "completed" else "cancelled"
  }

  /** `Current Assignments (n)`: the list's length, or 0 when the record has no list. */
  function AssignmentCount(items: Option<seq<Assignment>>): (n: nat)
    ensures items.None? ==> n == 0
    ensures items.Some? ==> n == |items.value|
  {
    if items.Some? then |items.value| else 0
  }

  // ---------------------------------------------------------------------
  // The chips tell the schema's statuses apart.
  // ---------------------------------------------------------------------

  /** A staff status gets a colour of its own exactly when it is one of the schema's statuses. */
  lemma StaffColorsOnEnum(s: string, t: string)
    ensures StaffStatusColor(s) != Default <==> s in StaffStatuses
    ensures s in StaffStatuses && t in StaffStatuses && s != t ==> StaffStatusColor(s) != StaffStatusColor(t)
  {
    assert StaffStatuses == ["active", "inactive", "on-leave"];
  }

  /** An assignment status gets a colour of its own exactly when it is one of the schema's statuses. */
  lemma AssignmentColorsOnEnum(s: string, t: string)
    ensures AssignmentStatusColor(s) != Default <==> s in AssignmentStatuses
    ensures s in AssignmentStatuses && t in AssignmentStatuses && s != t ==>
      AssignmentStatusColor(s) != AssignmentStatusColor(t)
    ensures AssignmentStatusIcon(s) != NoIcon <==> s == "completed" || s == "cancelled"
  {
    assert AssignmentStatuses == ["pending", "in-progress", "completed", "cancelled"];
  }

  // ---------------------------------------------------------------------
  // The labels can be read back.
  // ---------------------------------------------------------------------

  predicate IsLowerLetter(c: char) {
    'a' <= c <= 'z'
  }

  /** The status a staff label was made from, for statuses starting with a lower-case letter. */
  function StaffStatusOfLabel(shown: string): string {
    if shown == [] then [] else [Lower(shown[0])] + shown[1..]
  }

  /** The status an assignment label was made from: the first character lower-cased, the first space back to `-`. */
  function AssignmentStatusOfLabel(shown: string): string {
    if shown == [] then [] else [Lower(shown[0])] + ReplaceFirst(shown[1..], ' ', '-')
  }

  lemma StaffLabelRoundTrip(status: string)
    requires status != [] && IsLowerLetter(status[0])
    ensures StaffStatusOfLabel(StaffStatusLabel(status)) == status
  {
    var shown := StaffStatusLabel(status);
    assert shown[0] == Upper(status[0]) && shown[1..] == status[1..];
    assert [status[0]] + status[1..] == status;
  }

  /** Replacing the first `-` by a space and then the first space by `-` restores a text without spaces. */
  lemma ReplaceBack(t: string)
    requires ' ' !in t
    ensures ReplaceFirst(ReplaceFirst(t, '-', ' '), ' ', '-') == t
  {
    var r := ReplaceFirst(t, '-', ' ');
    var b := ReplaceFirst(r, ' ', '-');
    forall i | 0 <= i < |t| ensures b[i] == t[i] {
      if r[i] == ' ' {
        assert t[i] == '-' && '-' !in t[..i];
        assert ' ' !in r[..i] by {
          forall m | 0 <= m < i ensures r[..i][m] != ' ' {
            assert r[m] == t[m];
          }
        }
      }
    }
  }

  /**
   * An assignment label determines the status it was made from, for statuses that
   * start with a lower-case letter and contain no space; all four schema statuses do.
   */
  lemma AssignmentLabelRoundTrip(status: string)
    requires status != [] && IsLowerLetter(status[0]) && ' ' !in status
    ensures AssignmentStatusOfLabel(AssignmentStatusLabel(status)) == status
  {
    var shown := AssignmentStatusLabel(status);
    var rest := status[1..];
    assert ' ' !in rest;
    assert shown[0] == Upper(status[0]) && shown[1..] == ReplaceFirst(rest, '-', ' ');
    ReplaceBack(rest);
    assert [status[0]] + rest == status;
  }

  // ---------------------------------------------------------------------
  // What the card offers.
  // ---------------------------------------------------------------------

  /**
   * Completing is offered iff the assignment is not completed, cancelling iff it is
   * not cancelled, removing always; so a status-changing action is always offered,
   * and each one offered sets a status the assignment does not have yet.
   */
  lemma ActionsOffered(status: string)
    ensures MarkCompleted in Actions(status) <==> status != "completed"
    ensures CancelAssignment in Actions(status) <==> status != "cancelled"
    ensures RemoveAssignment in Actions(status)
    ensures MarkCompleted in Actions(status) || CancelAssignment in Actions(status)
    ensures forall act :: act in Actions(status) && act != RemoveAssignment ==>
      TargetStatus(act) != status && TargetStatus(act) in AssignmentStatuses
  {
    assert AssignmentStatuses[2] == "completed" && AssignmentStatuses[3] == "cancelled";
  }
}
