/**
 * The staff detail dialog: its assignment buttons send a status patch or a
 * removal, and its handlers set and reset the busy flags around the request.
 * The server's answer is a parameter; the dialog treats any status outside
 * 2xx as a failure, as the HTTP client throws on it.
 */
module StaffDetail {
  import opened Base
  import opened StaffSchema
  import opened StaffStore
  import opened StatusChips

  const UpdateFailed := "Failed to update assignment status"
  const RemoveFailed := "Failed to remove assignment"

  /** What a button sends to the server. */
  datatype Request =
    | UpdateStatus(staffId: Id, assignmentId: Id, patch: seq<PatchEntry>)
    | Remove(staffId: Id, assignmentId: Id)

  /** A status update sends only `{ status }`. */
  function StatusPatch(status: string): (es: seq<PatchEntry>)
    ensures |es| == 1 && KeyOf(es[0]) == StatusKey
  {
    [SetStatus(status)]
  }

  /** The request behind an action on assignment `aid` of staff member `id`. */
  function ActionRequest(id: Id, aid: Id, act: Action): Request {
    match act
    case MarkCompleted => UpdateStatus(id, aid, StatusPatch("completed"))
    case CancelAssignment => UpdateStatus(id, aid, StatusPatch("cancelled"))
    case RemoveAssignment => Remove(id, aid)
  }

  /** What the server does with a request. */
  function Serve(records: seq<Staff>, next: Id, req: Request): Outcome {
    match req
    case UpdateStatus(id, aid, es) => UpdateAssignmentOutcome(records, next, id, aid, es)
    case Remove(id, aid) => RemoveAssignmentOutcome(records, next, id, aid)
  }

  /** The HTTP client resolves on a 2xx status and throws otherwise. */
  predicate Resolved(r: Reply) {
    200 <= r.status < 300
  }

  /** A status patch changes the status of the assignment and nothing else. */
  lemma StatusPatchOnlyStatus(a: Assignment, status: string)
    ensures Patched(a, StatusPatch(status)) == a.(status := status)
  {
    assert StatusPatch(status)[..0] == [];
  }

  /** Within a record whose assignment ids are distinct, the first entry with an entry's id is that entry. */
  lemma FirstIndexOfOwnId(items: seq<Assignment>, j: nat)
    requires DistinctAssignmentIds(items) && j < |items|
    ensures FirstAssignmentIndex(items, items[j].id) == j
  {
    var i := FirstAssignmentIndex(items, items[j].id);
    assert i != -1;
  }

  /**
   * Every action the dialog offers on an assignment of a stored record succeeds
   * against a consistent collection. The server acts on the first entry carrying the
   * button's identifier: a status button stores that entry with only its status
   * changed, the remove button takes that entry out. Where the record's assignment
   * identifiers are distinct, that entry is the one the button belongs to.
   */
  lemma OfferedActionsSucceed(records: seq<Staff>, next: Id, i: nat, j: nat, act: Action)
    requires Consistent(records, next) && i < |records| && j < |records[i].assignments|
    requires act in Actions(records[i].assignments[j].status)
    ensures var items := records[i].assignments;
      var f := FirstAssignmentIndex(items, items[j].id);
      var o := Serve(records, next, ActionRequest(records[i].id, items[j].id, act));
      && 0 <= f <= j
      && (DistinctAssignmentIds(items) ==> f == j)
      && Resolved(o.reply)
      && (act != RemoveAssignment ==>
            o.records == records[i := records[i].(assignments := items[f := items[f].(status := TargetStatus(act))])])
      && (act == RemoveAssignment ==>
            o.records == records[i := records[i].(assignments := RemoveAt(items, f))])
  {
    var s := records[i];
    var items := s.assignments;
    var a := items[j];
    var f := FirstAssignmentIndex(items, a.id);
    AllSavedAt(records, next, i);
    IndexOfUnique(records, next, i);
    if DistinctAssignmentIds(items) {
      FirstIndexOfOwnId(items, j);
    }
    if act == RemoveAssignment {
      RemoveAssignmentKeepsConsistent(records, next, s.id, a.id);
    } else {
      var st := TargetStatus(act);
      var b := items[f];
      assert ValidAssignment(b);
      ActionsOffered(a.status);
      StatusPatchOnlyStatus(b, st);
      UpdateAssignmentRefusesOnlyEntry(records, next, s.id, a.id, StatusPatch(st));
      assert ValidAssignment(b.(status := st));
    }
  }

  /** The dialog's busy state. */
  class DetailState {
    var actionLoading: bool
    var actionType: string
    var selectedAssignmentId: Option<Id>
    var error: Option<string>

    constructor()
      ensures !actionLoading && actionType == "" && selectedAssignmentId == None && error == None
    {
      actionLoading := false;
      actionType := "";
      selectedAssignmentId := None;
      error := None;
    }

    /** The buttons of assignment `aid` are disabled while a request about it runs. */
    predicate Disabled(aid: Id)
      reads this
    {
      actionLoading && selectedAssignmentId == Some(aid)
    }

    /**
     * `handleUpdateAssignmentStatus`: mark the assignment busy, send `{ status }`,
     * then, whether the request resolved or threw, clear the busy flags. The
     * dialog asks for a refresh only when the request resolved.
     */
    method HandleUpdateAssignmentStatus(id: Id, aid: Id, status: string, answer: Reply)
      returns (req: Request, refreshed: bool)
      modifies this
      ensures req == UpdateStatus(id, aid, StatusPatch(status))
      ensures !actionLoading && actionType == "update" && selectedAssignmentId == None
      ensures refreshed == Resolved(answer)
      ensures error == if Resolved(answer) then None else Some(UpdateFailed)
      ensures forall b :: !Disabled(b)
    {
      actionLoading := true;
      actionType := "update";
      selectedAssignmentId := Some(aid);
      error := None;
      req := UpdateStatus(id, aid, StatusPatch(status));
      refreshed := false;
      if Resolved(answer) {
        refreshed := true;
      } else {
        error := Some(UpdateFailed);
      }
      actionLoading := false;
      selectedAssignmentId := None;
    }

    /** `handleRemoveAssignment`: the same life cycle around a removal. */
    method HandleRemoveAssignment(id: Id, aid: Id, answer: Reply) returns (req: Request, refreshed: bool)
      modifies this
      ensures req == Remove(id, aid)
      ensures !actionLoading && actionType == "remove" && selectedAssignmentId == None
      ensures refreshed == Resolved(answer)
      ensures error == if Resolved(answer) then None else Some(RemoveFailed)
      ensures forall b :: !Disabled(b)
    {
      actionLoading := true;
      actionType := "remove";
      selectedAssignmentId := Some(aid);
      error := None;
      req := Remove(id, aid);
      refreshed := false;
      if Resolved(answer) {
        refreshed := true;
      } else {
        error := Some(RemoveFailed);
      }
      actionLoading := false;
      selectedAssignmentId := None;
    }
  }
}
