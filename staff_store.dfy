/**
 * The staff collection and the handlers of `/api/staff`: list, read, create,
 * update and delete records, and push, splice and patch the assignments
 * embedded in a record. Each handler is atomic; a handler that answers 404 or
 * 500 leaves the collection as it was, because nothing is saved.
 */
module StaffStore {
  import opened Base
  import opened Text
  import opened StaffSchema
  import opened StaffQuery
  import opened StaffStatistics

  const StaffNotFound := "Staff member not found"
  const AssignmentNotFound := "Assignment not found"

  /** The JSON body of an answer, without the `success` flag, which is `status < 400`. */
  datatype Body =
    | StaffData(staff: Staff)
    | EmptyData
    | NotFound(message: string)
    | Invalid(errors: seq<FieldError>)
    | DuplicateEmail(email: string)
    | DuplicateId(id: Id)
    | ImmutableId

  datatype Reply = Reply(status: nat, body: Body)

  predicate Success(r: Reply) {
    r.status < 400
  }

  // ---------------------------------------------------------------------
  // What the collection keeps true.
  // ---------------------------------------------------------------------

  /**
   * Every identifier in a record, its own and its assignments', is below `next`. The
   * counter stands for ObjectId generation: kept above every identifier stored, sent
   * in a body or generated, it never hands out one the collection already holds.
   */
  predicate IdsBelow(s: Staff, next: Id) {
    s.id < next && forall m :: 0 <= m < |s.assignments| ==> s.assignments[m].id < next
  }

  /** The counter moved above the identifiers of `items`. */
  function AboveEntries(next: Id, items: seq<Assignment>): (r: Id)
    ensures next <= r && forall m :: 0 <= m < |items| ==> items[m].id < r
  {
    if items == [] then next
    else
      var r := AboveEntries(next, items[..|items| - 1]);
      assert forall m :: 0 <= m < |items| - 1 ==> items[m] == items[..|items| - 1][m];
      if items[|items| - 1].id < r then r else items[|items| - 1].id + 1
  }

  /** The counter after the record `s` is written: above every identifier it holds. */
  function Above(next: Id, s: Staff): (r: Id)
    ensures next <= r && IdsBelow(s, r)
  {
    AboveEntries(if s.id < next then next else s.id + 1, s.assignments)
  }

  /** The record at position `k` passes the schema and has only identifiers handed out before `next`. */
  predicate SavedAt(records: seq<Staff>, next: Id, k: nat)
    requires k < |records|
  {
    ValidStaff(records[k]) && IdsBelow(records[k], next)
  }

  /**
   * Every record is saved. Stated through `SavedAt`, so that a record's schema
   * conditions are unfolded only where a proof names its position.
   */
  predicate AllSaved(records: seq<Staff>, next: Id) {
    forall k :: 0 <= k < |records| ==> SavedAt(records, next, k)
  }

  /**
   * Every stored record passes the schema, identifiers are unique, the unique
   * index on `email` holds, and the identifier counter is ahead of every id.
   */
  predicate Consistent(records: seq<Staff>, next: Id) {
    && AllSaved(records, next)
    && (forall k, l :: 0 <= k < l < |records| ==> records[k].id != records[l].id)
    && (forall k, l {:trigger EmailAt(records, k), EmailAt(records, l)} ::
          0 <= k < l < |records| ==> EmailAt(records, k) != EmailAt(records, l))
  }

  /**
   * The e-mail of the record at position `k`. The unique index is stated through it,
   * so that the solver compares e-mails only where a proof mentions them.
   */
  function EmailAt(records: seq<Staff>, k: nat): string
    requires k < |records|
  {
    records[k].email
  }

  predicate HasId(records: seq<Staff>, id: Id) {
    exists k :: 0 <= k < |records| && records[k].id == id
  }

  /** Whether a record other than the one with identifier `self` uses `email`. */
  predicate EmailTaken(records: seq<Staff>, email: string, self: Option<Id>) {
    exists k {:trigger EmailAt(records, k)} :: 0 <= k < |records| && EmailAt(records, k) == email && Some(records[k].id) != self
  }

  /** `findById`: where the record with identifier `id` sits, if anywhere. */
  function IndexOfStaff(records: seq<Staff>, id: Id): (r: Option<nat>)
    ensures r.Some? ==> r.value < |records| && records[r.value].id == id
    ensures r.None? <==> !HasId(records, id)
  {
    if records == [] then None
    else if records[|records| - 1].id == id then Some(|records| - 1)
    else
      var r := IndexOfStaff(records[..|records| - 1], id);
      assert forall k :: 0 <= k < |records| - 1 ==> records[k] == records[..|records| - 1][k];
      r
  }

  // ---------------------------------------------------------------------
  // The embedded assignment list.
  // ---------------------------------------------------------------------

  /** The position of the first assignment with identifier `aid`, or -1. */
  function FirstAssignmentIndex(items: seq<Assignment>, aid: Id): (i: int)
    ensures -1 <= i < |items|
    ensures i == -1 <==> forall k :: 0 <= k < |items| ==> items[k].id != aid
    ensures i >= 0 ==> items[i].id == aid && forall k :: 0 <= k < i ==> items[k].id != aid
  {
    if items == [] then -1
    else if items[0].id == aid then 0
    else
      var j := FirstAssignmentIndex(items[1..], aid);
      assert forall k :: 1 <= k < |items| ==> items[k] == items[1..][k - 1];
      if j == -1 then -1 else j + 1
  }

  /** `assignments.findIndex(a => a._id === aid)`, and the `.id(aid)` lookup, by a scan from the front. */
  method FindAssignmentIndex(items: seq<Assignment>, aid: Id) returns (i: int)
    ensures i == FirstAssignmentIndex(items, aid)
  {
    i := 0;
    while i < |items|
      invariant 0 <= i <= |items|
      invariant forall k :: 0 <= k < i ==> items[k].id != aid
    {
      if items[i].id == aid {
        return;
      }
      i := i + 1;
    }
    i := -1;
  }

  /** An identifier that only the last entry carries is found at the end. */
  lemma FirstIsLast(items: seq<Assignment>, aid: Id)
    requires items != [] && items[|items| - 1].id == aid
    requires forall k :: 0 <= k < |items| - 1 ==> items[k].id != aid
    ensures FirstAssignmentIndex(items, aid) == |items| - 1
  {
  }

  /** `splice(i, 1)`. */
  function RemoveAt(items: seq<Assignment>, i: nat): (r: seq<Assignment>)
    requires i < |items|
    ensures |r| == |items| - 1
    ensures forall k :: 0 <= k < i ==> r[k] == items[k]
    ensures forall k :: i <= k < |r| ==> r[k] == items[k + 1]
  {
    items[..i] + items[i + 1..]
  }

  /**
   * One key of an assignment patch and its value; a JSON body holds each key at most
   * once, and may hold any path of the entry, `_id`, `assignedBy` and `createdAt` included.
   */
  datatype PatchEntry =
    | SetTitle(title: string)
    | SetDescription(description: string)
    | SetLocation(location: string)
    | SetStartDate(startDate: Option<Date>)
    | SetEndDate(endDate: Option<Date>)
    | SetStatus(status: string)
    | SetId(id: Id)
    | SetAssignedBy(assignedBy: UserId)
    | SetCreatedAt(createdAt: Date)

  /** `assignment[key] = value`, through the schema's setters (the title is trimmed). */
  function Assign(a: Assignment, e: PatchEntry): Assignment {
    match e
    case SetTitle(t) => a.(title := Trim(t))
    case SetDescription(d) => a.(description := d)
    case SetLocation(l) => a.(location := l)
    case SetStartDate(d) => a.(startDate := d)
    case SetEndDate(d) => a.(endDate := d)
    case SetStatus(s) => a.(status := s)
    case SetId(i) => a.(id := i)
    case SetAssignedBy(u) => a.(assignedBy := Some(u))
    case SetCreatedAt(d) => a.(createdAt := d)
  }

  /** The keys of an assignment a patch may write, and the values they hold. */
  datatype Key =
    | TitleKey | DescriptionKey | LocationKey | StartDateKey | EndDateKey | StatusKey
    | IdKey | AssignedByKey | CreatedAtKey
  datatype Value = Text(text: string) | Day(day: Option<Date>) | Number(n: nat) | Who(who: Option<UserId>)

  function KeyOf(e: PatchEntry): Key {
    match e
    case SetTitle(_) => TitleKey
    case SetDescription(_) => DescriptionKey
    case SetLocation(_) => LocationKey
    case SetStartDate(_) => StartDateKey
    case SetEndDate(_) => EndDateKey
    case SetStatus(_) => StatusKey
    case SetId(_) => IdKey
    case SetAssignedBy(_) => AssignedByKey
    case SetCreatedAt(_) => CreatedAtKey
  }

  /** The value a key holds once written; the title's setter trims it. */
  function ValueOf(e: PatchEntry): Value {
    match e
    case SetTitle(t) => Text(Trim(t))
    case SetDescription(d) => Text(d)
    case SetLocation(l) => Text(l)
    case SetStartDate(d) => Day(d)
    case SetEndDate(d) => Day(d)
    case SetStatus(s) => Text(s)
    case SetId(i) => Number(i)
    case SetAssignedBy(u) => Who(Some(u))
    case SetCreatedAt(d) => Number(d)
  }

  /** The value of one key of an assignment. */
  function Get(a: Assignment, k: Key): Value {
    match k
    case TitleKey => Text(a.title)
    case DescriptionKey => Text(a.description)
    case LocationKey => Text(a.location)
    case StartDateKey => Day(a.startDate)
    case EndDateKey => Day(a.endDate)
    case StatusKey => Text(a.status)
    case IdKey => Number(a.id)
    case AssignedByKey => Who(a.assignedBy)
    case CreatedAtKey => Number(a.createdAt)
  }

  /** Writing one key changes that key's value and no other. */
  lemma GetAssign(a: Assignment, e: PatchEntry, k: Key)
    ensures Get(Assign(a, e), k) == if KeyOf(e) == k then ValueOf(e) else Get(a, k)
  {
  }

  /** The last entry of the patch for key `k`. */
  function LastFor(es: seq<PatchEntry>, k: Key): (r: Option<PatchEntry>)
    ensures r.Some? ==> KeyOf(r.value) == k && r.value in es
    ensures r.None? <==> forall m :: 0 <= m < |es| ==> KeyOf(es[m]) != k
  {
    if es == [] then None
    else if KeyOf(es[|es| - 1]) == k then Some(es[|es| - 1])
    else
      var r := LastFor(es[..|es| - 1], k);
      assert forall m :: 0 <= m < |es| - 1 ==> es[m] == es[..|es| - 1][m];
      r
  }

  /** The assignment after every key of the patch has been written, first key to last. */
  function Patched(a: Assignment, es: seq<PatchEntry>): Assignment
    decreases |es|
  {
    if es == [] then a else Assign(Patched(a, es[..|es| - 1]), es[|es| - 1])
  }

  /**
   * A key the patch holds takes the patch's value (the title trimmed); every key it
   * does not hold keeps the assignment's value.
   */
  lemma {:induction false} PatchedFields(a: Assignment, es: seq<PatchEntry>, k: Key)
    ensures Get(Patched(a, es), k) ==
      if LastFor(es, k).Some? then ValueOf(LastFor(es, k).value) else Get(a, k)
    decreases |es|
  {
    if es != [] {
      PatchedFields(a, es[..|es| - 1], k);
      GetAssign(Patched(a, es[..|es| - 1]), es[|es| - 1], k);
    }
  }

  /** `Object.keys(body).forEach(key => { assignment[key] = body[key]; })`. */
  method ApplyPatch(a: Assignment, es: seq<PatchEntry>) returns (r: Assignment)
    ensures r == Patched(a, es)
  {
    r := a;
    var i := 0;
    while i < |es|
      invariant 0 <= i <= |es|
      invariant r == Patched(a, es[..i])
    {
      assert es[..i + 1][..i] == es[..i];
      r := Assign(r, es[i]);
      i := i + 1;
    }
    assert es[..|es|] == es;
  }

  // ---------------------------------------------------------------------
  // `findByIdAndUpdate` with a body: the keys present replace the fields.
  // ---------------------------------------------------------------------

  /**
   * The record after an update with `patch`: every key the body holds replaces the
   * field (the name setter trims), `assignments` replaces the whole list with entries
   * built from the body, and `user` and `createdAt` are written like any other path.
   * The record keeps its `_id`.
   */
  function Merge(s: Staff, patch: StaffInput, newId: Id, now: Date): Staff {
    s.(
      name := if patch.name.Some? then Trim(patch.name.value) else s.name,
      email := Or(patch.email, s.email),
      phone := if patch.phone.Some? then patch.phone else s.phone,
      role := Or(patch.role, s.role),
      department := Or(patch.department, s.department),
      status := Or(patch.status, s.status),
      profileImage := Or(patch.profileImage, s.profileImage),
      assignments := if patch.assignments.Some? then NewAssignments(patch.assignments.value, newId, now) else s.assignments,
      user := Or(patch.user, s.user),
      createdAt := Or(patch.createdAt, s.createdAt))
  }

  // ---------------------------------------------------------------------
  // The collection keeps its invariant under each kind of write.
  // ---------------------------------------------------------------------

  lemma AllSavedAt(records: seq<Staff>, next: Id, k: nat)
    requires AllSaved(records, next) && k < |records|
    ensures ValidStaff(records[k]) && IdsBelow(records[k], next)
  {
    assert SavedAt(records, next, k);
  }

  lemma AllSavedReplace(records: seq<Staff>, next: Id, i: nat, s: Staff)
    requires AllSaved(records, next) && i < |records|
    requires ValidStaff(s) && IdsBelow(s, next)
    ensures AllSaved(records[i := s], next)
  {
    var rs := records[i := s];
    forall k | 0 <= k < |rs|
      ensures SavedAt(rs, next, k)
    {
      if k != i {
        assert SavedAt(records, next, k);
      }
    }
  }

  lemma AllSavedRemove(records: seq<Staff>, next: Id, i: nat)
    requires AllSaved(records, next) && i < |records|
    ensures AllSaved(records[..i] + records[i + 1..], next)
  {
    var rs := records[..i] + records[i + 1..];
    forall k | 0 <= k < |rs|
      ensures SavedAt(rs, next, k)
    {
      var k' := if k < i then k else k + 1;
      assert rs[k] == records[k'];
      assert SavedAt(records, next, k');
    }
  }

  lemma AllSavedRaise(records: seq<Staff>, next: Id, next': Id)
    requires AllSaved(records, next) && next <= next'
    ensures AllSaved(records, next')
  {
    forall k | 0 <= k < |records|
      ensures SavedAt(records, next', k)
    {
      assert SavedAt(records, next, k);
    }
  }

  /** Appending a saved record under an identifier and an e-mail no record uses keeps the collection consistent. */
  lemma ConsistentAppend(records: seq<Staff>, next: Id, s: Staff)
    requires Consistent(records, next)
    requires ValidStaff(s) && IdsBelow(s, next)
    requires !HasId(records, s.id) && !EmailTaken(records, s.email, None)
    ensures Consistent(records + [s], next)
  {
    var rs := records + [s];
    forall k | 0 <= k < |rs|
      ensures SavedAt(rs, next, k)
    {
      if k < |records| {
        assert rs[k] == records[k];
        assert SavedAt(records, next, k);
      }
    }
    forall k, l | 0 <= k < l < |rs|
      ensures rs[k].id != rs[l].id && EmailAt(rs, k) != EmailAt(rs, l)
    {
      assert rs[k] == records[k];
      if l == |records| {
        assert EmailAt(records, k) != s.email;
      } else {
        assert EmailAt(records, k) != EmailAt(records, l);
      }
    }
  }

  lemma ConsistentReplace(records: seq<Staff>, next: Id, i: nat, s: Staff)
    requires Consistent(records, next) && i < |records|
    requires ValidStaff(s) && IdsBelow(s, next) && s.id == records[i].id
    requires !EmailTaken(records, s.email, Some(s.id))
    ensures Consistent(records[i := s], next)
  {
    AllSavedReplace(records, next, i, s);
    var rs := records[i := s];
    forall k, l | 0 <= k < l < |rs|
      ensures rs[k].id != rs[l].id && EmailAt(rs, k) != EmailAt(rs, l)
    {
      if k == i {
        assert EmailAt(records, l) != s.email;
      } else if l == i {
        assert EmailAt(records, k) != s.email;
      } else {
        assert EmailAt(records, k) != EmailAt(records, l);
      }
    }
  }

  lemma ConsistentRemove(records: seq<Staff>, next: Id, i: nat)
    requires Consistent(records, next) && i < |records|
    ensures Consistent(records[..i] + records[i + 1..], next)
  {
    AllSavedRemove(records, next, i);
    var rs := records[..i] + records[i + 1..];
    assert forall k :: 0 <= k < |rs| ==> rs[k] == records[if k < i then k else k + 1];
    forall k, l | 0 <= k < l < |rs|
      ensures EmailAt(rs, k) != EmailAt(rs, l)
    {
      var k', l' := if k < i then k else k + 1, if l < i then l else l + 1;
      assert EmailAt(records, k') != EmailAt(records, l');
    }
  }

  lemma ConsistentRaise(records: seq<Staff>, next: Id, next': Id)
    requires Consistent(records, next) && next <= next'
    ensures Consistent(records, next')
  {
    AllSavedRaise(records, next, next');
  }

  /** A stored record's own e-mail is not taken by another record. */
  lemma OwnEmailFree(records: seq<Staff>, next: Id, i: nat)
    requires Consistent(records, next) && i < |records|
    ensures !EmailTaken(records, records[i].email, Some(records[i].id))
  {
    forall k | 0 <= k < |records| && k != i
      ensures EmailAt(records, k) != records[i].email
    {
      assert EmailAt(records, k) != EmailAt(records, i);
    }
  }

  /**
   * Writing a saved record at position `i`, under its own identifier and an e-mail no
   * other record uses, keeps the collection consistent once the counter is above its ids.
   */
  lemma WriteKeepsConsistent(records: seq<Staff>, next: Id, i: nat, t: Staff)
    requires Consistent(records, next) && i < |records|
    requires ValidStaff(t) && t.id == records[i].id && !EmailTaken(records, t.email, Some(t.id))
    ensures Consistent(records[i := t], Above(next, t))
  {
    ConsistentRaise(records, next, Above(next, t));
    ConsistentReplace(records, Above(next, t), i, t);
  }

  /** A generated identifier is free: no record and no entry in a consistent collection carries `next`. */
  lemma GeneratedIdFree(records: seq<Staff>, next: Id)
    requires Consistent(records, next)
    ensures !HasId(records, next)
    ensures forall k, m :: 0 <= k < |records| && 0 <= m < |records[k].assignments| ==> records[k].assignments[m].id != next
  {
    forall k | 0 <= k < |records|
      ensures IdsBelow(records[k], next)
    {
      AllSavedAt(records, next, k);
    }
  }

  /** Splicing an entry out of a valid record leaves a valid record. */
  lemma RemoveKeepsValid(s: Staff, next: Id, j: nat)
    requires ValidStaff(s) && IdsBelow(s, next) && j < |s.assignments|
    ensures var t := s.(assignments := RemoveAt(s.assignments, j));
      ValidStaff(t) && IdsBelow(t, next)
  {
    var items := RemoveAt(s.assignments, j);
    assert forall k :: 0 <= k < |items| ==> items[k] == s.assignments[if k < j then k else k + 1];
  }

  /** Replacing one entry of a valid record gives a valid record exactly when the new entry is valid. */
  lemma ReplaceEntryValid(s: Staff, j: nat, a: Assignment)
    requires ValidStaff(s) && j < |s.assignments|
    ensures ValidStaff(s.(assignments := s.assignments[j := a])) <==> ValidAssignment(a)
  {
    var items := s.assignments[j := a];
    assert items[j] == a;
  }

  /** Pushing onto a valid record gives a valid record exactly when the new entry is valid. */
  lemma PushEntryValid(s: Staff, a: Assignment)
    requires ValidStaff(s)
    ensures ValidStaff(s.(assignments := s.assignments + [a])) <==> ValidAssignment(a)
  {
    var items := s.assignments + [a];
    assert items[|s.assignments|] == a;
    assert forall k :: 0 <= k < |s.assignments| ==> items[k] == s.assignments[k];
  }

  // ---------------------------------------------------------------------
  // What each handler answers and leaves behind.
  // ---------------------------------------------------------------------

  /** A handler's answer, with the collection and the identifier counter it leaves. */
  datatype Outcome = Outcome(reply: Reply, records: seq<Staff>, next: Id)

  /**
   * POST /api/staff: the caller becomes `user`; a refused record, an `_id` or an
   * e-mail already in use answers 500.
   */
  function CreateOutcome(records: seq<Staff>, next: Id, input: StaffInput, caller: UserId, now: Date): Outcome {
    var s := NewStaff(input, next, caller, now);
    var errs := StaffErrors(s);
    if errs != [] then Outcome(Reply(500, Invalid(errs)), records, next)
    else if HasId(records, s.id) then Outcome(Reply(500, DuplicateId(s.id)), records, next)
    else if EmailTaken(records, s.email, None) then Outcome(Reply(500, DuplicateEmail(s.email)), records, next)
    else Outcome(Reply(201, StaffData(s)), records + [s], Above(next, s))
  }

  /**
   * PUT /api/staff/:id with the update validators on: the keys of the body replace
   * the record's fields, and the result must pass the schema and the e-mail index.
   * A body `_id` other than the record's is refused, as `_id` cannot change.
   */
  function UpdateOutcome(records: seq<Staff>, next: Id, id: Id, patch: StaffInput, now: Date): Outcome {
    match IndexOfStaff(records, id)
    case None => Outcome(Reply(404, NotFound(StaffNotFound)), records, next)
    case Some(i) =>
      if patch.id.Some? && patch.id.value != id then Outcome(Reply(500, ImmutableId), records, next)
      else
        var m := Merge(records[i], patch, next, now);
        var errs := StaffErrors(m);
        if errs != [] then Outcome(Reply(500, Invalid(errs)), records, next)
        else if EmailTaken(records, m.email, Some(id)) then Outcome(Reply(500, DuplicateEmail(m.email)), records, next)
        else Outcome(Reply(200, StaffData(m)), records[i := m], Above(next, m))
  }

  /** DELETE /api/staff/:id. */
  function DeleteOutcome(records: seq<Staff>, next: Id, id: Id): Outcome {
    match IndexOfStaff(records, id)
    case None => Outcome(Reply(404, NotFound(StaffNotFound)), records, next)
    case Some(i) => Outcome(Reply(200, EmptyData), records[..i] + records[i + 1..], next)
  }

  /**
   * POST /api/staff/:id/assignments: the body, with the caller written over its
   * `assignedBy`, is pushed at the end.
   */
  function AddAssignmentOutcome(records: seq<Staff>, next: Id, id: Id, input: AssignmentInput, caller: UserId, now: Date): Outcome {
    PushOutcome(records, next, id, PushedAssignment(input, next, caller, now))
  }

  /** Pushes the entry `a` onto the record with identifier `id`; the save validates the whole record. */
  function PushOutcome(records: seq<Staff>, next: Id, id: Id, a: Assignment): Outcome {
    match IndexOfStaff(records, id)
    case None => Outcome(Reply(404, NotFound(StaffNotFound)), records, next)
    case Some(i) =>
      var t := records[i].(assignments := records[i].assignments + [a]);
      var errs := StaffErrors(t);
      if errs != [] then Outcome(Reply(500, Invalid(errs)), records, next)
      else Outcome(Reply(200, StaffData(t)), records[i := t], Above(next, t))
  }

  /** DELETE /api/staff/:id/assignments/:assignmentId: splices out the first entry with that id, then saves. */
  function RemoveAssignmentOutcome(records: seq<Staff>, next: Id, id: Id, aid: Id): Outcome {
    match IndexOfStaff(records, id)
    case None => Outcome(Reply(404, NotFound(StaffNotFound)), records, next)
    case Some(i) =>
      var j := FirstAssignmentIndex(records[i].assignments, aid);
      if j == -1 then Outcome(Reply(404, NotFound(AssignmentNotFound)), records, next)
      else
        var t := records[i].(assignments := RemoveAt(records[i].assignments, j));
        var errs := StaffErrors(t);
        if errs != [] then Outcome(Reply(500, Invalid(errs)), records, next)
        else Outcome(Reply(200, StaffData(t)), records[i := t], next)
  }

  /**
   * PUT /api/staff/:id/assignments/:assignmentId: writes each key of the body into
   * the first entry with that id, then saves the whole record.
   */
  function UpdateAssignmentOutcome(records: seq<Staff>, next: Id, id: Id, aid: Id, es: seq<PatchEntry>): Outcome {
    match IndexOfStaff(records, id)
    case None => Outcome(Reply(404, NotFound(StaffNotFound)), records, next)
    case Some(i) =>
      var items := records[i].assignments;
      var j := FirstAssignmentIndex(items, aid);
      if j == -1 then Outcome(Reply(404, NotFound(AssignmentNotFound)), records, next)
      else
        var t := records[i].(assignments := items[j := Patched(items[j], es)]);
        var errs := StaffErrors(t);
        if errs != [] then Outcome(Reply(500, Invalid(errs)), records, next)
        else Outcome(Reply(200, StaffData(t)), records[i := t], Above(next, t))
  }

  // ---------------------------------------------------------------------
  // Every handler keeps the collection consistent, and a failed one saves nothing.
  // ---------------------------------------------------------------------

  lemma CreateKeepsConsistent(records: seq<Staff>, next: Id, input: StaffInput, caller: UserId, now: Date)
    requires Consistent(records, next)
    ensures var o := CreateOutcome(records, next, input, caller, now);
      && Consistent(o.records, o.next)
      && (!Success(o.reply) ==> o.records == records && o.next == next)
  {
    var s := NewStaff(input, next, caller, now);
    if StaffErrors(s) == [] && !HasId(records, s.id) && !EmailTaken(records, s.email, None) {
      StaffErrorsIff(s);
      ConsistentRaise(records, next, Above(next, s));
      ConsistentAppend(records, Above(next, s), s);
    }
  }

  lemma UpdateKeepsConsistent(records: seq<Staff>, next: Id, id: Id, patch: StaffInput, now: Date)
    requires Consistent(records, next)
    ensures var o := UpdateOutcome(records, next, id, patch, now);
      && Consistent(o.records, o.next)
      && (!Success(o.reply) ==> o.records == records && o.next == next)
      && (o.reply == Reply(404, NotFound(StaffNotFound)) <==> !HasId(records, id))
  {
    match IndexOfStaff(records, id)
    case None =>
    case Some(i) =>
      if patch.id.None? || patch.id.value == id {
        var m := Merge(records[i], patch, next, now);
        AllSavedAt(records, next, i);
        if StaffErrors(m) == [] && !EmailTaken(records, m.email, Some(id)) {
          StaffErrorsIff(m);
          WriteKeepsConsistent(records, next, i, m);
        }
      }
  }

  lemma DeleteKeepsConsistent(records: seq<Staff>, next: Id, id: Id)
    requires Consistent(records, next)
    ensures var o := DeleteOutcome(records, next, id);
      && Consistent(o.records, o.next)
      && (!Success(o.reply) ==> o.records == records && o.next == next)
      && (o.reply == Reply(404, NotFound(StaffNotFound)) <==> !HasId(records, id))
  {
    match IndexOfStaff(records, id)
    case None =>
    case Some(i) => ConsistentRemove(records, next, i);
  }

  lemma PushKeepsConsistent(records: seq<Staff>, next: Id, id: Id, a: Assignment)
    requires Consistent(records, next)
    ensures var o := PushOutcome(records, next, id, a);
      && Consistent(o.records, o.next)
      && (!Success(o.reply) ==> o.records == records && o.next == next)
      && (o.reply == Reply(404, NotFound(StaffNotFound)) <==> !HasId(records, id))
  {
    match IndexOfStaff(records, id)
    case None =>
      assert PushOutcome(records, next, id, a) == Outcome(Reply(404, NotFound(StaffNotFound)), records, next);
    case Some(i) =>
      var t := records[i].(assignments := records[i].assignments + [a]);
      if StaffErrors(t) == [] {
        AllSavedAt(records, next, i);
        StaffErrorsIff(t);
        OwnEmailFree(records, next, i);
        WriteKeepsConsistent(records, next, i, t);
        assert PushOutcome(records, next, id, a) == Outcome(Reply(200, StaffData(t)), records[i := t], Above(next, t));
      } else {
        assert PushOutcome(records, next, id, a) == Outcome(Reply(500, Invalid(StaffErrors(t))), records, next);
      }
  }

  lemma AddAssignmentKeepsConsistent(records: seq<Staff>, next: Id, id: Id, input: AssignmentInput, caller: UserId, now: Date)
    requires Consistent(records, next)
    ensures var o := AddAssignmentOutcome(records, next, id, input, caller, now);
      && Consistent(o.records, o.next)
      && (!Success(o.reply) ==> o.records == records && o.next == next)
      && (o.reply == Reply(404, NotFound(StaffNotFound)) <==> !HasId(records, id))
  {
    PushKeepsConsistent(records, next, id, PushedAssignment(input, next, caller, now));
  }

  /** Besides keeping the collection consistent, a splice from a consistent collection is never refused on save. */
  lemma RemoveAssignmentKeepsConsistent(records: seq<Staff>, next: Id, id: Id, aid: Id)
    requires Consistent(records, next)
    ensures var o := RemoveAssignmentOutcome(records, next, id, aid);
      && Consistent(o.records, o.next)
      && (!Success(o.reply) ==> o.records == records && o.next == next)
      && (o.reply == Reply(404, NotFound(StaffNotFound)) <==> !HasId(records, id))
      && o.reply.status != 500
  {
    match IndexOfStaff(records, id)
    case None =>
    case Some(i) =>
      var j := FirstAssignmentIndex(records[i].assignments, aid);
      if j != -1 {
        var t := records[i].(assignments := RemoveAt(records[i].assignments, j));
        AllSavedAt(records, next, i);
        RemoveKeepsValid(records[i], next, j);
        StaffErrorsIff(t);
        OwnEmailFree(records, next, i);
        ConsistentReplace(records, next, i, t);
      }
  }

  lemma UpdateAssignmentKeepsConsistent(records: seq<Staff>, next: Id, id: Id, aid: Id, es: seq<PatchEntry>)
    requires Consistent(records, next)
    ensures var o := UpdateAssignmentOutcome(records, next, id, aid, es);
      && Consistent(o.records, o.next)
      && (!Success(o.reply) ==> o.records == records && o.next == next)
      && (o.reply == Reply(404, NotFound(StaffNotFound)) <==> !HasId(records, id))
  {
    match IndexOfStaff(records, id)
    case None =>
    case Some(i) =>
      var items := records[i].assignments;
      var j := FirstAssignmentIndex(items, aid);
      if j != -1 {
        var a := Patched(items[j], es);
        var t := records[i].(assignments := items[j := a]);
        if StaffErrors(t) == [] {
          AllSavedAt(records, next, i);
          StaffErrorsIff(t);
          OwnEmailFree(records, next, i);
          WriteKeepsConsistent(records, next, i, t);
        }
      }
  }

  // ---------------------------------------------------------------------
  // What a successful handler leaves.
  // ---------------------------------------------------------------------

  /**
   * A created record is found under its identifier afterwards; without a body `_id`
   * that identifier is the generated one, which no stored record carried.
   */
  lemma CreateThenRead(records: seq<Staff>, next: Id, input: StaffInput, caller: UserId, now: Date)
    requires Consistent(records, next)
    requires Success(CreateOutcome(records, next, input, caller, now).reply)
    ensures var o := CreateOutcome(records, next, input, caller, now);
      var s := NewStaff(input, next, caller, now);
      && ValidStaff(s) && !HasId(records, s.id)
      && IndexOfStaff(o.records, s.id) == Some(|records|) && o.records[|records|] == s
      && (input.id.None? ==> s.id == next)
  {
    var s := NewStaff(input, next, caller, now);
    StaffErrorsIff(s);
  }

  /** Without a body `_id`, a create is never refused as a duplicate key: the generated identifier is free. */
  lemma GeneratedIdNeverDuplicate(records: seq<Staff>, next: Id, input: StaffInput, caller: UserId, now: Date)
    requires Consistent(records, next) && input.id.None?
    ensures CreateOutcome(records, next, input, caller, now).reply.body != DuplicateId(next)
    ensures !CreateOutcome(records, next, input, caller, now).reply.body.DuplicateId?
  {
    GeneratedIdFree(records, next);
  }

  /** Deleting an existing record removes exactly that record: its identifier is gone and the others stay. */
  lemma DeleteRemovesRecord(records: seq<Staff>, next: Id, id: Id)
    requires Consistent(records, next) && HasId(records, id)
    ensures var o := DeleteOutcome(records, next, id);
      && o.reply == Reply(200, EmptyData) && |o.records| == |records| - 1 && !HasId(o.records, id)
      && forall k :: 0 <= k < |records| && records[k].id != id ==> records[k] in o.records
  {
    var i := IndexOfStaff(records, id).value;
    var rs := records[..i] + records[i + 1..];
    assert forall k :: 0 <= k < |rs| ==> rs[k] == records[if k < i then k else k + 1];
    forall k | 0 <= k < |records| && records[k].id != id
      ensures records[k] in rs
    {
      assert rs[if k < i then k else k - 1] == records[k];
    }
  }

  /**
   * The save after a push validates the whole record, yet on a consistent collection
   * only the new entry can make it fail.
   */
  lemma AddAssignmentRefusesOnlyEntry(records: seq<Staff>, next: Id, id: Id, input: AssignmentInput, caller: UserId, now: Date)
    requires Consistent(records, next) && HasId(records, id)
    ensures Success(AddAssignmentOutcome(records, next, id, input, caller, now).reply)
      <==> ValidAssignment(PushedAssignment(input, next, caller, now))
  {
    var i := IndexOfStaff(records, id).value;
    var a := PushedAssignment(input, next, caller, now);
    var t := records[i].(assignments := records[i].assignments + [a]);
    AllSavedAt(records, next, i);
    PushEntryValid(records[i], a);
    StaffErrorsIff(t);
  }

  /** Likewise for a patched entry: the save fails exactly when the patched entry is invalid. */
  lemma UpdateAssignmentRefusesOnlyEntry(records: seq<Staff>, next: Id, id: Id, aid: Id, es: seq<PatchEntry>)
    requires Consistent(records, next) && HasId(records, id)
    requires FirstAssignmentIndex(records[IndexOfStaff(records, id).value].assignments, aid) != -1
    ensures var items := records[IndexOfStaff(records, id).value].assignments;
      Success(UpdateAssignmentOutcome(records, next, id, aid, es).reply)
      <==> ValidAssignment(Patched(items[FirstAssignmentIndex(items, aid)], es))
  {
    var i := IndexOfStaff(records, id).value;
    var items := records[i].assignments;
    var j := FirstAssignmentIndex(items, aid);
    var a := Patched(items[j], es);
    var t := records[i].(assignments := items[j := a]);
    AllSavedAt(records, next, i);
    ReplaceEntryValid(records[i], j, a);
    StaffErrorsIff(t);
  }

  /** With distinct identifiers, looking up a record's identifier finds that record. */
  lemma IndexOfUnique(records: seq<Staff>, next: Id, i: nat)
    requires Consistent(records, next) && i < |records|
    ensures IndexOfStaff(records, records[i].id) == Some(i)
  {
    assert HasId(records, records[i].id);
  }

  /** Splicing out an entry that sits last, and whose identifier no other entry carries, answers with the record without it. */
  lemma SpliceLast(rs: seq<Staff>, n: Id, i: nat, s: Staff, a: Assignment)
    requires Consistent(rs, n) && i < |rs| && ValidStaff(s)
    requires rs[i] == s.(assignments := s.assignments + [a])
    requires forall k :: 0 <= k < |s.assignments| ==> s.assignments[k].id != a.id
    ensures RemoveAssignmentOutcome(rs, n, s.id, a.id) == Outcome(Reply(200, StaffData(s)), rs[i := s], n)
  {
    var items := s.assignments + [a];
    IndexOfUnique(rs, n, i);
    assert forall k :: 0 <= k < |s.assignments| ==> items[k] == s.assignments[k];
    assert items[|s.assignments|] == a;
    FirstIsLast(items, a.id);
    assert RemoveAt(items, |s.assignments|) == s.assignments;
    assert rs[i].(assignments := s.assignments) == s;
    StaffErrorsIff(s);
  }

  /**
   * Splicing out an entry a successful push just added, under an identifier no entry
   * of the record carried, gives back the record and the collection as they were.
   */
  lemma RemoveUndoesPush(records: seq<Staff>, next: Id, id: Id, a: Assignment)
    requires Consistent(records, next) && a.id == next
    requires Success(PushOutcome(records, next, id, a).reply)
    ensures HasId(records, id)
    ensures var o := PushOutcome(records, next, id, a);
      var i := IndexOfStaff(records, id).value;
      RemoveAssignmentOutcome(o.records, o.next, id, next) == Outcome(Reply(200, StaffData(records[i])), records, o.next)
  {
    PushKeepsConsistent(records, next, id, a);
    var i := IndexOfStaff(records, id).value;
    var s := records[i];
    var t := s.(assignments := s.assignments + [a]);
    AllSavedAt(records, next, i);
    assert StaffErrors(t) == [];
    var n := Above(next, t);
    assert PushOutcome(records, next, id, a) == Outcome(Reply(200, StaffData(t)), records[i := t], n);
    var rs := records[i := t];
    SpliceLast(rs, n, i, s, a);
    assert rs[i := s] == records;
  }

  /** Removing the assignment a successful add just created, under the generated identifier, restores the collection. */
  lemma RemoveUndoesAdd(records: seq<Staff>, next: Id, id: Id, input: AssignmentInput, caller: UserId, now: Date)
    requires Consistent(records, next) && input.id.None?
    requires Success(AddAssignmentOutcome(records, next, id, input, caller, now).reply)
    ensures HasId(records, id)
    ensures var o := AddAssignmentOutcome(records, next, id, input, caller, now);
      var i := IndexOfStaff(records, id).value;
      RemoveAssignmentOutcome(o.records, o.next, id, next) == Outcome(Reply(200, StaffData(records[i])), records, o.next)
  {
    RemoveUndoesPush(records, next, id, PushedAssignment(input, next, caller, now));
  }

  /**
   * A pushed entry whose body `_id` repeats an earlier entry's is stored as sent;
   * removing by that identifier afterwards splices out the earlier entry, and the
   * one just pushed stays at the end.
   */
  lemma SuppliedIdShadowsEarlier(items: seq<Assignment>, a: Assignment, j: nat)
    requires j < |items| && items[j].id == a.id
    ensures var f := FirstAssignmentIndex(items + [a], a.id);
      && 0 <= f <= j
      && RemoveAt(items + [a], f)[|items| - 1] == a
  {
    assert (items + [a])[j] == items[j];
  }

  // ---------------------------------------------------------------------
  // The collection.
  // ---------------------------------------------------------------------

  class Store {
    var records: seq<Staff>
    var nextId: Id

    ghost predicate Valid()
      reads this
    {
      Consistent(records, nextId)
    }

    constructor()
      ensures Valid() && records == []
    {
      records := [];
      nextId := 0;
    }

    /** Writes the new state of the collection, which the caller has shown to be consistent. */
    method Commit(rs: seq<Staff>, next: Id)
      requires Consistent(rs, next)
      modifies this
      ensures records == rs && nextId == next && Valid()
    {
      records := rs;
      nextId := next;
    }

    /** GET /api/staff. */
    method GetStaff(rx: Engine, p: ListParams) returns (r: ListReply)
      ensures r == Listing(rx, records, p)
    {
      var page := PageNumber(p);
      var limit := PageSize(p);
      var start := StartIndex(page, limit);
      var q := BuildQuery(rx, p);
      if q.None? || start < 0 {
        return ListFailed;
      }
      var matching := Filter(rx, q.value, records);
      FilterAgrees(rx, q.value, p, records);
      var data := Window(SortNewestFirst(matching), start, Abs(limit));
      r := Listed(|data|, Pagination(|matching|, page, limit, CeilDiv(|matching|, limit)), data);
    }

    /** GET /api/staff/:id. */
    method GetStaffMember(id: Id) returns (r: Reply)
      ensures !HasId(records, id) <==> r == Reply(404, NotFound(StaffNotFound))
      ensures HasId(records, id) ==>
        r.status == 200 && r.body.StaffData? && r.body.staff in records && r.body.staff.id == id
    {
      var i := IndexOfStaff(records, id);
      if i.None? {
        return Reply(404, NotFound(StaffNotFound));
      }
      r := Reply(200, StaffData(records[i.value]));
    }

    /**
     * GET /api/staff/stats. The three status counts cover the whole collection,
     * because every stored record passes the status enum.
     */
    method GetStaffStats() returns (st: Stats)
      requires Valid()
      ensures st == StaffStats(records)
      ensures st.totalStaff == |records|
      ensures st.activeStaff + st.inactiveStaff + st.onLeaveStaff == st.totalStaff
      ensures Sum(st.departmentStats) == Sum(st.roleStats) == st.totalStaff
      ensures Sum(st.assignmentStats) == TotalAssignments(records)
    {
      forall k | 0 <= k < |records| ensures ValidStaff(records[k]) {
        AllSavedAt(records, nextId, k);
      }
      StatsAddUp(records);
      st := StaffStats(records);
    }

    /** POST /api/staff. */
    method CreateStaffMember(input: StaffInput, caller: UserId, now: Date) returns (r: Reply)
      requires Valid()
      modifies this
      ensures Valid()
      ensures Outcome(r, records, nextId) == CreateOutcome(old(records), old(nextId), input, caller, now)
    {
      var s := NewStaff(input, nextId, caller, now);
      var errs := StaffErrors(s);
      if errs != [] {
        return Reply(500, Invalid(errs));
      }
      if IndexOfStaff(records, s.id).Some? {
        return Reply(500, DuplicateId(s.id));
      }
      if EmailTaken(records, s.email, None) {
        return Reply(500, DuplicateEmail(s.email));
      }
      CreateKeepsConsistent(records, nextId, input, caller, now);
      Commit(records + [s], Above(nextId, s));
      r := Reply(201, StaffData(s));
    }

    /** PUT /api/staff/:id. */
    method UpdateStaffMember(id: Id, patch: StaffInput, now: Date) returns (r: Reply)
      requires Valid()
      modifies this
      ensures Valid()
      ensures Outcome(r, records, nextId) == UpdateOutcome(old(records), old(nextId), id, patch, now)
    {
      var found := IndexOfStaff(records, id);
      if found.None? {
        return Reply(404, NotFound(StaffNotFound));
      }
      var i := found.value;
      if patch.id.Some? && patch.id.value != id {
        return Reply(500, ImmutableId);
      }
      var m := Merge(records[i], patch, nextId, now);
      var errs := StaffErrors(m);
      if errs != [] {
        return Reply(500, Invalid(errs));
      }
      if EmailTaken(records, m.email, Some(id)) {
        return Reply(500, DuplicateEmail(m.email));
      }
      UpdateKeepsConsistent(records, nextId, id, patch, now);
      Commit(records[i := m], Above(nextId, m));
      r := Reply(200, StaffData(m));
    }

    /** DELETE /api/staff/:id. */
    method DeleteStaffMember(id: Id) returns (r: Reply)
      requires Valid()
      modifies this
      ensures Valid()
      ensures Outcome(r, records, nextId) == DeleteOutcome(old(records), old(nextId), id)
    {
      var found := IndexOfStaff(records, id);
      if found.None? {
        return Reply(404, NotFound(StaffNotFound));
      }
      var i := found.value;
      DeleteKeepsConsistent(records, nextId, id);
      Commit(records[..i] + records[i + 1..], nextId);
      r := Reply(200, EmptyData);
    }

    /** POST /api/staff/:id/assignments. */
    method AddAssignment(id: Id, input: AssignmentInput, caller: UserId, now: Date) returns (r: Reply)
      requires Valid()
      modifies this
      ensures Valid()
      ensures Outcome(r, records, nextId) == AddAssignmentOutcome(old(records), old(nextId), id, input, caller, now)
    {
      var found := IndexOfStaff(records, id);
      if found.None? {
        return Reply(404, NotFound(StaffNotFound));
      }
      var i := found.value;
      var body := input.(assignedBy := Some(caller));
      var a := NewAssignment(body, nextId, now);
      var t := records[i].(assignments := records[i].assignments + [a]);
      var errs := StaffErrors(t);
      if errs != [] {
        assert PushOutcome(records, nextId, id, a) == Outcome(Reply(500, Invalid(errs)), records, nextId);
        return Reply(500, Invalid(errs));
      }
      AddAssignmentKeepsConsistent(records, nextId, id, input, caller, now);
      assert PushOutcome(records, nextId, id, a) == Outcome(Reply(200, StaffData(t)), records[i := t], Above(nextId, t));
      Commit(records[i := t], Above(nextId, t));
      r := Reply(200, StaffData(t));
    }

    /** DELETE /api/staff/:id/assignments/:assignmentId. */
    method RemoveAssignment(id: Id, aid: Id) returns (r: Reply)
      requires Valid()
      modifies this
      ensures Valid()
      ensures Outcome(r, records, nextId) == RemoveAssignmentOutcome(old(records), old(nextId), id, aid)
    {
      var found := IndexOfStaff(records, id);
      if found.None? {
        return Reply(404, NotFound(StaffNotFound));
      }
      var i := found.value;
      var j := FindAssignmentIndex(records[i].assignments, aid);
      if j == -1 {
        return Reply(404, NotFound(AssignmentNotFound));
      }
      var t := records[i].(assignments := RemoveAt(records[i].assignments, j));
      var errs := StaffErrors(t);
      if errs != [] {
        return Reply(500, Invalid(errs));
      }
      RemoveAssignmentKeepsConsistent(records, nextId, id, aid);
      Commit(records[i := t], nextId);
      r := Reply(200, StaffData(t));
    }

    /** PUT /api/staff/:id/assignments/:assignmentId. */
    method UpdateAssignment(id: Id, aid: Id, es: seq<PatchEntry>) returns (r: Reply)
      requires Valid()
      modifies this
      ensures Valid()
      ensures Outcome(r, records, nextId) == UpdateAssignmentOutcome(old(records), old(nextId), id, aid, es)
    {
      var found := IndexOfStaff(records, id);
      if found.None? {
        return Reply(404, NotFound(StaffNotFound));
      }
      var i := found.value;
      var items := records[i].assignments;
      var j := FindAssignmentIndex(items, aid);
      if j == -1 {
        return Reply(404, NotFound(AssignmentNotFound));
      }
      var a := ApplyPatch(items[j], es);
      var t := records[i].(assignments := items[j := a]);
      var errs := StaffErrors(t);
      if errs != [] {
        return Reply(500, Invalid(errs));
      }
      UpdateAssignmentKeepsConsistent(records, nextId, id, aid, es);
      Commit(records[i := t], Above(nextId, t));
      r := Reply(200, StaffData(t));
    }
  }
}
