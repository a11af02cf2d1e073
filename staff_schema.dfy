/**
 * The staff document and its embedded assignments, as the schema declares them:
 * required fields, enumerations, defaults, the trimmed fields and the e-mail
 * pattern. A document may hold values the schema refuses (a patch can put them
 * there); `ValidStaff` is what saving checks, and `StaffErrors` lists the paths
 * that fail, in schema order, the way the validation error reports them.
 */
module StaffSchema {
  import opened Base
  import opened Text
  import opened EmailPattern

  /** Store-generated identifiers, user references and timestamps are abstract naturals. */
  type Id = nat
  type UserId = nat
  type Date = nat

  const AssignmentStatuses: seq<string> := ["pending", "in-progress", "completed", "cancelled"]
  const Roles: seq<string> := ["technician", "engineer", "manager", "admin"]
  const Departments: seq<string> := ["maintenance", "installation", "support", "management"]
  const StaffStatuses: seq<string> := ["active", "inactive", "on-leave"]

  const DefaultAssignmentStatus := "pending"
  const DefaultRole := "technician"
  const DefaultStaffStatus := "active"
  const DefaultProfileImage := "default-profile.jpg"

  datatype Assignment = Assignment(
    id: Id,
    title: string,
    description: string,
    location: string,
    startDate: Option<Date>,
    endDate: Option<Date>,
    status: string,
    assignedBy: Option<UserId>,
    createdAt: Date)

  datatype Staff = Staff(
    id: Id,
    name: string,
    email: string,
    phone: Option<string>,
    role: string,
    department: string,
    status: string,
    profileImage: string,
    assignments: seq<Assignment>,
    user: UserId,
    createdAt: Date)

  /**
   * The body of a create or update request; an absent key is `None`. Every path of
   * the schema may be sent, `_id` (here `id`) included; keys outside the schema are dropped.
   */
  datatype StaffInput = StaffInput(
    name: Option<string>,
    email: Option<string>,
    phone: Option<string>,
    role: Option<string>,
    department: Option<string>,
    status: Option<string>,
    profileImage: Option<string>,
    id: Option<Id>,
    assignments: Option<seq<AssignmentInput>>,
    user: Option<UserId>,
    createdAt: Option<Date>)

  /** The body of an add-assignment request, or one entry of a body's `assignments`. */
  datatype AssignmentInput = AssignmentInput(
    title: Option<string>,
    description: Option<string>,
    location: Option<string>,
    startDate: Option<Date>,
    endDate: Option<Date>,
    status: Option<string>,
    id: Option<Id>,
    assignedBy: Option<UserId>,
    createdAt: Option<Date>)

  /** One failing path of a validation error and its message. */
  datatype FieldError = FieldError(path: string, message: string)

  function Or<T>(o: Option<T>, fallback: T): T {
    if o.Some? then o.value else fallback
  }

  /** Mongoose's default message for a value outside an enumeration. */
  function EnumMessage(value: string, path: string): string {
    "`" + value + "` is not a valid enum value for path `" + path + "`."
  }

  // ---------------------------------------------------------------------
  // Assignments
  // ---------------------------------------------------------------------

  /** A required string fails when it is empty (absent keys are stored as empty). */
  predicate ValidAssignment(a: Assignment) {
    && a.title != ""
    && a.description != ""
    && a.location != ""
    && a.startDate.Some?
    && a.status in AssignmentStatuses
    && a.assignedBy.Some?
  }

  function AssignmentErrorsAt(a: Assignment, prefix: string): (errs: seq<FieldError>)
  {
    (if a.title == "" then [FieldError(prefix + "title", "Please add a title")] else [])
    + (if a.description == "" then [FieldError(prefix + "description", "Please add a description")] else [])
    + (if a.location == "" then [FieldError(prefix + "location", "Please add a location")] else [])
    + (if a.startDate.None? then [FieldError(prefix + "startDate", "Please add a start date")] else [])
    + (if a.status !in AssignmentStatuses then [FieldError(prefix + "status", EnumMessage(a.status, "status"))] else [])
    + (if a.assignedBy.None? then [FieldError(prefix + "assignedBy", "Path `assignedBy` is required.")] else [])
  }

  lemma AssignmentErrorsIff(a: Assignment, prefix: string)
    ensures AssignmentErrorsAt(a, prefix) == [] <==> ValidAssignment(a)
  {
  }

  /**
   * An entry built from a body: the title is trimmed, absent required strings are
   * empty (and so refused), the status defaults to pending, `_id` and `createdAt`
   * are the body's when it sends them and otherwise a fresh id and the current time.
   */
  function NewAssignment(input: AssignmentInput, newId: Id, now: Date): (a: Assignment)
    ensures IsTrimmed(a.title) && a.assignedBy == input.assignedBy
    ensures input.id.None? ==> a.id == newId
    ensures input.status.None? ==> a.status == DefaultAssignmentStatus
  {
    Assignment(
      Or(input.id, newId),
      Trim(Or(input.title, "")),
      Or(input.description, ""),
      Or(input.location, ""),
      input.startDate,
      input.endDate,
      Or(input.status, DefaultAssignmentStatus),
      input.assignedBy,
      Or(input.createdAt, now))
  }

  /** The entry `addAssignment` pushes: the body with the caller written over its `assignedBy`. */
  function PushedAssignment(input: AssignmentInput, newId: Id, caller: UserId, now: Date): (a: Assignment)
    ensures a.assignedBy == Some(caller)
  {
    NewAssignment(input.(assignedBy := Some(caller)), newId, now)
  }

  /** The entries of a body's `assignments`; the `k`-th one without an `_id` gets `newId + k`. */
  function NewAssignments(inputs: seq<AssignmentInput>, newId: Id, now: Date): (r: seq<Assignment>)
    ensures |r| == |inputs|
    ensures forall k :: 0 <= k < |r| ==> r[k] == NewAssignment(inputs[k], newId + k, now)
  {
    seq(|inputs|, k requires 0 <= k < |inputs| => NewAssignment(inputs[k], newId + k, now))
  }

  // ---------------------------------------------------------------------
  // Staff records
  // ---------------------------------------------------------------------

  predicate DistinctAssignmentIds(items: seq<Assignment>) {
    forall p, q :: 0 <= p < q < |items| ==> items[p].id != items[q].id
  }

  predicate AllAssignmentsValid(items: seq<Assignment>) {
    forall k :: 0 <= k < |items| ==> ValidAssignment(items[k])
  }

  /** What saving a staff document checks (the unique index on email is the store's business). */
  predicate ValidStaff(s: Staff) {
    && s.name != ""
    && IsTrimmed(s.name)
    && IsEmail(s.email)
    && s.role in Roles
    && s.department in Departments
    && s.status in StaffStatuses
    && AllAssignmentsValid(s.assignments)
  }

  /** The errors of the embedded assignments `items`, the first of which sits at index `from`. */
  function AssignmentsErrors(items: seq<Assignment>, from: nat): (errs: seq<FieldError>)
    ensures errs == [] <==> AllAssignmentsValid(items)
    decreases |items|
  {
    if items == [] then []
    else
      var head := AssignmentErrorsAt(items[0], "assignments." + NatToString(from) + ".");
      AssignmentErrorsIff(items[0], "assignments." + NatToString(from) + ".");
      assert forall k :: 1 <= k < |items| ==> items[k] == items[1..][k - 1];
      head + AssignmentsErrors(items[1..], from + 1)
  }

  function NameErrors(name: string): seq<FieldError> {
    if name == "" then [FieldError("name", "Please add a name")] else []
  }

  function EmailErrors(email: string): seq<FieldError> {
    if email == "" then [FieldError("email", "Please add an email")]
    else if !IsEmail(email) then [FieldError("email", "Please add a valid email")]
    else []
  }

  function RoleErrors(role: string): seq<FieldError> {
    if role !in Roles then [FieldError("role", EnumMessage(role, "role"))] else []
  }

  function DepartmentErrors(department: string): seq<FieldError> {
    if department == "" then [FieldError("department", "Please add a department")]
    else if department !in Departments then [FieldError("department", EnumMessage(department, "department"))]
    else []
  }

  function StatusErrors(status: string): seq<FieldError> {
    if status !in StaffStatuses then [FieldError("status", EnumMessage(status, "status"))] else []
  }

  /** The paths a staff validation error names, in schema order. */
  function StaffErrors(s: Staff): (errs: seq<FieldError>)
  {
    NameErrors(s.name) + EmailErrors(s.email) + RoleErrors(s.role)
    + DepartmentErrors(s.department) + StatusErrors(s.status)
    + AssignmentsErrors(s.assignments, 0)
  }

  /**
   * A staff document built by the schema's setters (the name trimmed) saves without a
   * validation error exactly when it satisfies `ValidStaff`.
   */
  lemma StaffErrorsIff(s: Staff)
    requires IsTrimmed(s.name)
    ensures StaffErrors(s) == [] <==> ValidStaff(s)
  {
  }

  /**
   * A created record: defaults filled in, the name trimmed, the caller as `user`
   * whatever the body says; `_id`, `createdAt` and the entries of `assignments` are
   * the body's when it sends them, with fresh ids from `newId` on for the rest.
   */
  function NewStaff(input: StaffInput, newId: Id, caller: UserId, now: Date): (s: Staff)
    ensures IsTrimmed(s.name) && s.user == caller
    ensures input.id.None? ==> s.id == newId
    ensures |s.assignments| == |Or(input.assignments, [])|
  {
    Staff(
      Or(input.id, newId),
      Trim(Or(input.name, "")),
      Or(input.email, ""),
      input.phone,
      Or(input.role, DefaultRole),
      Or(input.department, ""),
      Or(input.status, DefaultStaffStatus),
      Or(input.profileImage, DefaultProfileImage),
      NewAssignments(Or(input.assignments, []), newId + 1, now),
      caller,
      Or(input.createdAt, now))
  }

  /** Trimming twice changes nothing: a stored name is already in the form its setter gives. */
  lemma TrimIdempotent(s: string)
    ensures Trim(Trim(s)) == Trim(s)
  {
    var t := Trim(s);
    TrimOfTrimmed(t);
  }

  // ---------------------------------------------------------------------
  // What the schema promises about created documents.
  // ---------------------------------------------------------------------

  /** A record without a department fails validation on that path, with the schema's message. */
  lemma MissingDepartmentReported(s: Staff)
    requires s.department == ""
    ensures !ValidStaff(s) && FieldError("department", "Please add a department") in StaffErrors(s)
  {
    var front := NameErrors(s.name) + EmailErrors(s.email) + RoleErrors(s.role);
    var back := StatusErrors(s.status) + AssignmentsErrors(s.assignments, 0);
    assert StaffErrors(s) == front + DepartmentErrors("") + back;
    assert StaffErrors(s)[|front|] == FieldError("department", "Please add a department");
  }

  lemma ValidStaffFields(s: Staff)
    requires ValidStaff(s)
    ensures s.name != "" && IsEmail(s.email)
    ensures s.role in Roles && s.department in Departments && s.status in StaffStatuses
  {
  }

  /** Absent role, status and profile image take their defaults; department has none. */
  lemma NewStaffDefaults(input: StaffInput, id: Id, caller: UserId, now: Date)
    ensures var s := NewStaff(input, id, caller, now);
      && (input.role.None? ==> s.role == "technician")
      && (input.status.None? ==> s.status == "active")
      && (input.profileImage.None? ==> s.profileImage == "default-profile.jpg")
      && (input.department.None? ==> !ValidStaff(s) && FieldError("department", "Please add a department") in StaffErrors(s))
      && s.user == caller
  {
    var s := NewStaff(input, id, caller, now);
    if input.department.None? {
      MissingDepartmentReported(s);
    }
  }

  /** A record is valid only if its name, trimmed on the way in, still has a character. */
  lemma NameRequired(input: StaffInput, id: Id, caller: UserId, now: Date)
    ensures ValidStaff(NewStaff(input, id, caller, now)) ==>
      input.name.Some? && !IsBlank(input.name.value)
  {
    var s := NewStaff(input, id, caller, now);
    if ValidStaff(s) {
      ValidStaffFields(s);
    }
  }

  /** An e-mail that is absent, or does not match the pattern, makes the record invalid. */
  lemma EmailRequired(input: StaffInput, id: Id, caller: UserId, now: Date)
    ensures ValidStaff(NewStaff(input, id, caller, now)) ==>
      input.email.Some? && IsEmail(input.email.value)
  {
    var s := NewStaff(input, id, caller, now);
    if ValidStaff(s) {
      ValidStaffFields(s);
    }
  }

  /** The schema's enumerations decide role, department and status; a value outside them is refused. */
  lemma EnumsEnforced(input: StaffInput, id: Id, caller: UserId, now: Date)
    ensures var s := NewStaff(input, id, caller, now);
      ValidStaff(s) ==>
        && (input.role.Some? ==> input.role.value in Roles)
        && input.department.Some? && input.department.value in Departments
        && (input.status.Some? ==> input.status.value in StaffStatuses)
  {
    var s := NewStaff(input, id, caller, now);
    if ValidStaff(s) {
      ValidStaffFields(s);
    }
  }

  /** An assignment missing any of title, description, location or start date is refused. */
  lemma AssignmentRequiredFields(input: AssignmentInput, id: Id, caller: UserId, now: Date)
    ensures var a := PushedAssignment(input, id, caller, now);
      ValidAssignment(a) ==>
        && input.title.Some? && !IsBlank(input.title.value)
        && input.description.Some? && input.description.value != ""
        && input.location.Some? && input.location.value != ""
        && input.startDate.Some?
  {
  }

  /** An absent assignment status defaults to pending, which the enumeration admits. */
  lemma AssignmentStatusDefault(input: AssignmentInput, id: Id, caller: UserId, now: Date)
    requires input.status.None?
    ensures PushedAssignment(input, id, caller, now).status == "pending"
    ensures PushedAssignment(input, id, caller, now).status in AssignmentStatuses
  {
  }

  /** A record with every schema condition met is valid; no assignments means nothing to check there. */
  lemma ValidWithoutAssignments(s: Staff)
    requires s.name != "" && IsTrimmed(s.name) && IsEmail(s.email) && s.assignments == []
    requires s.role in Roles && s.department in Departments && s.status in StaffStatuses
    ensures ValidStaff(s)
  {
  }

  /** The smallest create request that succeeds: a name, an e-mail and a department. */
  lemma MinimalCreateIsValid(id: Id, caller: UserId, now: Date)
    ensures var s := NewStaff(StaffInput(Some("A"), Some("a@x.com"), None, None, Some("support"), None, None, None, None, None, None), id, caller, now);
      ValidStaff(s) && s.status == "active" && s.role == "technician"
  {
    var input := StaffInput(Some("A"), Some("a@x.com"), None, None, Some("support"), None, None, None, None, None, None);
    var s := NewStaff(input, id, caller, now);
    assert s.assignments == [];
    TrimOfTrimmed("A");
    assert s.name == "A";
    AcceptsPlainAddress();
    assert s.email == "a@x.com";
    assert s.role == "technician" && s.department == "support" && s.status == "active";
    ValidWithoutAssignments(s);
  }
}
