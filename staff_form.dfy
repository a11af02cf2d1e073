/**
 * The add/edit staff dialog: the form's fields, the error messages its
 * validation produces, the prefill from a stored record in edit mode, and the
 * guard that only hands a valid form to the page.
 */
module StaffForm {
  import opened Base
  import opened Text
  import opened EmailPattern
  import opened StaffSchema

  const NameMissing := "Name is required"
  const EmailMissing := "Email is required"
  const EmailMalformed := "Please enter a valid email address"
  const PhoneMalformed := "Please enter a valid phone number"

  /** The dialog's `formData`: every field is a string, the selects hold their chosen value. */
  datatype FormData = FormData(
    name: string,
    email: string,
    phone: string,
    role: string,
    department: string,
    status: string,
    profileImage: string)

  /** The form of a new staff member. */
  const DefaultForm := FormData("", "", "", "technician", "maintenance", "active", "default-profile.jpg")

  /** `x || fallback` on a field that may be absent or empty. */
  function OrDefault(x: Option<string>, fallback: string): (r: string)
    ensures Truthy(x) ==> r == x.value
    ensures !Truthy(x) ==> r == fallback
  {
    if Truthy(x) then x.value else fallback
  }

  /** The form of the edit dialog: each field of the record, or the add form's value when it is empty. */
  function Prefilled(s: Staff): FormData {
    FormData(
      OrDefault(Some(s.name), ""),
      OrDefault(Some(s.email), ""),
      OrDefault(s.phone, ""),
      OrDefault(Some(s.role), "technician"),
      OrDefault(Some(s.department), "maintenance"),
      OrDefault(Some(s.status), "active"),
      OrDefault(Some(s.profileImage), "default-profile.jpg"))
  }

  /** `validateForm`'s error object: one message per failing field. */
  function FormErrors(f: FormData): map<string, string> {
    var afterName := if IsBlank(f.name) then map["name" := NameMissing] else map[];
    var afterEmail :=
      if IsBlank(f.email) then afterName["email" := EmailMissing]
      else if !IsEmail(f.email) then afterName["email" := EmailMalformed]
      else afterName;
    if f.phone != "" && !IsPhone(f.phone) then afterEmail["phone" := PhoneMalformed] else afterEmail
  }

  /** One field of the form replaced; an input the form does not have leaves it as it is. */
  function SetField(f: FormData, name: string, value: string): FormData {
    if name == "name" then f.(name := value)
    else if name == "email" then f.(email := value)
    else if name == "phone" then f.(phone := value)
    else if name == "role" then f.(role := value)
    else if name == "department" then f.(department := value)
    else if name == "status" then f.(status := value)
    else if name == "profileImage" then f.(profileImage := value)
    else f
  }

  /** The body the page sends to create or update the record. */
  function AsInput(f: FormData): StaffInput {
    StaffInput(Some(f.name), Some(f.email), Some(f.phone), Some(f.role), Some(f.department), Some(f.status), Some(f.profileImage),
      None, None, None, None)
  }

  class FormState {
    var form: FormData
    var errors: map<string, string>
    var loading: bool

    constructor()
      ensures form == DefaultForm && errors == map[] && !loading
    {
      form := DefaultForm;
      errors := map[];
      loading := false;
    }

    /** The effect on `[staff, mode]`: an edit dialog for a record shows that record. */
    method Prefill(staff: Option<Staff>, mode: string)
      modifies this
      ensures form == if staff.Some? && mode == "edit" then Prefilled(staff.value) else old(form)
      ensures errors == old(errors) && loading == old(loading)
    {
      if staff.Some? && mode == "edit" {
        form := Prefilled(staff.value);
      }
    }

    /** `validateForm`: the error object is built field by field and replaces the old one. */
    method ValidateForm() returns (ok: bool)
      modifies this
      ensures errors == FormErrors(form) && (ok <==> |errors| == 0)
      ensures form == old(form) && loading == old(loading)
    {
      var newErrors: map<string, string> := map[];
      if IsBlank(form.name) {
        newErrors := newErrors["name" := NameMissing];
      }
      if IsBlank(form.email) {
        newErrors := newErrors["email" := EmailMissing];
      } else if !IsEmail(form.email) {
        newErrors := newErrors["email" := EmailMalformed];
      }
      if form.phone != "" && !IsPhone(form.phone) {
        newErrors := newErrors["phone" := PhoneMalformed];
      }
      errors := newErrors;
      ok := |newErrors| == 0;
    }

    /** `handleChange`: the field takes the typed value, and a shown error on it is blanked. */
    method HandleChange(name: string, value: string)
      modifies this
      ensures form == SetField(old(form), name, value)
      ensures errors == if name in old(errors) && old(errors)[name] != "" then old(errors)[name := ""] else old(errors)
      ensures loading == old(loading)
    {
      form := SetField(form, name, value);
      if name in errors && errors[name] != "" {
        errors := errors[name := ""];
      }
    }

    /**
     * `handleSubmit`: nothing is sent unless the form validates; otherwise the form
     * is handed to the page, and the dialog closes when the save resolved.
     */
    method HandleSubmit(saveResolves: bool) returns (sent: Option<FormData>, closed: bool)
      modifies this
      ensures errors == FormErrors(form) && form == old(form)
      ensures loading == if sent.Some? then false else old(loading)
      ensures sent.Some? <==> |FormErrors(form)| == 0
      ensures sent.Some? ==> sent.value == form
      ensures closed <==> sent.Some? && saveResolves
    {
      var ok := ValidateForm();
      closed := false;
      if !ok {
        sent := None;
        return;
      }
      loading := true;
      sent := Some(form);
      if saveResolves {
        closed := true;
      }
      loading := false;
    }
  }

  // ---------------------------------------------------------------------
  // What the messages mean.
  // ---------------------------------------------------------------------

  /** A string of the email pattern is not blank. */
  lemma EmailNotBlank(s: string)
    requires IsEmail(s)
    ensures !IsBlank(s)
  {
    StrictImpliesLoose(s);
    var i, k :| 0 < i && i + 1 < k < |s| - 1 && s[i] == '@' && s[k] == '.' &&
      (forall m :: 0 <= m < |s| && m != i ==> IsPlain(s[m]));
    assert IsPlain(s[0]);
    BlankIffAllSpace(s);
  }

  /**
   * The name is flagged iff it is blank; the email iff it does not match the pattern,
   * as missing when blank and as malformed otherwise; the phone iff it is given and
   * does not match its pattern. No other field is ever flagged.
   */
  lemma FormErrorsMeaning(f: FormData)
    ensures var e := FormErrors(f);
      && e.Keys <= {"name", "email", "phone"}
      && ("name" in e <==> IsBlank(f.name))
      && ("email" in e <==> !IsEmail(f.email))
      && ("email" in e ==> e["email"] == if IsBlank(f.email) then EmailMissing else EmailMalformed)
      && ("phone" in e <==> f.phone != "" && !IsPhone(f.phone))
      && (|e| == 0 <==> !IsBlank(f.name) && IsEmail(f.email) && (f.phone == "" || IsPhone(f.phone)))
  {
    var e := FormErrors(f);
    if IsEmail(f.email) {
      EmailNotBlank(f.email);
    }
    if |e| == 0 {
      assert "name" !in e && "email" !in e && "phone" !in e;
    } else {
      var k :| k in e;
    }
  }

  /** A new form cannot be submitted: name and email are both missing. */
  lemma DefaultFormRefused()
    ensures FormErrors(DefaultForm) == map["name" := NameMissing, "email" := EmailMissing]
    ensures DefaultForm.role in Roles && DefaultForm.department in Departments && DefaultForm.status in StaffStatuses
  {
    assert Trim("") == "";
  }

  // ---------------------------------------------------------------------
  // The dialog against the schema.
  // ---------------------------------------------------------------------

  /**
   * With the selects on values of the schema's enums, the dialog passes name and
   * email exactly when the schema does, so a form it lets through is stored as a
   * valid record.
   */
  lemma FormAgreesWithSchema(f: FormData, id: Id, caller: UserId, now: Date)
    requires f.role in Roles && f.department in Departments && f.status in StaffStatuses
    ensures var e := FormErrors(f);
      ("name" !in e && "email" !in e) <==> ValidStaff(NewStaff(AsInput(f), id, caller, now))
    ensures |FormErrors(f)| == 0 ==> ValidStaff(NewStaff(AsInput(f), id, caller, now))
  {
    var s := NewStaff(AsInput(f), id, caller, now);
    FormErrorsMeaning(f);
    if !IsBlank(f.name) && IsEmail(f.email) {
      ValidWithoutAssignments(s);
    }
    if ValidStaff(s) {
      ValidStaffFields(s);
    }
  }

  /** The schema takes any phone; the dialog refuses one that is not 10 to 15 digits. */
  lemma PhoneStricterThanSchema(id: Id, caller: UserId, now: Date)
    ensures var f := FormData("A", "a@x.com", "123", "technician", "maintenance", "active", "default-profile.jpg");
      "phone" in FormErrors(f) && ValidStaff(NewStaff(AsInput(f), id, caller, now))
  {
    var f := FormData("A", "a@x.com", "123", "technician", "maintenance", "active", "default-profile.jpg");
    AcceptsPlainAddress();
    TrimOfTrimmed("A");
    FormAgreesWithSchema(f, id, caller, now);
  }

  /**
   * Editing a stored record starts from the record's own values, and the dialog
   * accepts them unchanged unless the stored phone fails its pattern.
   */
  lemma PrefilledFromStored(s: Staff)
    requires ValidStaff(s) && s.profileImage != ""
    ensures var f := Prefilled(s);
      && f.name == s.name && f.email == s.email && f.role == s.role
      && f.department == s.department && f.status == s.status && f.profileImage == s.profileImage
      && f.phone == (if s.phone.Some? then s.phone.value else "")
      && (|FormErrors(f)| == 0 <==> !Truthy(s.phone) || IsPhone(s.phone.value))
  {
    ValidStaffFields(s);
    assert s.name != "" && IsTrimmed(s.name);
    TrimOfTrimmed(s.name);
    FormErrorsMeaning(Prefilled(s));
  }
}
