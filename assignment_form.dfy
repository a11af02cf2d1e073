/**
 * The new-assignment dialog: its fields, the messages its validation produces,
 * and the guard that only sends a valid form to the add-assignment endpoint.
 * The day the dialog opens on comes from the clock and is a parameter.
 */
module AssignmentForm {
  import opened Base
  import opened Text
  import opened StaffSchema

  const TitleMissing := "Title is required"
  const DescriptionMissing := "Description is required"
  const LocationMissing := "Location is required"
  const StartDateMissing := "Start date is required"

  /** The dialog's `formData`; dates are the `YYYY-MM-DD` text of the date inputs, `""` when empty. */
  datatype FormData = FormData(
    title: string,
    description: string,
    location: string,
    startDate: string,
    endDate: string,
    status: string)

  /** A fresh form: empty texts, today as the start, no end, pending. */
  function DefaultForm(today: string): (f: FormData)
    ensures f.startDate == today && f.endDate == "" && f.status == "pending"
    ensures f.title == "" && f.description == "" && f.location == ""
  {
    FormData("", "", "", today, "", "pending")
  }

  /** `validateForm`'s error object: one message per failing field. */
  function FormErrors(f: FormData): map<string, string> {
    var afterTitle := if IsBlank(f.title) then map["title" := TitleMissing] else map[];
    var afterDescription :=
      if IsBlank(f.description) then afterTitle["description" := DescriptionMissing] else afterTitle;
    var afterLocation :=
      if IsBlank(f.location) then afterDescription["location" := LocationMissing] else afterDescription;
    if f.startDate == "" then afterLocation["startDate" := StartDateMissing] else afterLocation
  }

  function SetField(f: FormData, name: string, value: string): FormData {
    if name == "title" then f.(title := value)
    else if name == "description" then f.(description := value)
    else if name == "location" then f.(location := value)
    else if name == "startDate" then f.(startDate := value)
    else if name == "endDate" then f.(endDate := value)
    else if name == "status" then f.(status := value)
    else f
  }

  /** A date input's text as the schema receives it: empty is no date, anything else the day `dateOf` reads. */
  function DateField(text: string, dateOf: string -> Date): (d: Option<Date>)
    ensures d.None? <==> text == ""
  {
    if text == "" then None else Some(dateOf(text))
  }

  /** The body sent to the add-assignment endpoint. */
  function AsInput(f: FormData, dateOf: string -> Date): AssignmentInput {
    AssignmentInput(
      Some(f.title), Some(f.description), Some(f.location),
      DateField(f.startDate, dateOf), DateField(f.endDate, dateOf), Some(f.status),
      None, None, None)
  }

  class FormState {
    var form: FormData
    var errors: map<string, string>
    var loading: bool

    constructor(today: string)
      ensures form == DefaultForm(today) && errors == map[] && !loading
    {
      form := DefaultForm(today);
      errors := map[];
      loading := false;
    }

    /** `validateForm`: the error object is built field by field and replaces the old one. */
    method ValidateForm() returns (ok: bool)
      modifies this
      ensures errors == FormErrors(form) && (ok <==> |errors| == 0)
      ensures form == old(form) && loading == old(loading)
    {
      var newErrors: map<string, string> := map[];
      if IsBlank(form.title) {
        newErrors := newErrors["title" := TitleMissing];
      }
      if IsBlank(form.description) {
        newErrors := newErrors["description" := DescriptionMissing];
      }
      if IsBlank(form.location) {
        newErrors := newErrors["location" := LocationMissing];
      }
      if form.startDate == "" {
        newErrors := newErrors["startDate" := StartDateMissing];
      }
      errors := newErrors;
      ok := |newErrors| == 0;
    }

    /** `handleChange`: the field takes the typed value, and a shown error on it is blanked. */
    method HandleChange(name: string, value: string)
      modifies this
      ensures form == SetField(old(form), name, value)
      ensures errors == if name in old(errors) && old(errors)[name] != "" then old(errors)[name := ""] else old(errors)
      ensures loading == old(loading)
    {
      form := SetField(form, name, value);
      if name in errors && errors[name] != "" {
        errors := errors[name := ""];
      }
    }

    /**
     * `handleSubmit`: nothing is sent unless the form validates; otherwise the form is
     * sent, and the dialog reports success and closes when the request resolved.
     */
    method HandleSubmit(requestResolves: bool) returns (sent: Option<FormData>, closed: bool)
      modifies this
      ensures errors == FormErrors(form) && form == old(form)
      ensures loading == if sent.Some? then false else old(loading)
      ensures sent.Some? <==> |FormErrors(form)| == 0
      ensures sent.Some? ==> sent.value == form
      ensures closed <==> sent.Some? && requestResolves
    {
      var ok := ValidateForm();
      closed := false;
      if !ok {
        sent := None;
        return;
      }
      loading := true;
      sent := Some(form);
      if requestResolves {
        closed := true;
      }
      loading := false;
    }
  }

  // ---------------------------------------------------------------------
  // What the messages mean.
  // ---------------------------------------------------------------------

  /**
   * Title, description and location are flagged iff blank, the start date iff
   * empty; the end date and the status are never looked at.
   */
  lemma FormErrorsMeaning(f: FormData)
    ensures var e := FormErrors(f);
      && e.Keys <= {"title", "description", "location", "startDate"}
      && ("title" in e <==> IsBlank(f.title))
      && ("description" in e <==> IsBlank(f.description))
      && ("location" in e <==> IsBlank(f.location))
      && ("startDate" in e <==> f.startDate == "")
      && (|e| == 0 <==> !IsBlank(f.title) && !IsBlank(f.description) && !IsBlank(f.location) && f.startDate != "")
  {
    var e := FormErrors(f);
    if |e| != 0 {
      var k :| k in e;
    }
  }

  /** Changing the end date or the status never changes the verdict. */
  lemma VerdictIgnoresEndAndStatus(f: FormData, endDate: string, status: string)
    ensures FormErrors(f.(endDate := endDate, status := status)) == FormErrors(f)
  {
  }

  /** A fresh form asks for the three texts, and for the start date only when the clock gave none. */
  lemma DefaultFormRefused(today: string)
    ensures FormErrors(DefaultForm(today)).Keys ==
      {"title", "description", "location"} + (if today == "" then {"startDate"} else {})
  {
    assert Trim("") == "";
    FormErrorsMeaning(DefaultForm(today));
  }

  // ---------------------------------------------------------------------
  // The dialog against the schema.
  // ---------------------------------------------------------------------

  /** A string that is not blank is not empty. */
  lemma NotBlankNotEmpty(s: string)
    requires !IsBlank(s)
    ensures s != ""
  {
    assert Trim("") == "";
  }

  /**
   * With the status on a value of the schema's enum, a form the dialog lets
   * through is pushed as a valid assignment; on title and start date the dialog
   * and the schema agree exactly.
   */
  lemma FormAgreesWithSchema(f: FormData, dateOf: string -> Date, id: Id, caller: UserId, now: Date)
    requires f.status in AssignmentStatuses
    ensures var a := PushedAssignment(AsInput(f, dateOf), id, caller, now);
      && (|FormErrors(f)| == 0 ==> ValidAssignment(a))
      && (("title" !in FormErrors(f)) <==> a.title != "")
      && (("startDate" !in FormErrors(f)) <==> a.startDate.Some?)
  {
    FormErrorsMeaning(f);
    if !IsBlank(f.description) { NotBlankNotEmpty(f.description); }
    if !IsBlank(f.location) { NotBlankNotEmpty(f.location); }
  }

  /** The schema takes a description of spaces; the dialog refuses it. */
  lemma BlankDescriptionStricter(dateOf: string -> Date, id: Id, caller: UserId, now: Date)
    ensures var f := FormData("T", " ", "L", "2024-01-01", "", "pending");
      "description" in FormErrors(f) && ValidAssignment(PushedAssignment(AsInput(f, dateOf), id, caller, now))
  {
    var f := FormData("T", " ", "L", "2024-01-01", "", "pending");
    BlankIffAllSpace(" ");
    TrimOfTrimmed("T");
    assert AssignmentStatuses[0] == "pending";
  }
}
