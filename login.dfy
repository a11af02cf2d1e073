/**
 * The JavaScript login page: the checks before a login request, the two field
 * messages and the general message, and how a rejected login is explained.
 * The login request's outcome is a parameter; a rejection carries the
 * `message` of what the auth service threw, when it had one.
 */
module Login {
  import opened Base
  import opened Text
  import opened EmailPattern

  const EmailMissing := "Email is required"
  const EmailMalformed := "Please enter a valid email address"
  const PasswordMissing := "Password is required"
  const PasswordTooShort := "Password must be at least 6 characters"

  const MinPasswordLength := 6

  datatype Credentials = Credentials(email: string, password: string)

  /** The page's `formErrors`: always both keys, `""` when the field shows no message. */
  datatype FieldErrors = FieldErrors(email: string, password: string)

  const NoErrors := FieldErrors("", "")

  /** Which field a rejection is blamed on, from the words of its message. */
  datatype Blame = PasswordBlamed | EmailBlamed | Unexplained

  datatype Outcome = LoggedIn | Rejected(message: Option<string>)

  /** `validateForm`'s error object. */
  function ValidationErrors(c: Credentials): FieldErrors {
    FieldErrors(
      if c.email == "" then EmailMissing else if !IsEmail(c.email) then EmailMalformed else "",
      if c.password == "" then PasswordMissing else if |c.password| < MinPasswordLength then PasswordTooShort else "")
  }

  /** `validateForm`'s verdict. */
  predicate Valid(c: Credentials) {
    ValidationErrors(c) == NoErrors
  }

  /** A message mentioning `password` is blamed on the password, else one mentioning `email` on the email. */
  function Classify(message: Option<string>): Blame {
    if Truthy(message) && Includes(message.value, "password") then PasswordBlamed
    else if Truthy(message) && Includes(message.value, "email") then EmailBlamed
    else Unexplained
  }

  /** The general message shown above the form. */
  function GeneralMessage(b: Blame): string {
    match b
    case PasswordBlamed => "Invalid password. Please try again."
    case EmailBlamed => "Email not found. Please check your email address."
    case Unexplained => "Login failed. Please check your credentials."
  }

  /** The field messages after a rejection, applied to the error object the validation just set. */
  function AfterFailure(validated: FieldErrors, message: Option<string>): (e: FieldErrors)
    ensures Classify(message) == PasswordBlamed ==> e == validated.(password := "Invalid password")
    ensures Classify(message) == EmailBlamed ==> e == validated.(email := "Email not found")
    ensures Classify(message) == Unexplained ==> e == validated
  {
    match Classify(message)
    case PasswordBlamed => validated.(password := "Invalid password")
    case EmailBlamed => validated.(email := "Email not found")
    case Unexplained => validated
  }

  /**
   * The field messages after a rejection as the page computes them: the handler
   * spreads the error object of the render it was created in, so what the
   * validation of this submission set is lost.
   */
  function AfterFailureAsWritten(snapshot: FieldErrors, validated: FieldErrors, message: Option<string>): FieldErrors {
    match Classify(message)
    case PasswordBlamed => snapshot.(password := "Invalid password")
    case EmailBlamed => snapshot.(email := "Email not found")
    case Unexplained => validated
  }

  function SetField(c: Credentials, name: string, value: string): Credentials {
    if name == "email" then c.(email := value)
    else if name == "password" then c.(password := value)
    else c
  }

  /** Typing into a field blanks that field's message. */
  function Cleared(e: FieldErrors, name: string): FieldErrors {
    if name == "email" && e.email != "" then e.(email := "")
    else if name == "password" && e.password != "" then e.(password := "")
    else e
  }

  class LoginState {
    var formData: Credentials
    var formErrors: FieldErrors
    var error: Option<string>
    var loading: bool

    /** The page opens with a demonstration account filled in. */
    constructor()
      ensures formData == Credentials("khoiadjatesnim@gmail.com", "solbot123")
      ensures formErrors == NoErrors && error == None && !loading
    {
      formData := Credentials("khoiadjatesnim@gmail.com", "solbot123");
      formErrors := NoErrors;
      error := None;
      loading := false;
    }

    /** `handleChange`: the field takes the value, its message and the general message go. */
    method HandleChange(name: string, value: string)
      modifies this
      ensures formData == SetField(old(formData), name, value)
      ensures formErrors == Cleared(old(formErrors), name)
      ensures error == None && loading == old(loading)
    {
      formData := SetField(formData, name, value);
      if name == "email" && formErrors.email != "" {
        formErrors := formErrors.(email := "");
      } else if name == "password" && formErrors.password != "" {
        formErrors := formErrors.(password := "");
      }
      if error.Some? {
        error := None;
      }
    }

    /** `validateForm`: both messages are recomputed. */
    method ValidateForm() returns (valid: bool)
      modifies this
      ensures formErrors == ValidationErrors(formData) && (valid <==> Valid(formData))
      ensures formData == old(formData) && error == old(error) && loading == old(loading)
    {
      valid := true;
      var errors := NoErrors;
      if formData.email == "" {
        errors := errors.(email := EmailMissing);
        valid := false;
      } else if !IsEmail(formData.email) {
        errors := errors.(email := EmailMalformed);
        valid := false;
      }
      if formData.password == "" {
        errors := errors.(password := PasswordMissing);
        valid := false;
      } else if |formData.password| < MinPasswordLength {
        errors := errors.(password := PasswordTooShort);
        valid := false;
      }
      formErrors := errors;
    }

    /**
     * `handleSubmit`: nothing is sent unless the form validates; a rejection sets the
     * general message and the blamed field's message. The blamed message is spread
     * over the error object the handler closed over, which is the one shown when the
     * form was submitted, not the one this validation set.
     */
    method HandleSubmit(outcome: Outcome) returns (sent: bool, navigated: bool)
      modifies this
      ensures formData == old(formData)
      ensures sent <==> Valid(formData)
      ensures navigated <==> sent && outcome.LoggedIn?
      ensures !sent ==> formErrors == ValidationErrors(formData) && error == old(error) && loading == old(loading)
      ensures sent ==> !loading
      ensures sent && outcome.LoggedIn? ==> formErrors == NoErrors && error == None
      ensures sent && outcome.Rejected? ==>
        && formErrors == AfterFailureAsWritten(old(formErrors), ValidationErrors(formData), outcome.message)
        && error == Some(GeneralMessage(Classify(outcome.message)))
    {
      var snapshot := formErrors;
      sent := ValidateForm();
      navigated := false;
      if !sent {
        return;
      }
      loading := true;
      error := None;
      match outcome {
        case LoggedIn =>
          navigated := true;
        case Rejected(m) =>
          error := Some(GeneralMessage(Classify(m)));
          formErrors := AfterFailureAsWritten(snapshot, formErrors, m);
      }
      loading := false;
    }
  }

  // ---------------------------------------------------------------------
  // What the messages mean.
  // ---------------------------------------------------------------------

  /**
   * The email is flagged iff it does not match the pattern, as missing when empty;
   * the password iff shorter than six characters, as missing when empty.
   */
  lemma ValidationMeaning(c: Credentials)
    ensures var e := ValidationErrors(c);
      && (e.email != "" <==> !IsEmail(c.email))
      && (e.email == EmailMissing <==> c.email == "")
      && (e.password != "" <==> |c.password| < MinPasswordLength)
      && (e.password == PasswordMissing <==> c.password == "")
      && (Valid(c) <==> IsEmail(c.email) && |c.password| >= MinPasswordLength)
  {
    if c.email == "" {
      assert Run(c.email) == Start;
    }
  }

  /** A message about the password is never blamed on the email, whatever else it mentions. */
  lemma PasswordWordWins(x: string, y: string)
    ensures Classify(Some(x + "password" + y)) == PasswordBlamed
  {
    var m := x + "password" + y;
    assert "password" <= m[|x|..];
  }

  /**
   * After a rejected submission of a valid form, a field carries a message exactly
   * when the rejection was blamed on it, and the general message names the same field.
   */
  lemma FailureShowsOnlyThisAttempt(c: Credentials, message: Option<string>)
    requires Valid(c)
    ensures var e := AfterFailure(ValidationErrors(c), message);
      && (e.password != "" <==> Classify(message) == PasswordBlamed)
      && (e.email != "" <==> Classify(message) == EmailBlamed)
  {
  }

  /**
   * On a submission made while no field message shows, as on the first attempt, the
   * handler as written and the intended one leave the same field messages.
   */
  lemma AsWrittenAgreesFromClean(c: Credentials, message: Option<string>)
    requires Valid(c)
    ensures AfterFailureAsWritten(NoErrors, ValidationErrors(c), message) == AfterFailure(ValidationErrors(c), message)
  {
    ValidationMeaning(c);
  }

  /**
   * The handler as written keeps a message from an earlier attempt: after a
   * rejection blamed on the password, the user edits the email and submits a
   * valid form again; the email is now rejected, yet the stale password message
   * is still shown, which this validation had cleared.
   */
  lemma StalePasswordMessage()
    ensures var snapshot := FieldErrors("", "Invalid password");
      var c := Credentials("a@x.com", "secret1");
      && Valid(c)
      && AfterFailureAsWritten(snapshot, ValidationErrors(c), Some("email")).password == "Invalid password"
      && AfterFailure(ValidationErrors(c), Some("email")).password == ""
  {
    AcceptsPlainAddress();
    assert "email" <= "email"[0..];
    assert Classify(Some("email")) == EmailBlamed;
  }
}
