/**
 * The settings page: the profile form and the password form, which share one
 * error object, their validation, and what each update does to the page. The
 * server's answers are parameters.
 */
module Settings {
  import opened Base
  import opened Text
  import opened EmailPattern
  import StaffForm

  const NameMissing := "Name is required"
  const EmailMissing := "Email is required"
  const EmailMalformed := "Please enter a valid email address"
  const CurrentMissing := "Current password is required"
  const NewMissing := "New password is required"
  const NewTooShort := "Password must be at least 6 characters"
  const ConfirmMissing := "Please confirm your new password"
  const ConfirmMismatch := "Passwords do not match"

  /** The shortest new password the form accepts. */
  const MinPasswordLength := 6

  datatype Profile = Profile(name: string, email: string, role: string, profileImage: string)

  datatype Passwords = Passwords(currentPassword: string, newPassword: string, confirmPassword: string)

  const EmptyPasswords := Passwords("", "", "")

  /** The user record the profile request answers; a field may be missing. */
  datatype UserData = UserData(name: Option<string>, email: Option<string>, role: Option<string>, profileImage: Option<string>)

  datatype Snackbar = Snackbar(open: bool, message: string, severity: string)

  /**
   * What the auth service's update wrappers throw when a request fails: the
   * response body when the server answered (with its `message`, if any), and
   * `new Error('Server error')` when it did not.
   */
  datatype Thrown = ResponseBody(message: Option<string>) | ServerError

  /** How an update request ended: resolved, or rejected with what the wrapper threw. */
  datatype Answer = Resolved | Rejected(thrown: Thrown)

  /** `x || fallback`. */
  function OrElse(x: Option<string>, fallback: string): (r: string)
    ensures Truthy(x) ==> r == x.value
    ensures !Truthy(x) ==> r == fallback
  {
    if Truthy(x) then x.value else fallback
  }

  /** The profile shown for a loaded user: missing fields empty, a missing role `user`. */
  function LoadedProfile(u: UserData): Profile {
    Profile(OrElse(u.name, ""), OrElse(u.email, ""), OrElse(u.role, "user"), OrElse(u.profileImage, ""))
  }

  /** `validateProfileForm`'s error object. */
  function ProfileErrors(p: Profile): map<string, string> {
    var afterName := if IsBlank(p.name) then map["name" := NameMissing] else map[];
    if IsBlank(p.email) then afterName["email" := EmailMissing]
    else if !IsEmail(p.email) then afterName["email" := EmailMalformed]
    else afterName
  }

  /** `validatePasswordForm`'s error object. */
  function PasswordErrors(pw: Passwords): map<string, string> {
    var afterCurrent := if pw.currentPassword == "" then map["currentPassword" := CurrentMissing] else map[];
    var afterNew :=
      if pw.newPassword == "" then afterCurrent["newPassword" := NewMissing]
      else if |pw.newPassword| < MinPasswordLength then afterCurrent["newPassword" := NewTooShort]
      else afterCurrent;
    if pw.confirmPassword == "" then afterNew["confirmPassword" := ConfirmMissing]
    else if pw.newPassword != pw.confirmPassword then afterNew["confirmPassword" := ConfirmMismatch]
    else afterNew
  }

  function SetProfileField(p: Profile, name: string, value: string): Profile {
    if name == "name" then p.(name := value)
    else if name == "email" then p.(email := value)
    else if name == "role" then p.(role := value)
    else if name == "profileImage" then p.(profileImage := value)
    else p
  }

  function SetPasswordField(pw: Passwords, name: string, value: string): Passwords {
    if name == "currentPassword" then pw.(currentPassword := value)
    else if name == "newPassword" then pw.(newPassword := value)
    else if name == "confirmPassword" then pw.(confirmPassword := value)
    else pw
  }

  /** The error object after typing into field `name`: a shown message on it is blanked. */
  function Cleared(errors: map<string, string>, name: string): map<string, string> {
    if name in errors && errors[name] != "" then errors[name := ""] else errors
  }

  /**
   * `err.response?.data?.message`. Neither value the wrappers throw has a
   * `response` property: a response body is the server's JSON, and the other is
   * a plain `Error`.
   */
  function ResponseDataMessage(t: Thrown): Option<string> {
    match t
    case ResponseBody(_) => None
    case ServerError => None
  }

  /**
   * The notice after an update, as the page computes it, with the page's success
   * text and fallback failure text.
   */
  function Notice(a: Answer, success: string, failure: string): (s: Snackbar)
    ensures s.open
    ensures a.Resolved? <==> s.severity == "success"
    ensures a.Resolved? ==> s.message == success
    ensures a.Rejected? ==> s.message == failure
  {
    match a
    case Resolved => Snackbar(true, success, "success")
    case Rejected(t) => Snackbar(true, OrElse(ResponseDataMessage(t), failure), "error")
  }

  /** The server's message, where the thrown value carries one: `err.message` of a response body. */
  function ServerMessage(t: Thrown): Option<string> {
    match t
    case ResponseBody(m) => m
    case ServerError => None
  }

  /** The notice the page evidently means to show: the server's message when it sent one, else the fallback. */
  function IntendedNotice(a: Answer, success: string, failure: string): (s: Snackbar)
    ensures s.open
    ensures a.Resolved? <==> s.severity == "success"
  {
    match a
    case Resolved => Snackbar(true, success, "success")
    case Rejected(t) => Snackbar(true, OrElse(ServerMessage(t), failure), "error")
  }

  class SettingsState {
    var profile: Profile
    var passwords: Passwords
    var errors: map<string, string>
    var loading: bool
    var profileLoading: bool
    var snackbar: Snackbar

    constructor()
      ensures profile == Profile("", "", "", "") && passwords == EmptyPasswords && errors == map[]
      ensures !loading && profileLoading && !snackbar.open
    {
      profile := Profile("", "", "", "");
      passwords := EmptyPasswords;
      errors := map[];
      loading := false;
      profileLoading := true;
      snackbar := Snackbar(false, "", "success");
    }

    /** The profile request on mount: the loaded user, or an error notice when it failed. */
    method LoadProfile(response: Option<UserData>)
      modifies this
      ensures response.Some? ==> profile == LoadedProfile(response.value) && snackbar == old(snackbar)
      ensures response.None? ==>
        profile == old(profile) && snackbar == Snackbar(true, "Failed to load user profile", "error")
      ensures !profileLoading
      ensures passwords == old(passwords) && errors == old(errors) && loading == old(loading)
    {
      profileLoading := true;
      if response.Some? {
        profile := LoadedProfile(response.value);
      } else {
        snackbar := Snackbar(true, "Failed to load user profile", "error");
      }
      profileLoading := false;
    }

    /** `handleProfileChange`. */
    method HandleProfileChange(name: string, value: string)
      modifies this
      ensures profile == SetProfileField(old(profile), name, value) && errors == Cleared(old(errors), name)
      ensures passwords == old(passwords) && loading == old(loading) && snackbar == old(snackbar)
    {
      profile := SetProfileField(profile, name, value);
      if name in errors && errors[name] != "" {
        errors := errors[name := ""];
      }
    }

    /** `handlePasswordChange`. */
    method HandlePasswordChange(name: string, value: string)
      modifies this
      ensures passwords == SetPasswordField(old(passwords), name, value) && errors == Cleared(old(errors), name)
      ensures profile == old(profile) && loading == old(loading) && snackbar == old(snackbar)
    {
      passwords := SetPasswordField(passwords, name, value);
      if name in errors && errors[name] != "" {
        errors := errors[name := ""];
      }
    }

    /** `validateProfileForm`: its error object replaces the shared one. */
    method ValidateProfileForm() returns (ok: bool)
      modifies this
      ensures errors == ProfileErrors(profile) && (ok <==> |errors| == 0)
      ensures profile == old(profile) && passwords == old(passwords)
      ensures loading == old(loading) && snackbar == old(snackbar)
    {
      var newErrors: map<string, string> := map[];
      if IsBlank(profile.name) {
        newErrors := newErrors["name" := NameMissing];
      }
      if IsBlank(profile.email) {
        newErrors := newErrors["email" := EmailMissing];
      } else if !IsEmail(profile.email) {
        newErrors := newErrors["email" := EmailMalformed];
      }
      errors := newErrors;
      ok := |newErrors| == 0;
    }

    /** `validatePasswordForm`: its error object replaces the shared one. */
    method ValidatePasswordForm() returns (ok: bool)
      modifies this
      ensures errors == PasswordErrors(passwords) && (ok <==> |errors| == 0)
      ensures profile == old(profile) && passwords == old(passwords)
      ensures loading == old(loading) && snackbar == old(snackbar)
    {
      var newErrors: map<string, string> := map[];
      if passwords.currentPassword == "" {
        newErrors := newErrors["currentPassword" := CurrentMissing];
      }
      if passwords.newPassword == "" {
        newErrors := newErrors["newPassword" := NewMissing];
      } else if |passwords.newPassword| < MinPasswordLength {
        newErrors := newErrors["newPassword" := NewTooShort];
      }
      if passwords.confirmPassword == "" {
        newErrors := newErrors["confirmPassword" := ConfirmMissing];
      } else if passwords.newPassword != passwords.confirmPassword {
        newErrors := newErrors["confirmPassword" := ConfirmMismatch];
      }
      errors := newErrors;
      ok := |newErrors| == 0;
    }

    /**
     * `handleProfileUpdate`: a valid profile sends its name and email and reports the
     * answer; a rejection always shows the fallback text.
     */
    method HandleProfileUpdate(answer: Answer) returns (sent: Option<(string, string)>)
      modifies this
      ensures errors == ProfileErrors(profile) && profile == old(profile) && passwords == old(passwords)
      ensures sent.Some? <==> |ProfileErrors(profile)| == 0
      ensures sent.Some? ==> sent.value == (profile.name, profile.email)
      ensures snackbar == if sent.Some? then Notice(answer, "Profile updated successfully", "Failed to update profile") else old(snackbar)
      ensures sent.Some? && answer.Rejected? ==> snackbar.message == "Failed to update profile"
      ensures loading == if sent.Some? then false else old(loading)
    {
      var ok := ValidateProfileForm();
      if !ok {
        sent := None;
        return;
      }
      loading := true;
      sent := Some((profile.name, profile.email));
      snackbar := Notice(answer, "Profile updated successfully", "Failed to update profile");
      loading := false;
    }

    /**
     * `handlePasswordUpdate`: a valid form sends the current and the new password;
     * when the server accepts, the three fields are emptied; a rejection always
     * shows the fallback text.
     */
    method HandlePasswordUpdate(answer: Answer) returns (sent: Option<(string, string)>)
      modifies this
      ensures errors == PasswordErrors(old(passwords)) && profile == old(profile)
      ensures sent.Some? <==> |PasswordErrors(old(passwords))| == 0
      ensures sent.Some? ==> sent.value == (old(passwords).currentPassword, old(passwords).newPassword)
      ensures passwords == if sent.Some? && answer.Resolved? then EmptyPasswords else old(passwords)
      ensures snackbar == if sent.Some? then Notice(answer, "Password updated successfully", "Failed to update password") else old(snackbar)
      ensures sent.Some? && answer.Rejected? ==> snackbar.message == "Failed to update password"
      ensures loading == if sent.Some? then false else old(loading)
    {
      var ok := ValidatePasswordForm();
      if !ok {
        sent := None;
        return;
      }
      loading := true;
      sent := Some((passwords.currentPassword, passwords.newPassword));
      snackbar := Notice(answer, "Password updated successfully", "Failed to update password");
      if answer.Resolved? {
        passwords := EmptyPasswords;
      }
      loading := false;
    }
  }

  // ---------------------------------------------------------------------
  // What the messages mean.
  // ---------------------------------------------------------------------

  /**
   * The current password is flagged iff empty; the new one iff shorter than six,
   * as missing when empty; the confirmation iff empty or different from the new
   * one. The form passes exactly when all three hold.
   */
  lemma PasswordErrorsMeaning(pw: Passwords)
    ensures var e := PasswordErrors(pw);
      && e.Keys <= {"currentPassword", "newPassword", "confirmPassword"}
      && ("currentPassword" in e <==> pw.currentPassword == "")
      && ("newPassword" in e <==> |pw.newPassword| < MinPasswordLength)
      && ("newPassword" in e ==> e["newPassword"] == if pw.newPassword == "" then NewMissing else NewTooShort)
      && ("confirmPassword" in e <==> pw.confirmPassword == "" || pw.confirmPassword != pw.newPassword)
      && ("confirmPassword" in e ==>
            e["confirmPassword"] == if pw.confirmPassword == "" then ConfirmMissing else ConfirmMismatch)
      && (|e| == 0 <==>
            pw.currentPassword != "" && |pw.newPassword| >= MinPasswordLength && pw.confirmPassword == pw.newPassword)
  {
    var e := PasswordErrors(pw);
    if |e| != 0 {
      var k :| k in e;
    }
  }

  /** After a successful change the emptied form would be refused on every field. */
  lemma ResetFormRefused()
    ensures PasswordErrors(EmptyPasswords) ==
      map["currentPassword" := CurrentMissing, "newPassword" := NewMissing, "confirmPassword" := ConfirmMissing]
  {
  }

  /** The profile form applies the staff dialog's rules and messages to name and email. */
  lemma ProfileRulesAreStaffRules(p: Profile)
    ensures ProfileErrors(p) == StaffForm.FormErrors(StaffForm.DefaultForm.(name := p.name, email := p.email))
  {
  }

  /** The two validations flag disjoint fields, so running one removes every message of the other. */
  lemma ValidationsDisjoint(p: Profile, pw: Passwords)
    ensures ProfileErrors(p).Keys !! PasswordErrors(pw).Keys
  {
    PasswordErrorsMeaning(pw);
  }

  /** A loaded user with a role keeps it; one without is shown as `user`. */
  lemma LoadedRole(u: UserData)
    ensures LoadedProfile(u).role == if Truthy(u.role) then u.role.value else "user"
    ensures LoadedProfile(u).role != ""
  {
  }

  // ---------------------------------------------------------------------
  // The server's message never reaches the notice.
  // ---------------------------------------------------------------------

  /**
   * As written, a rejected profile update shows the fallback text even when the
   * server explained the refusal, which the intended notice would show.
   */
  lemma ServerMessageLost()
    ensures var a := Rejected(ResponseBody(Some("Email already in use")));
      && Notice(a, "Profile updated successfully", "Failed to update profile").message == "Failed to update profile"
      && IntendedNotice(a, "Profile updated successfully", "Failed to update profile").message == "Email already in use"
  {
  }

  /**
   * The intended notice shows the server's message whenever the server sent a
   * non-empty one, and the fallback text otherwise, including when no response came.
   */
  lemma IntendedShowsServerMessage(t: Thrown, success: string, failure: string)
    ensures var s := IntendedNotice(Rejected(t), success, failure);
      && s.severity == "error"
      && (t.ResponseBody? && Truthy(t.message) ==> s.message == t.message.value)
      && (t.ServerError? || !Truthy(t.message) ==> s.message == failure)
  {
  }

  /**
   * The page and the intended notice differ exactly on a rejection whose server
   * message is non-empty and not the fallback text itself.
   */
  lemma AsWrittenAgreesWithoutMessage(a: Answer, success: string, failure: string)
    ensures Notice(a, success, failure) == IntendedNotice(a, success, failure) <==>
      a.Resolved? || !Truthy(ServerMessage(a.thrown)) || ServerMessage(a.thrown).value == failure
  {
    if a.Rejected? && Truthy(ServerMessage(a.thrown)) && ServerMessage(a.thrown).value != failure {
      assert Notice(a, success, failure).message != IntendedNotice(a, success, failure).message;
    }
  }
}
