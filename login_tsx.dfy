/**
 * The TypeScript login page: two checks before the request, each ending the
 * submission with its own message, and the message shown for each kind of
 * answer. The answer of the login endpoint is a parameter.
 */
module LoginTsx {
  import opened Base
  import opened Text
  import opened EmailPattern
  import Login

  const BadEmail := "Please enter a valid email address"
  const ShortPassword := "Password must be at least 6 characters long"

  const MinPasswordLength := 6

  /**
   * What `fetch` produced: a thrown network error with its message, or an answer
   * with its `ok` flag, status, and the `message` and `token` of its JSON body.
   */
  datatype Response =
    | NetworkError(reason: string)
    | Answered(ok: bool, status: int, message: Option<string>, token: Option<string>)

  /** The message of the error thrown for an answer that is not `ok`. */
  function FailureMessage(status: int, message: Option<string>): string {
    if status == 401 then "Invalid email or password"
    else if status == 404 then "User not found"
    else if Truthy(message) then message.value
    else "Login failed"
  }

  /** The checks run before the request, in order; `""` when both pass. */
  function PrecheckError(email: string, password: string): (e: string)
    ensures e == "" <==> IsLooseEmail(email) && |password| >= MinPasswordLength
  {
    if !IsLooseEmail(email) then BadEmail
    else if |password| < MinPasswordLength then ShortPassword
    else ""
  }

  /** The page is left for the dashboard exactly when the checks pass and the answer is `ok`. */
  predicate Redirects(email: string, password: string, r: Response) {
    PrecheckError(email, password) == "" && r.Answered? && r.ok
  }

  /** The message left on the page after a submission. */
  function SubmitError(email: string, password: string, r: Response): string {
    var pre := PrecheckError(email, password);
    if pre != "" then pre
    else match r
      case NetworkError(reason) => reason
      case Answered(ok, status, message, _) => if ok then "" else FailureMessage(status, message)
  }

  class LoginState {
    var email: string
    var password: string
    var error: string
    var loading: bool
    var storedToken: Option<Option<string>>

    /** The page opens with the demonstration address and no password. */
    constructor()
      ensures email == "khoiadjatesnim@gmail.com" && password == ""
      ensures error == "" && !loading && storedToken == None
    {
      email := "khoiadjatesnim@gmail.com";
      password := "";
      error := "";
      loading := false;
      storedToken := None;
    }

    /** `handleChange`: the field takes the value and the message goes. */
    method HandleChange(name: string, value: string)
      modifies this
      ensures email == (if name == "email" then value else old(email))
      ensures password == (if name == "password" then value else old(password))
      ensures error == "" && loading == old(loading) && storedToken == old(storedToken)
    {
      if name == "email" {
        email := value;
      } else if name == "password" {
        password := value;
      }
      error := "";
    }

    /**
     * `handleSubmit`: each failing check sets its message and returns; otherwise the
     * request is sent, an `ok` answer stores its token and leaves for the dashboard,
     * and any other outcome leaves its message. Loading is off on every path.
     */
    method HandleSubmit(r: Response) returns (requested: bool, redirected: bool)
      modifies this
      ensures requested <==> PrecheckError(email, password) == ""
      ensures redirected <==> Redirects(email, password, r)
      ensures error == SubmitError(email, password, r) && !loading
      ensures storedToken == if redirected then Some(r.token) else old(storedToken)
      ensures email == old(email) && password == old(password)
    {
      loading := true;
      error := "";
      requested := false;
      redirected := false;
      if !IsLooseEmail(email) {
        error := BadEmail;
        loading := false;
        return;
      }
      if |password| < MinPasswordLength {
        error := ShortPassword;
        loading := false;
        return;
      }
      requested := true;
      match r {
        case NetworkError(reason) =>
          error := reason;
        case Answered(ok, status, message, token) =>
          if ok {
            storedToken := Some(token);
            redirected := true;
          } else {
            error := FailureMessage(status, message);
          }
      }
      loading := false;
    }
  }

  // ---------------------------------------------------------------------
  // What the messages mean.
  // ---------------------------------------------------------------------

  /**
   * A rejected answer always leaves a message: the two statuses with their own
   * text, otherwise the server's message or the fallback.
   */
  lemma FailureMessages(status: int, message: Option<string>)
    ensures FailureMessage(status, message) != ""
    ensures status == 401 ==> FailureMessage(status, message) == "Invalid email or password"
    ensures status == 404 ==> FailureMessage(status, message) == "User not found"
    ensures status != 401 && status != 404 ==>
      FailureMessage(status, message) == if Truthy(message) then message.value else "Login failed"
  {
  }

  /**
   * After a submission the page shows no message exactly when it leaves for the
   * dashboard, unless the network error it met had an empty message.
   */
  lemma MessageIffNoRedirect(email: string, password: string, r: Response)
    requires r.NetworkError? ==> r.reason != ""
    ensures SubmitError(email, password, r) == "" <==> Redirects(email, password, r)
  {
    if PrecheckError(email, password) == "" && r.Answered? && !r.ok {
      FailureMessages(r.status, r.message);
    }
  }

  /** The email check comes first: with both fields wrong, only the email is reported. */
  lemma EmailCheckedFirst(email: string, password: string)
    requires !IsLooseEmail(email)
    ensures PrecheckError(email, password) == BadEmail
  {
  }

  // ---------------------------------------------------------------------
  // The two login pages.
  // ---------------------------------------------------------------------

  /**
   * Every form the JavaScript page sends passes this page's checks, but this page
   * also sends an address with a one-letter top-level domain, which the other refuses.
   */
  lemma LooserThanJavaScriptPage(email: string, password: string)
    ensures Login.Valid(Login.Credentials(email, password)) ==> PrecheckError(email, password) == ""
    ensures PrecheckError("a@b.c", "secret1") == "" && !Login.Valid(Login.Credentials("a@b.c", "secret1"))
  {
    if Login.Valid(Login.Credentials(email, password)) {
      Login.ValidationMeaning(Login.Credentials(email, password));
      StrictImpliesLoose(email);
    }
    LooseAcceptsMore();
    Login.ValidationMeaning(Login.Credentials("a@b.c", "secret1"));
  }
}
