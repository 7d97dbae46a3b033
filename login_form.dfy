/** The login form: its schema, its submit handler and the message a failed
    login shows. */
module LoginForm {
  import opened Common
  import opened Auth

  /** The form's two fields. */
  datatype LoginValues = LoginValues(emailOrUsername: string, password: string)

  /** The schema's messages for each field that fails its check, in field
      order; the form is valid when there are none. */
  function LoginFieldErrors(v: LoginValues): (errs: seq<string>)
    ensures errs == [] <==> v.emailOrUsername != "" && v.password != ""
    ensures |errs| <= 2
  {
    (if v.emailOrUsername == "" then ["Email or Username is required."] else [])
    + (if v.password == "" then ["Password is required."] else [])
  }

  /** The `message` of a thrown error, when the model knows it. */
  function MessageOf(e: Thrown): Option<string>
  {
    match e
    case JsError(m) => Some(m)
    case AuthError(_, m) => Some(m)
    case PermissionError(_) => None
  }

  /** The `code` of a thrown error; only identity-provider errors carry one. */
  function CodeOf(e: Thrown): Option<string>
  {
    if e.AuthError? then Some(e.code) else None
  }

  const INCORRECT := "Incorrect email/username or password. Please try again."
  const GENERIC := "There was a problem with your request."

  /** An unknown username, or one of the three credential codes. */
  predicate BadCredentials(e: Thrown)
  {
    || MessageOf(e) == Some("User not found")
    || CodeOf(e) == Some("auth/invalid-credential")
    || CodeOf(e) == Some("auth/wrong-password")
    || CodeOf(e) == Some("auth/user-not-found")
  }

  function ErrorDescription(e: Thrown): (d: string)
    ensures d == INCORRECT <==> BadCredentials(e)
    ensures d == GENERIC <==> !BadCredentials(e)
  {
    if BadCredentials(e) then INCORRECT else GENERIC
  }

  datatype Toast = Toast(title: string, description: string)

  /** Once a user is cached the form sends the visitor home. */
  function RedirectTarget(user: Option<Doc>): (r: Option<string>)
    ensures r.Some? <==> user.Some?
    ensures r.Some? ==> r.value == "/"
  {
    if user.Some? then Some("/") else None
  }

  /** A failed login through the form shows the incorrect-credentials text
      for an unknown username and for a wrong password; a username whose
      profile holds no email string gets the generic text, since the sign-in
      then fails on the email's format. */
  lemma LoginFailureText(users: seq<Doc>, credentials: map<string, string>, v: LoginValues)
    ensures '@' !in v.emailOrUsername && FirstWithDisplayName(users, v.emailOrUsername).None? ==>
      Login(users, credentials, v.emailOrUsername, v.password).Failure? &&
      ErrorDescription(Login(users, credentials, v.emailOrUsername, v.password).error) == INCORRECT
    ensures '@' in v.emailOrUsername && !(v.emailOrUsername in credentials && credentials[v.emailOrUsername] == v.password) ==>
      Login(users, credentials, v.emailOrUsername, v.password).Failure? &&
      ErrorDescription(Login(users, credentials, v.emailOrUsername, v.password).error) == INCORRECT
    ensures '@' !in v.emailOrUsername && FirstWithDisplayName(users, v.emailOrUsername).Some? &&
            StrField(users[FirstWithDisplayName(users, v.emailOrUsername).value], "email").None? ==>
      Login(users, credentials, v.emailOrUsername, v.password).Failure? &&
      ErrorDescription(Login(users, credentials, v.emailOrUsername, v.password).error) == GENERIC
  {
  }

  /** The form's state. */
  class Form {
    var isSubmitting: bool
    var fieldErrors: seq<string>
    var toasts: seq<Toast>
    /** The email the identity provider signed in, once a login succeeded. */
    var signedIn: Option<string>

    constructor()
      ensures !isSubmitting && fieldErrors == [] && toasts == [] && signedIn.None?
    {
      isSubmitting := false;
      fieldErrors := [];
      toasts := [];
      signedIn := None;
    }

    /** `form.handleSubmit(onSubmit)`: the schema runs first and an invalid
      form only shows its field messages; a valid one calls `login`, shows
      the failure toast when it throws, and ends not submitting whether the
      login succeeded or not. */
    method HandleSubmit(users: seq<Doc>, credentials: map<string, string>, v: LoginValues)
      modifies this
      ensures fieldErrors == LoginFieldErrors(v)
      ensures fieldErrors != [] ==>
        toasts == old(toasts) && signedIn == old(signedIn) && isSubmitting == old(isSubmitting)
      ensures fieldErrors == [] ==> !isSubmitting
      ensures fieldErrors == [] ==>
        match Login(users, credentials, v.emailOrUsername, v.password)
        case Success(email) => signedIn == Some(email) && toasts == old(toasts)
        case Failure(e) =>
          signedIn == old(signedIn) && toasts == old(toasts) + [Toast("Login Failed", ErrorDescription(e))]
    {
      fieldErrors := LoginFieldErrors(v);
      if fieldErrors != [] {
        return;
      }
      isSubmitting := true;
      var r := Login(users, credentials, v.emailOrUsername, v.password);
      if r.Success? {
        signedIn := Some(r.value);
      } else {
        toasts := toasts + [Toast("Login Failed", ErrorDescription(r.error))];
      }
      isSubmitting := false;
    }
  }
}
