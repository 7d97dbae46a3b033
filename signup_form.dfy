/** The sign-up form: its schema and its submit handler. The account creation
    itself (`signup` of the session) is not modelled; its outcome is a
    parameter. */
module SignupForm {
  import opened Common
  import opened LoginForm

  datatype SignupValues = SignupValues(displayName: string, email: string, password: string)

  /** The schema's messages in field order. `isEmail` stands for the schema
      library's email-format check. */
  function SignupFieldErrors(v: SignupValues, isEmail: string -> bool): (errs: seq<string>)
    ensures errs == [] <==> |v.displayName| >= 3 && isEmail(v.email) && |v.password| >= 6
    ensures |errs| <= 3
  {
    (if |v.displayName| < 3 then ["Username must be at least 3 characters."] else [])
    + (if !isEmail(v.email) then ["Invalid email address."] else [])
    + (if |v.password| < 6 then ["Password must be at least 6 characters."] else [])
  }

  const SIGNUP_FALLBACK := "There was a problem creating your account."

  /** `error.message || fallback`. */
  function SignupErrorDescription(e: Thrown): (d: string)
    ensures MessageOf(e).Some? && MessageOf(e).value != "" ==> d == MessageOf(e).value
    ensures (MessageOf(e).None? || MessageOf(e).value == "") ==> d == SIGNUP_FALLBACK
  {
    if MessageOf(e).Some? && MessageOf(e).value != "" then MessageOf(e).value else SIGNUP_FALLBACK
  }

  class Form {
    var isSubmitting: bool
    var fieldErrors: seq<string>
    var toasts: seq<Toast>
    /** The account creations the form has requested, in order. */
    var requests: seq<SignupValues>

    constructor()
      ensures !isSubmitting && fieldErrors == [] && toasts == [] && requests == []
    {
      isSubmitting := false;
      fieldErrors := [];
      toasts := [];
      requests := [];
    }

    /** `form.handleSubmit(onSubmit)`: an invalid form only shows its field
      messages; a valid one requests the account, shows the failure toast
      when `failure` says the request threw, and ends not submitting. */
    method HandleSubmit(v: SignupValues, isEmail: string -> bool, failure: Option<Thrown>)
      modifies this
      ensures fieldErrors == SignupFieldErrors(v, isEmail)
      ensures fieldErrors != [] ==>
        toasts == old(toasts) && requests == old(requests) && isSubmitting == old(isSubmitting)
      ensures fieldErrors == [] ==>
        && !isSubmitting
        && requests == old(requests) + [v]
        && toasts == old(toasts) +
             (if failure.Some? then [Toast("Sign-up Failed", SignupErrorDescription(failure.value))] else [])
    {
      fieldErrors := SignupFieldErrors(v, isEmail);
      if fieldErrors != [] {
        return;
      }
      isSubmitting := true;
      requests := requests + [v];
      if failure.Some? {
        toasts := toasts + [Toast("Sign-up Failed", SignupErrorDescription(failure.value))];
      }
      isSubmitting := false;
    }
  }
}
