/** The log-in form: its schema (a valid e-mail and a non-empty password) and
    what submitting sends. */
module LoginForm {
  import opened Values
  import opened FormIssues
  import SignupForm

  datatype LoginValues = LoginValues(email: string, password: string)

  /** Both fields start empty. */
  const DefaultValues := LoginValues("", "")

  const PasswordRequired := "Password is required."

  /** The schema's issues: the e-mail check, then a password of length at least one. */
  function Validate(v: LoginValues, isEmail: string -> bool): (issues: seq<Issue>)
    ensures issues == [] <==> isEmail(v.email) && v.password != ""
    ensures Issue(Email, InvalidEmail) in issues <==> !isEmail(v.email)
    ensures Issue(Password, PasswordRequired) in issues <==> v.password == ""
    ensures forall i :: 0 <= i < |issues| ==> issues[i].path != ConfirmPassword
  {
    EmailIssues(v.email, isEmail)
    + (if |v.password| < 1 then [Issue(Password, PasswordRequired)] else [])
  }

  /** `onSubmit` runs only for a valid form and forwards both fields unchanged. */
  function Submit(v: LoginValues, isEmail: string -> bool): (c: Option<Credentials>)
    ensures c.Some? <==> Validate(v, isEmail) == []
    ensures c.Some? ==> c.value == Credentials(v.email, v.password)
  {
    if Validate(v, isEmail) == [] then Some(Credentials(v.email, v.password)) else None
  }

  /** No length rule beyond non-emptiness: a one-character password is accepted. */
  lemma AnyNonEmptyPasswordAccepted(email: string, password: string, isEmail: string -> bool)
    requires isEmail(email) && password != ""
    ensures Submit(LoginValues(email, password), isEmail) == Some(Credentials(email, password))
  {
  }

  /** The untouched form cannot be submitted. */
  lemma DefaultFormInvalid(isEmail: string -> bool)
    ensures Issue(Password, PasswordRequired) in Validate(DefaultValues, isEmail)
    ensures Submit(DefaultValues, isEmail).None?
  {
  }

  /** Whatever the sign-up form accepts, the log-in form accepts too, and sends the
      same credentials. */
  lemma SignupCredentialsPassLogin(v: SignupForm.SignupValues, isEmail: string -> bool)
    requires SignupForm.Submit(v, isEmail).Some?
    ensures Submit(LoginValues(v.email, v.password), isEmail) == SignupForm.Submit(v, isEmail)
  {
  }
}
