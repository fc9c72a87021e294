/** The sign-up form: its schema (a valid e-mail, a password of at least six
    characters, a confirmation equal to the password) and what submitting sends. */
module SignupForm {
  import opened Values
  import opened FormIssues

  datatype SignupValues = SignupValues(email: string, password: string, confirmPassword: string)

  /** Every field starts empty. */
  const DefaultValues := SignupValues("", "", "")

  const MinPasswordLength := 6
  const PasswordTooShort := "Password must be at least 6 characters."
  const PasswordsDiffer := "Passwords don't match."

  /** The schema's issues in the order it reports them: the field checks first,
      then the whole-object refinement, which runs even when a field check failed
      and files its issue under the confirmation field. */
  function Validate(v: SignupValues, isEmail: string -> bool): (issues: seq<Issue>)
    ensures issues == [] <==> isEmail(v.email) && |v.password| >= MinPasswordLength && v.password == v.confirmPassword
    ensures Issue(Email, InvalidEmail) in issues <==> !isEmail(v.email)
    ensures Issue(Password, PasswordTooShort) in issues <==> |v.password| < MinPasswordLength
    ensures Issue(ConfirmPassword, PasswordsDiffer) in issues <==> v.password != v.confirmPassword
    ensures |issues| <= 3
  {
    EmailIssues(v.email, isEmail)
    + (if |v.password| < MinPasswordLength then [Issue(Password, PasswordTooShort)] else [])
    + (if v.password != v.confirmPassword then [Issue(ConfirmPassword, PasswordsDiffer)] else [])
  }

  /** `onSubmit` runs only for a valid form and forwards the e-mail and the
      password; the confirmation stays behind. */
  function Submit(v: SignupValues, isEmail: string -> bool): (c: Option<Credentials>)
    ensures c.Some? <==> Validate(v, isEmail) == []
    ensures c.Some? ==> c.value == Credentials(v.email, v.password)
  {
    if Validate(v, isEmail) == [] then Some(Credentials(v.email, v.password)) else None
  }

  /** Anything submitted has a long-enough password that its confirmation repeated exactly. */
  lemma SubmittedPasswordConfirmed(v: SignupValues, isEmail: string -> bool)
    requires Submit(v, isEmail).Some?
    ensures |Submit(v, isEmail).value.password| >= MinPasswordLength
    ensures Submit(v, isEmail).value.password == v.confirmPassword
    ensures isEmail(Submit(v, isEmail).value.email)
  {
  }

  /** The untouched form cannot be submitted, whatever counts as an e-mail address:
      its empty password is too short. */
  lemma DefaultFormInvalid(isEmail: string -> bool)
    ensures Issue(Password, PasswordTooShort) in Validate(DefaultValues, isEmail)
    ensures Submit(DefaultValues, isEmail).None?
  {
  }

  /** A mismatch is reported under the confirmation field even when the password
      is also too short. */
  lemma MismatchReportedWithShortPassword(v: SignupValues, isEmail: string -> bool)
    requires |v.password| < MinPasswordLength && v.password != v.confirmPassword
    ensures Issue(Password, PasswordTooShort) in Validate(v, isEmail)
    ensures Issue(ConfirmPassword, PasswordsDiffer) in Validate(v, isEmail)
  {
  }
}
