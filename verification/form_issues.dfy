/** What the two account forms share: the fields a validation issue can point
    at, the e-mail check, and the credentials handed on when a form is submitted. */
module FormIssues {

  datatype Field = Email | Password | ConfirmPassword

  /** One validation issue: the field it is shown under and its message. */
  datatype Issue = Issue(path: Field, message: string)

  const InvalidEmail := "Invalid email address."

  /** The issue list of the e-mail field. The address syntax is a parameter: the
      form library's own e-mail pattern is not part of this model. */
  function EmailIssues(email: string, isEmail: string -> bool): (r: seq<Issue>)
    ensures r == [] <==> isEmail(email)
    ensures r != [] ==> r == [Issue(Email, InvalidEmail)]
  {
    if isEmail(email) then [] else [Issue(Email, InvalidEmail)]
  }

  /** What a submitted form passes to the authentication call. */
  datatype Credentials = Credentials(email: string, password: string)
}
