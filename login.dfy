/** The log-in form (pages/Login.jsx): the checks `handle` runs before calling
    `login`, and the `aria-invalid` flag of the e-mail field. */
module Login {
  import opened Text
  import opened EmailFormat
  import Signup

  /** The shortest password the form sends. */
  const MinPasswordLength := 6

  datatype LoginError = InvalidEmail | PasswordTooShort

  function Message(e: LoginError): string
  {
    match e
    case InvalidEmail => "Email inválido"
    case PasswordTooShort => "Senha muito curta"
  }

  datatype LoginOutcome =
    | Rejected(error: LoginError)
    | Submit(email: string, password: string)

  /** `handle`: the e-mail is checked first, then the password length; the fields
      are sent as typed. */
  function CheckLogin(email: string, password: string): (r: LoginOutcome)
    ensures r.Submit? ==> r.email == email && r.password == password
  {
    if !ValidEmail(email) then Rejected(InvalidEmail)
    else if JsLength(password) < MinPasswordLength then Rejected(PasswordTooShort)
    else Submit(email, password)
  }

  /** `aria-invalid` on the e-mail input: flagged once something is typed that is not
      a valid address. */
  predicate EmailFieldInvalid(email: string)
    ensures EmailFieldInvalid(email) ==> email != []
    ensures email != [] ==> (EmailFieldInvalid(email) <==> !ValidEmail(email))
  {
    !ValidEmail(email) && JsLength(email) > 0
  }

  // ---------------------------------------------------------------- properties

  /** The form submits exactly when the e-mail matches the pattern and the password
      has at least six code units; otherwise the e-mail error takes precedence. */
  lemma LoginAcceptsIff(email: string, password: string)
    ensures CheckLogin(email, password).Submit? <==>
      MatchesPattern(email) && JsLength(password) >= MinPasswordLength
    ensures CheckLogin(email, password) == Rejected(InvalidEmail) <==> !MatchesPattern(email)
    ensures CheckLogin(email, password) == Rejected(PasswordTooShort) <==>
      MatchesPattern(email) && JsLength(password) < MinPasswordLength
  {
    ValidEmailIffPattern(email);
  }

  /** The empty field is not flagged, yet submitting it is refused; a flagged field
      can never be submitted. */
  lemma FlagAndSubmit(email: string, password: string)
    ensures !EmailFieldInvalid([])
    ensures CheckLogin([], password) == Rejected(InvalidEmail)
    ensures EmailFieldInvalid(email) ==> CheckLogin(email, password) == Rejected(InvalidEmail)
    ensures email != [] ==> (EmailFieldInvalid(email) <==> !MatchesPattern(email))
  {
    ValidEmailIffPattern(email);
    ValidEmailIffPattern([]);
  }

  /** The two forms disagree on short passwords: the sign-up form accepts a password
      of three characters when it has an upper-case letter, a digit and a symbol, but
      the log-in form refuses to send it. */
  lemma SignupPasswordRefusedAtLogin(email: string)
    requires ValidEmail(email)
    ensures Signup.PasswordStrength("A1!") >= Signup.MinStrength
    ensures CheckLogin(email, "A1!") == Rejected(PasswordTooShort)
  {
    assert Signup.IsUpper("A1!"[0]) && Signup.IsDigit("A1!"[1]);
    assert !Signup.IsAsciiLetterOrDigit("A1!"[2]);
  }
}
