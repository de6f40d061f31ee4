/** The sign-up form (pages/Signup.jsx): the password-strength meter and the checks
    `handle` runs, in order, before calling `signup` with the trimmed name. Lengths are
    JavaScript lengths (UTF-16 code units). */
module Signup {
  import opened Text
  import opened EmailFormat

  predicate IsUpper(c: char) { 'A' <= c <= 'Z' }
  predicate IsDigit(c: char) { '0' <= c <= '9' }
  predicate IsAsciiLetterOrDigit(c: char) { IsUpper(c) || 'a' <= c <= 'z' || IsDigit(c) }

  /** `/[A-Z]/.test(p)` */
  predicate HasUpper(p: string) { exists i :: 0 <= i < |p| && IsUpper(p[i]) }
  /** `/[0-9]/.test(p)` */
  predicate HasDigit(p: string) { exists i :: 0 <= i < |p| && IsDigit(p[i]) }
  /** `/[^A-Za-z0-9]/.test(p)` */
  predicate HasSymbol(p: string) { exists i :: 0 <= i < |p| && !IsAsciiLetterOrDigit(p[i]) }

  function Point(b: bool): nat { if b then 1 else 0 }

  /** `passwordStrength`: one point each for a length of at least 8, an upper-case
      letter, a digit, and a character that is not an ASCII letter or digit. */
  function PasswordStrength(p: string): (r: nat)
    ensures r <= 4
    ensures p == [] ==> r == 0
  {
    Point(JsLength(p) >= 8) + Point(HasUpper(p)) + Point(HasDigit(p)) + Point(HasSymbol(p))
  }

  const StrengthLabels: seq<string> := ["Muito fraca", "Fraca", "Média", "Forte", "Muito forte"]

  /** The label under the password field, `strengthLabels[strength]`. */
  function StrengthLabel(p: string): (l: string)
    ensures l in StrengthLabels
    ensures l == StrengthLabels[PasswordStrength(p)]
    ensures PasswordStrength(p) >= MinStrength <==> l in StrengthLabels[MinStrength..]
    ensures p == [] ==> l == "Muito fraca"
  {
    StrengthLabels[PasswordStrength(p)]
  }

  /** The strength the form demands. */
  const MinStrength := 3
  /** The trimmed name must have at least this length. */
  const MinNameLength := 2

  datatype SignupError = NameTooShort | InvalidEmail | WeakPassword | PasswordMismatch

  function Message(e: SignupError): string
  {
    match e
    case NameTooShort => "Nome muito curto"
    case InvalidEmail => "Email inválido"
    case WeakPassword => "Senha fraca — use 8+ caracteres, letras maiúsculas, números ou símbolos"
    case PasswordMismatch => "Senhas não conferem"
  }

  datatype SignupOutcome =
    | Rejected(error: SignupError)
    | Submit(name: string, email: string, password: string)

  /** `handle`: the first failing check sets the local error; when all pass, the
      trimmed name, the e-mail and the password are sent. */
  function CheckSignup(name: string, email: string, password: string, confirm: string): (r: SignupOutcome)
    ensures r.Submit? ==> r.name == Trim(name) && r.email == email && r.password == password
  {
    if JsLength(Trim(name)) < MinNameLength then Rejected(NameTooShort)
    else if !ValidEmail(email) then Rejected(InvalidEmail)
    else if PasswordStrength(password) < MinStrength then Rejected(WeakPassword)
    else if password != confirm then Rejected(PasswordMismatch)
    else Submit(Trim(name), email, password)
  }

  // ---------------------------------------------------------------- properties

  /** Typing more characters never lowers the strength. */
  lemma StrengthMonotone(p: string, q: string)
    ensures PasswordStrength(p) <= PasswordStrength(p + q)
  {
    JsLengthAppend(p, q);
    if HasUpper(p) {
      var i :| 0 <= i < |p| && IsUpper(p[i]);
      assert (p + q)[i] == p[i];
    }
    if HasDigit(p) {
      var i :| 0 <= i < |p| && IsDigit(p[i]);
      assert (p + q)[i] == p[i];
    }
    if HasSymbol(p) {
      var i :| 0 <= i < |p| && !IsAsciiLetterOrDigit(p[i]);
      assert (p + q)[i] == p[i];
    }
  }

  /** A password shorter than 8 is strong enough exactly when it has an upper-case
      letter, a digit and a symbol. */
  lemma ShortPasswordNeedsAllClasses(p: string)
    requires JsLength(p) < 8
    ensures PasswordStrength(p) >= MinStrength <==> HasUpper(p) && HasDigit(p) && HasSymbol(p)
  {
  }

  /** A password of lower-case ASCII letters only is at best "Fraca". */
  lemma LowerCaseOnlyIsWeak(p: string)
    requires forall i :: 0 <= i < |p| ==> 'a' <= p[i] <= 'z'
    ensures PasswordStrength(p) <= 1
  {
  }

  /** The form submits exactly when every check passes; what it submits has a name
      of at least two code units without surrounding white space and an e-mail that
      matches the pattern. */
  lemma SignupAcceptsIff(name: string, email: string, password: string, confirm: string)
    ensures CheckSignup(name, email, password, confirm).Submit? <==>
      JsLength(Trim(name)) >= MinNameLength && MatchesPattern(email) &&
      PasswordStrength(password) >= MinStrength && password == confirm
    ensures var r := CheckSignup(name, email, password, confirm);
      r.Submit? ==> JsLength(r.name) >= 2 && !IsSpace(r.name[0]) && !IsSpace(r.name[|r.name| - 1])
  {
    ValidEmailIffPattern(email);
  }

  /** Each error is reported only when every earlier check passed: a blank name
      hides a bad e-mail, and a weak password hides a mismatch. */
  lemma SignupErrorOrder(name: string, email: string, password: string, confirm: string)
    ensures var r := CheckSignup(name, email, password, confirm);
      (r == Rejected(NameTooShort) <==> JsLength(Trim(name)) < 2) &&
      (r == Rejected(InvalidEmail) <==> JsLength(Trim(name)) >= 2 && !MatchesPattern(email)) &&
      (r == Rejected(WeakPassword) <==>
        JsLength(Trim(name)) >= 2 && MatchesPattern(email) && PasswordStrength(password) < 3) &&
      (r == Rejected(PasswordMismatch) <==>
        JsLength(Trim(name)) >= 2 && MatchesPattern(email) && PasswordStrength(password) >= 3 &&
        password != confirm)
  {
    ValidEmailIffPattern(email);
  }

  /** A name of white space only is always refused. */
  lemma BlankNameRefused(name: string, email: string, password: string, confirm: string)
    requires AllSpace(name)
    ensures CheckSignup(name, email, password, confirm) == Rejected(NameTooShort)
  {
    TrimEmptyIffAllSpace(name);
  }
}
