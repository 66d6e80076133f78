/**
 * The registration screen: the ordered checks of its `validateForm` and the
 * handler that asks the session to register only once every check passes.
 */
module RegisterScreen {
  import opened Wrappers
  import opened Text
  import opened Auth
  import opened Session
  import opened Validation

  datatype RegisterForm = RegisterForm(name: string, email: string, password: string, confirmPassword: string)

  const EmptyForm := RegisterForm("", "", "", "")

  /** Passwords shorter than this are refused. */
  const MinPasswordLength := 6

  /** The reasons `validateForm` refuses the form. */
  datatype RegisterError = NameRequired | EmailRequired | EmailInvalid | PasswordRequired | PasswordTooShort | PasswordsDiffer

  function Message(e: RegisterError): string {
    match e
    case NameRequired => "Nome é obrigatório"
    case EmailRequired => "Email é obrigatório"
    case EmailInvalid => "Email inválido"
    case PasswordRequired => "Senha é obrigatória"
    case PasswordTooShort => "Senha deve ter pelo menos 6 caracteres"
    case PasswordsDiffer => "Senhas não coincidem"
  }

  /**
   * `validateForm`: name and email are checked trimmed, the email pattern is
   * tested on the text as typed, and the password is never trimmed.
   */
  function ValidateForm(f: RegisterForm): Option<RegisterError> {
    if Blank(f.name) then Some(NameRequired)
    else if Blank(f.email) then Some(EmailRequired)
    else if !IsEmail(f.email) then Some(EmailInvalid)
    else if f.password == "" then Some(PasswordRequired)
    else if JsLength(f.password) < MinPasswordLength then Some(PasswordTooShort)
    else if f.password != f.confirmPassword then Some(PasswordsDiffer)
    else None
  }

  /** The checks of `validateForm`, in the order they run. */
  function FormChecks(f: RegisterForm): seq<Check<RegisterError>> {
    [Check(Blank(f.name), NameRequired),
     Check(Blank(f.email), EmailRequired),
     Check(!IsEmail(f.email), EmailInvalid),
     Check(f.password == "", PasswordRequired),
     Check(JsLength(f.password) < MinPasswordLength, PasswordTooShort),
     Check(f.password != f.confirmPassword, PasswordsDiffer)]
  }

  /**
   * `handleRegister`: a refused form shows its first failure and leaves the
   * session and the user table alone; otherwise the session registers, and
   * the screen announces success and goes on to the main tabs exactly when
   * the email is not taken, case aside.
   */
  method HandleRegister(session: AuthSession, f: RegisterForm, now: nat) returns (fb: Feedback)
    modifies session, session.service
    ensures ValidateForm(f).Some? ==>
      fb == Alert(ErrorTitle, Message(ValidateForm(f).value))
      && unchanged(session) && unchanged(session.service)
    ensures ValidateForm(f).None? ==>
      (fb.AlertThen? <==> FindByEmail(old(session.service.users), f.email) < 0)
    ensures ValidateForm(f).None? && fb.AlertThen? ==>
      fb == AlertThen(SuccessTitle, RegisteredMessage, MainTabs)
      && session.service.users == old(session.service.users) + [NewUser(f.name, f.email, f.password, now)]
      && session.user == session.service.current == Some(UserToProfile(NewUser(f.name, f.email, f.password, now)))
      && session.isAuthenticated
    ensures ValidateForm(f).None? && !fb.AlertThen? ==>
      fb == Alert(ErrorTitle, EmailTakenMessage) && session.service.users == old(session.service.users)
      && session.user == old(session.user) && session.isAuthenticated == old(session.isAuthenticated)
    ensures old(session.Coherent()) ==> session.Coherent()
  {
    var error := ValidateForm(f);
    if error.Some? {
      return Alert(ErrorTitle, Message(error.value));
    }
    var result := session.Register(f.name, f.email, f.password, now);
    if result.success {
      fb := AlertThen(SuccessTitle, result.message, MainTabs);
    } else {
      fb := Alert(ErrorTitle, result.message);
    }
  }

  // ---------------------------------------------------------------- lemmas

  /** `validateForm` reports the first failing check, in the order name, email, pattern, password, length, confirmation. */
  lemma ValidateFormFirstFailure(f: RegisterForm)
    ensures ValidateForm(f) == FirstFailure(FormChecks(f))
  {
    var cs := FormChecks(f);
    assert cs == [cs[0], cs[1], cs[2]] + [cs[3], cs[4], cs[5]];
    FirstFailureAppend([cs[0], cs[1], cs[2]], [cs[3], cs[4], cs[5]]);
    FirstOfThree(cs[0], cs[1], cs[2]);
    FirstOfThree(cs[3], cs[4], cs[5]);
  }

  /** A form is accepted exactly when it has a name, an email matching the pattern, and a password of six or more characters typed twice alike. */
  lemma AcceptedForm(f: RegisterForm)
    ensures ValidateForm(f).None? <==>
      !Blank(f.name) && IsEmail(f.email) && JsLength(f.password) >= MinPasswordLength && f.password == f.confirmPassword
  {
    if IsEmail(f.email) {
      EmailShape(f.email);
    }
  }

  /** An email typed with a leading or trailing space passes the blank check but fails the pattern. */
  lemma PaddedEmailRefused(f: RegisterForm)
    requires !Blank(f.name) && !Blank(f.email)
    requires IsWhite(f.email[0]) || IsWhite(f.email[|f.email| - 1])
    ensures ValidateForm(f) == Some(EmailInvalid)
  {
    PaddedEmailRejected(f.email);
  }

  /** The password is not trimmed: six spaces, typed twice, are accepted. */
  lemma BlankPasswordAccepted(name: string, email: string)
    requires !Blank(name) && IsEmail(email)
    ensures ValidateForm(RegisterForm(name, email, "      ", "      ")).None?
  {
    EmailShape(email);
  }

  /**
   * The length check counts UTF-16 code units: three characters outside the
   * Basic Multilingual Plane (three emoji, say), typed twice, are accepted.
   */
  lemma AstralPasswordAccepted(name: string, email: string, password: string)
    requires !Blank(name) && IsEmail(email)
    requires |password| == 3 && forall i :: 0 <= i < |password| ==> password[i] as int > 0xFFFF
    ensures ValidateForm(RegisterForm(name, email, password, password)).None?
  {
    EmailShape(email);
    JsLengthAstral(password);
  }
}
