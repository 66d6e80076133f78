/** The login screen: the two checks `handleLogin` runs before asking the session to log in. */
module LoginScreen {
  import opened Wrappers
  import opened Text
  import opened Auth
  import opened Session
  import opened Validation

  datatype LoginError = EmailRequired | PasswordRequired

  function Message(e: LoginError): string {
    match e
    case EmailRequired => "Email é obrigatório"
    case PasswordRequired => "Senha é obrigatória"
  }

  /** The checks of `handleLogin`: the email trimmed, the password as typed; the email's format is not checked. */
  function ValidateLogin(email: string, password: string): Option<LoginError> {
    if Blank(email) then Some(EmailRequired)
    else if password == "" then Some(PasswordRequired)
    else None
  }

  /**
   * `handleLogin`: a refused form shows its first failure and leaves the
   * session alone; otherwise the screen goes to the main tabs exactly when
   * some user matches the credentials, and shows the service's message when
   * none does.
   */
  method HandleLogin(session: AuthSession, email: string, password: string) returns (fb: Feedback)
    modifies session, session.service
    ensures ValidateLogin(email, password).Some? ==>
      fb == Alert(ErrorTitle, Message(ValidateLogin(email, password).value))
      && unchanged(session) && unchanged(session.service)
    ensures ValidateLogin(email, password).None? ==>
      (fb.Navigate? <==> FindLogin(old(session.service.users), email, password) >= 0)
    ensures ValidateLogin(email, password).None? && fb.Navigate? ==>
      fb.next == MainTabs && session.user == session.service.current && session.isAuthenticated
      && session.user == Some(UserToProfile(old(session.service.users)[FindLogin(old(session.service.users), email, password)]))
    ensures ValidateLogin(email, password).None? && !fb.Navigate? ==>
      fb == Alert(ErrorTitle, BadCredentialsMessage) && session.user == old(session.user)
      && session.service.current == old(session.service.current)
    ensures session.service.users == old(session.service.users)
    ensures old(session.Coherent()) ==> session.Coherent()
  {
    var error := ValidateLogin(email, password);
    if error.Some? {
      return Alert(ErrorTitle, Message(error.value));
    }
    var result := session.Login(email, password);
    if result.success {
      fb := Navigate(MainTabs);
    } else {
      fb := Alert(ErrorTitle, result.message);
    }
  }

  // ---------------------------------------------------------------- lemmas

  /** The email is checked before the password, and the two checks are all there is. */
  lemma ValidateLoginFirstFailure(email: string, password: string)
    ensures ValidateLogin(email, password) == FirstFailure([Check(Blank(email), EmailRequired), Check(password == "", PasswordRequired)])
  {
    FirstOfTwo(Check(Blank(email), EmailRequired), Check(password == "", PasswordRequired));
  }

  /** The form is accepted exactly when the email holds a character other than white space and the password is not empty; a password of spaces passes. */
  lemma AcceptedLogin(email: string, password: string)
    ensures ValidateLogin(email, password).None? <==>
      (exists i :: 0 <= i < |email| && !IsWhite(email[i])) && password != ""
  {
    BlankIsWhite(email);
  }
}
