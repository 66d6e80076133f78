/**
 * The profile screen: the profile and password forms, their ordered checks,
 * the handlers that call the session only once the checks pass, and the rules
 * by which the forms are filled from the user, cleared and restored.
 */
module ProfileScreen {
  import opened Wrappers
  import opened Types
  import opened Text
  import opened Auth
  import opened Session
  import opened Validation

  datatype ProfileForm = ProfileForm(name: string, email: string)

  datatype PasswordForm = PasswordForm(currentPassword: string, newPassword: string, confirmPassword: string)

  const EmptyProfileForm := ProfileForm("", "")
  const EmptyPasswordForm := PasswordForm("", "", "")

  /** New passwords shorter than this are refused. */
  const MinPasswordLength := 6

  datatype ProfileError = NameRequired | EmailRequired | EmailInvalid

  datatype PasswordError = CurrentRequired | NewRequired | NewTooShort | PasswordsDiffer

  function ProfileMessage(e: ProfileError): string {
    match e
    case NameRequired => "Nome é obrigatório"
    case EmailRequired => "Email é obrigatório"
    case EmailInvalid => "Email inválido"
  }

  function PasswordMessage(e: PasswordError): string {
    match e
    case CurrentRequired => "Senha atual é obrigatória"
    case NewRequired => "Nova senha é obrigatória"
    case NewTooShort => "Nova senha deve ter pelo menos 6 caracteres"
    case PasswordsDiffer => "Senhas não coincidem"
  }

  /** The checks of `handleUpdateProfile`: name and email trimmed, the pattern on the email as typed. */
  function ValidateProfile(f: ProfileForm): Option<ProfileError> {
    if Blank(f.name) then Some(NameRequired)
    else if Blank(f.email) then Some(EmailRequired)
    else if !IsEmail(f.email) then Some(EmailInvalid)
    else None
  }

  /** The checks of `handleChangePassword`; no password is trimmed. */
  function ValidatePassword(f: PasswordForm): Option<PasswordError> {
    if f.currentPassword == "" then Some(CurrentRequired)
    else if f.newPassword == "" then Some(NewRequired)
    else if JsLength(f.newPassword) < MinPasswordLength then Some(NewTooShort)
    else if f.newPassword != f.confirmPassword then Some(PasswordsDiffer)
    else None
  }

  /** The profile form as the user's record fills it. */
  function FormOf(u: UserProfile): ProfileForm {
    ProfileForm(u.name, u.email)
  }

  /** The update `handleUpdateProfile` sends: name and email as typed, the picture left as it is. */
  function UpdatesOf(f: ProfileForm): UserUpdates {
    UserUpdates(Some(f.name), Some(f.email), None)
  }

  class ProfileView {
    const session: AuthSession
    var profileForm: ProfileForm
    var passwordForm: PasswordForm
    var isEditingProfile: bool
    var isChangingPassword: bool

    constructor(session: AuthSession)
      ensures this.session == session
      ensures profileForm == EmptyProfileForm && passwordForm == EmptyPasswordForm
      ensures !isEditingProfile && !isChangingPassword
    {
      this.session := session;
      profileForm := EmptyProfileForm;
      passwordForm := EmptyPasswordForm;
      isEditingProfile := false;
      isChangingPassword := false;
    }

    /** The effect run whenever the user changes: the profile form is refilled from a present user. */
    method SyncWithUser()
      modifies this
      ensures session.user.Some? ==> profileForm == FormOf(session.user.value)
      ensures session.user.None? ==> profileForm == old(profileForm)
      ensures passwordForm == old(passwordForm)
      ensures isEditingProfile == old(isEditingProfile) && isChangingPassword == old(isChangingPassword)
    {
      if session.user.Some? {
        profileForm := FormOf(session.user.value);
      }
    }

    /** The edit button toggles the profile editing mode. */
    method ToggleEditing()
      modifies this
      ensures isEditingProfile == !old(isEditingProfile)
      ensures profileForm == old(profileForm) && passwordForm == old(passwordForm) && isChangingPassword == old(isChangingPassword)
    {
      isEditingProfile := !isEditingProfile;
    }

    /**
     * The cancel button of the profile form, shown only while a user is
     * present: editing ends and the form is refilled from the user.
     */
    method CancelEditing()
      requires session.user.Some?
      modifies this
      ensures !isEditingProfile && profileForm == FormOf(session.user.value)
      ensures passwordForm == old(passwordForm) && isChangingPassword == old(isChangingPassword)
    {
      isEditingProfile := false;
      profileForm := FormOf(session.user.value);
    }

    /** The password button toggles the password mode. */
    method ToggleChangingPassword()
      modifies this
      ensures isChangingPassword == !old(isChangingPassword)
      ensures profileForm == old(profileForm) && passwordForm == old(passwordForm) && isEditingProfile == old(isEditingProfile)
    {
      isChangingPassword := !isChangingPassword;
    }

    /** The cancel button of the password form: the mode ends and the three fields are cleared. */
    method CancelPasswordChange()
      modifies this
      ensures !isChangingPassword && passwordForm == EmptyPasswordForm
      ensures profileForm == old(profileForm) && isEditingProfile == old(isEditingProfile)
    {
      isChangingPassword := false;
      passwordForm := EmptyPasswordForm;
    }

    /**
     * `handleUpdateProfile`: a refused form shows its first failure and calls
     * nothing; otherwise the session's `updateUser` gets the name and email as
     * typed, the service rewrites the signed-in user, and a success ends the
     * editing mode; a failure shows the service's message.
     */
    method HandleUpdateProfile(now: nat) returns (fb: Feedback)
      modifies this, session, session.service
      ensures fb.Alert?
      ensures ValidateProfile(old(profileForm)).Some? ==>
        fb == Alert(ErrorTitle, ProfileMessage(ValidateProfile(old(profileForm)).value))
        && unchanged(this) && unchanged(session) && unchanged(session.service)
      ensures fb.title == SuccessTitle ==>
        !isEditingProfile && session.user == session.service.current && session.user.Some?
      ensures fb.title != SuccessTitle ==>
        isEditingProfile == old(isEditingProfile) && session.user == old(session.user)
        && session.service.users == old(session.service.users)
      ensures ValidateProfile(old(profileForm)).None? && old(session.user).None? ==>
        fb == Alert(ErrorTitle, UserNotFoundMessage)
      ensures ValidateProfile(old(profileForm)).None? && old(session.user).Some? ==>
        var users := old(session.service.users);
        var k := FindById(users, old(session.user).value.id);
        if k < 0 then fb == Alert(ErrorTitle, UserNotFoundMessage)
        else if old(profileForm).email != users[k].email
          && EmailUsedByOther(users, old(session.user).value.id, old(profileForm).email)
        then fb == Alert(ErrorTitle, EmailInUseMessage)
        else
          var u := Updated(users[k], UpdatesOf(old(profileForm)), now);
          fb == Alert(SuccessTitle, UpdatedMessage)
          && session.service.users == users[k := u] && session.user == Some(UserToProfile(u))
      ensures profileForm == old(profileForm) && passwordForm == old(passwordForm)
      ensures isChangingPassword == old(isChangingPassword)
    {
      var error := ValidateProfile(profileForm);
      if error.Some? {
        return Alert(ErrorTitle, ProfileMessage(error.value));
      }
      var result := session.UpdateUser(UpdatesOf(profileForm), now);
      if result.success {
        fb := Alert(SuccessTitle, result.message);
        isEditingProfile := false;
      } else {
        fb := Alert(ErrorTitle, result.message);
      }
    }

    /**
     * `handleChangePassword`: a refused form shows its first failure and
     * calls nothing; otherwise the service checks the current password of the
     * signed-in user and stores the new one; a successful change clears the
     * three fields and ends the password mode, a failed one keeps them.
     */
    method HandleChangePassword(now: nat) returns (fb: Feedback)
      modifies this, session.service
      ensures ValidatePassword(old(passwordForm)).Some? ==>
        fb == Alert(ErrorTitle, PasswordMessage(ValidatePassword(old(passwordForm)).value))
        && unchanged(this) && unchanged(session.service)
      ensures fb.Alert? && (fb.title == SuccessTitle ==> !isChangingPassword && passwordForm == EmptyPasswordForm)
      ensures fb.title != SuccessTitle ==>
        passwordForm == old(passwordForm) && isChangingPassword == old(isChangingPassword)
        && session.service.users == old(session.service.users)
      ensures ValidatePassword(old(passwordForm)).None? && session.user.None? ==>
        fb == Alert(ErrorTitle, UserNotFoundMessage)
      ensures ValidatePassword(old(passwordForm)).None? && session.user.Some? ==>
        var users := old(session.service.users);
        var k := FindById(users, session.user.value.id);
        if k < 0 then fb == Alert(ErrorTitle, UserNotFoundMessage)
        else if users[k].password != old(passwordForm).currentPassword then fb == Alert(ErrorTitle, WrongPasswordMessage)
        else
          fb == Alert(SuccessTitle, PasswordChangedMessage)
          && session.service.users == users[k := users[k].(password := old(passwordForm).newPassword, updatedAt := now)]
      ensures profileForm == old(profileForm) && isEditingProfile == old(isEditingProfile)
      ensures session.service.current == old(session.service.current)
    {
      var error := ValidatePassword(passwordForm);
      if error.Some? {
        return Alert(ErrorTitle, PasswordMessage(error.value));
      }
      var result := session.ChangePassword(passwordForm.currentPassword, passwordForm.newPassword, now);
      if result.success {
        fb := Alert(SuccessTitle, result.message);
        isChangingPassword := false;
        passwordForm := EmptyPasswordForm;
      } else {
        fb := Alert(ErrorTitle, result.message);
      }
    }
  }

  // ---------------------------------------------------------------- lemmas

  /** The profile checks run in the order name, email, pattern, and the first failure is reported. */
  lemma ValidateProfileFirstFailure(f: ProfileForm)
    ensures ValidateProfile(f) == FirstFailure([Check(Blank(f.name), NameRequired), Check(Blank(f.email), EmailRequired), Check(!IsEmail(f.email), EmailInvalid)])
  {
    FirstOfThree(Check(Blank(f.name), NameRequired), Check(Blank(f.email), EmailRequired), Check(!IsEmail(f.email), EmailInvalid));
  }

  /** The password checks run in the order current, new, length, confirmation, and the first failure is reported. */
  lemma ValidatePasswordFirstFailure(f: PasswordForm)
    ensures ValidatePassword(f) == FirstFailure([
      Check(f.currentPassword == "", CurrentRequired), Check(f.newPassword == "", NewRequired),
      Check(JsLength(f.newPassword) < MinPasswordLength, NewTooShort), Check(f.newPassword != f.confirmPassword, PasswordsDiffer)])
  {
    FirstOfFour(Check(f.currentPassword == "", CurrentRequired), Check(f.newPassword == "", NewRequired),
      Check(JsLength(f.newPassword) < MinPasswordLength, NewTooShort), Check(f.newPassword != f.confirmPassword, PasswordsDiffer));
  }

  /** A profile form is accepted exactly when it has a name and its email matches the pattern. */
  lemma AcceptedProfile(f: ProfileForm)
    ensures ValidateProfile(f).None? <==> !Blank(f.name) && IsEmail(f.email)
  {
    if IsEmail(f.email) {
      EmailShape(f.email);
    }
  }

  /** A password form is accepted exactly when a current password is given and the new one, of six or more characters, is typed twice alike. */
  lemma AcceptedPassword(f: PasswordForm)
    ensures ValidatePassword(f).None? <==>
      f.currentPassword != "" && JsLength(f.newPassword) >= MinPasswordLength && f.newPassword == f.confirmPassword
  {
  }

  /**
   * What an accepted profile form writes: the name trimmed, the email
   * lower-cased and trimmed, the picture and everything else kept.
   */
  lemma ProfileUpdateStored(u: User, f: ProfileForm, now: nat)
    requires ValidateProfile(f).None?
    ensures Updated(u, UpdatesOf(f), now) == u.(name := Trim(f.name), email := Trim(Lower(f.email)), updatedAt := now)
  {
    assert Trim([]) == [];
  }

  /** The form filled from a user's record passes the checks whenever that record has a name and a well-formed email. */
  lemma UserFormAccepted(u: UserProfile)
    requires !Blank(u.name) && IsEmail(u.email)
    ensures ValidateProfile(FormOf(u)).None?
  {
    EmailShape(u.email);
  }
}
