/**
 * The authentication hook: the signed-in profile, a loading flag and an
 * authenticated flag, driven by the answers of the user service. The two
 * flags `user` and `isAuthenticated` always agree.
 */
module Session {
  import opened Wrappers
  import opened Types
  import opened Auth

  class AuthSession {
    const service: AuthService
    var user: Option<UserProfile>
    var isLoading: bool
    var isAuthenticated: bool

    /** `isAuthenticated` is true exactly when a profile is held. */
    predicate Coherent()
      reads this
    {
      isAuthenticated <==> user.Some?
    }

    constructor(service: AuthService)
      ensures this.service == service
      ensures user == None && isLoading && !isAuthenticated && Coherent()
    {
      this.service := service;
      user := None;
      isLoading := true;
      isAuthenticated := false;
    }

    /** `checkAuthStatus`: adopts the stored current user; loading is over afterwards. */
    method CheckAuthStatus()
      modifies this
      ensures user == service.current && Coherent() && !isLoading
    {
      isLoading := true;
      var currentUser := service.GetCurrentUser();
      user := currentUser;
      isAuthenticated := currentUser.Some?;
      isLoading := false;
    }

    /**
     * `login`: the service's answer is passed on; the session adopts the
     * profile of the first matching user, and a failure leaves everything as
     * it was.
     */
    method Login(email: string, password: string) returns (result: AuthResult)
      modifies this, service
      ensures service.users == old(service.users) && isLoading == old(isLoading)
      ensures result.success <==> FindLogin(old(service.users), email, password) >= 0
      ensures !result.success ==>
        result == Failure(BadCredentialsMessage) && service.current == old(service.current)
        && user == old(user) && isAuthenticated == old(isAuthenticated)
      ensures result.success ==>
        user == service.current == result.user
        && user == Some(UserToProfile(old(service.users)[FindLogin(old(service.users), email, password)]))
        && result.message == LoggedInMessage && isAuthenticated
      ensures old(Coherent()) ==> Coherent()
    {
      result := service.Login(email, password);
      if result.success && result.user.Some? {
        user := result.user;
        isAuthenticated := true;
      }
    }

    /**
     * `loginWithGoogle`: the service always answers with a profile, so the
     * session always adopts it: a known email, case aside, refreshes that
     * user, an unknown one appends a new account.
     */
    method LoginWithGoogle(g: GoogleUser, now: nat) returns (result: AuthResult)
      modifies this, service
      ensures result.success && user == service.current == result.user && isAuthenticated
      ensures isLoading == old(isLoading) && Coherent()
      ensures FindByEmail(old(service.users), g.email) >= 0 ==>
        var u := GoogleRefresh(old(service.users)[FindByEmail(old(service.users), g.email)], g, now);
        service.users == ReplaceUser(old(service.users), u) && user == Some(UserToProfile(u))
        && result.message == GoogleLoginMessage
      ensures FindByEmail(old(service.users), g.email) < 0 ==>
        service.users == old(service.users) + [NewGoogleUser(g, now)]
        && user == Some(UserToProfile(NewGoogleUser(g, now))) && result.message == GoogleCreatedMessage
    {
      result := service.LoginWithGoogle(g, now);
      if result.success && result.user.Some? {
        user := result.user;
        isAuthenticated := true;
      }
    }

    /**
     * `register`: a taken email, case aside, fails and changes nothing;
     * otherwise one account is appended and the session holds its profile.
     */
    method Register(name: string, email: string, password: string, now: nat) returns (result: AuthResult)
      modifies this, service
      ensures isLoading == old(isLoading)
      ensures result.success <==> FindByEmail(old(service.users), email) < 0
      ensures !result.success ==>
        result == Failure(EmailTakenMessage) && service.users == old(service.users)
        && service.current == old(service.current)
        && user == old(user) && isAuthenticated == old(isAuthenticated)
      ensures result.success ==>
        service.users == old(service.users) + [NewUser(name, email, password, now)]
        && user == service.current == result.user
        && user == Some(UserToProfile(NewUser(name, email, password, now)))
        && result.message == RegisteredMessage && isAuthenticated
      ensures old(Coherent()) ==> Coherent()
    {
      result := service.Register(name, email, password, now);
      if result.success && result.user.Some? {
        user := result.user;
        isAuthenticated := true;
      }
    }

    /** `logout`. */
    method Logout()
      modifies this, service
      ensures user == None && !isAuthenticated && service.current == None
      ensures service.users == old(service.users) && isLoading == old(isLoading)
    {
      service.Logout();
      user := None;
      isAuthenticated := false;
    }

    /**
     * `updateUser`: with no profile it fails without asking the service;
     * otherwise the service rewrites the user with the profile's id, and the
     * session adopts the rewritten profile. `isAuthenticated` is never touched.
     */
    method UpdateUser(updates: UserUpdates, now: nat) returns (result: AuthResult)
      modifies this, service
      ensures isAuthenticated == old(isAuthenticated) && isLoading == old(isLoading)
      ensures old(Coherent()) ==> Coherent()
      ensures !result.success ==>
        service.users == old(service.users) && service.current == old(service.current) && user == old(user)
      ensures old(user).None? ==> result == Failure(UserNotFoundMessage)
      ensures old(user).Some? ==>
        var k := FindById(old(service.users), old(user).value.id);
        if k < 0 then result == Failure(UserNotFoundMessage)
        else if Truthy(updates.email) && updates.email.value != old(service.users)[k].email
          && EmailUsedByOther(old(service.users), old(user).value.id, updates.email.value)
        then result == Failure(EmailInUseMessage)
        else
          var u := Updated(old(service.users)[k], updates, now);
          service.users == old(service.users)[k := u]
          && user == service.current == result.user == Some(UserToProfile(u))
          && result == AuthResult(true, UpdatedMessage, user)
    {
      if user.None? {
        return Failure(UserNotFoundMessage);
      }
      result := service.UpdateUser(user.value.id, updates, now);
      if result.success && result.user.Some? {
        user := result.user;
      }
    }

    /**
     * `changePassword`: never changes the session; with no profile it fails
     * without asking the service; otherwise the service checks the current
     * password of the user with the profile's id and stores the new one.
     */
    method ChangePassword(currentPassword: string, newPassword: string, now: nat) returns (result: AuthResult)
      modifies service
      ensures service.current == old(service.current)
      ensures !result.success ==> service.users == old(service.users)
      ensures old(user).None? ==> result == Failure(UserNotFoundMessage)
      ensures old(user).Some? ==>
        var k := FindById(old(service.users), old(user).value.id);
        if k < 0 then result == Failure(UserNotFoundMessage)
        else if old(service.users)[k].password != currentPassword then result == Failure(WrongPasswordMessage)
        else
          service.users == old(service.users)[k := old(service.users)[k].(password := newPassword, updatedAt := now)]
          && result == AuthResult(true, PasswordChangedMessage, None)
    {
      if user.None? {
        return Failure(UserNotFoundMessage);
      }
      result := service.ChangePassword(user.value.id, currentPassword, newPassword, now);
    }
  }
}
