/**
 * The local user table and the current-user slot. Emails are compared
 * case-insensitively; registration and updates store them lower-cased and
 * trimmed. Passwords are stored and compared in clear. The clock reading that
 * serves as id and timestamp is a parameter.
 */
module Auth {
  import opened Wrappers
  import opened Search
  import opened Text
  import opened Types

  /** What every operation answers: a flag, a message and, on success, the profile. */
  datatype AuthResult = AuthResult(success: bool, message: string, user: Option<UserProfile>)

  /** The identity a Google sign-in hands over. */
  datatype GoogleUser = GoogleUser(name: string, email: string, profileImage: Option<string>)

  /** The fields `updateUser` may change; `None` is a field the update does not carry. */
  datatype UserUpdates = UserUpdates(name: Option<string>, email: Option<string>, profileImage: Option<string>)

  const EmailTakenMessage := "Este email já está cadastrado"
  const RegisteredMessage := "Usuário cadastrado com sucesso!"
  const BadCredentialsMessage := "Email ou senha incorretos"
  const LoggedInMessage := "Login realizado com sucesso!"
  const GoogleLoginMessage := "Login com Google realizado com sucesso!"
  const GoogleCreatedMessage := "Conta criada com Google com sucesso!"
  const UserNotFoundMessage := "Usuário não encontrado"
  const EmailInUseMessage := "Este email já está sendo usado por outro usuário"
  const UpdatedMessage := "Informações atualizadas com sucesso!"
  const WrongPasswordMessage := "Senha atual incorreta"
  const PasswordChangedMessage := "Senha alterada com sucesso!"
  const GooglePasswordPrefix := "google_auth_"

  /** A JavaScript string that is present and non-empty, hence truthy. */
  predicate Truthy(s: Option<string>) {
    s.Some? && s.value != ""
  }

  /** `userToProfile`: the user without its password. */
  function UserToProfile(u: User): (p: UserProfile)
    ensures p.id == u.id && p.name == u.name && p.email == u.email
    ensures p.profileImage == u.profileImage && p.createdAt == u.createdAt && p.updatedAt == u.updatedAt
  {
    UserProfile(u.id, u.name, u.email, u.profileImage, u.createdAt, u.updatedAt)
  }

  function Failure(message: string): AuthResult {
    AuthResult(false, message, None)
  }

  /** `users.find(u => u.email.toLowerCase() === email.toLowerCase())`, as a position or -1. */
  function FindByEmail(users: seq<User>, email: string): (k: int)
    ensures -1 <= k < |users|
    ensures 0 <= k ==> Lower(users[k].email) == Lower(email)
    ensures forall j :: 0 <= j < (if k < 0 then |users| else k) ==> Lower(users[j].email) != Lower(email)
  {
    FindFirst(users, (u: User) => Lower(u.email) == Lower(email))
  }

  /** The credentials test of `login`: lower-cased stored email against the lower-cased, trimmed input, and the exact password. */
  predicate Matches(u: User, email: string, password: string) {
    Lower(u.email) == Trim(Lower(email)) && u.password == password
  }

  /** `users.find(u => ... && u.password === password)` in `login`, as a position or -1. */
  function FindLogin(users: seq<User>, email: string, password: string): (k: int)
    ensures -1 <= k < |users|
    ensures 0 <= k ==> Matches(users[k], email, password)
    ensures forall j :: 0 <= j < (if k < 0 then |users| else k) ==> !Matches(users[j], email, password)
  {
    FindFirst(users, (u: User) => Matches(u, email, password))
  }

  /** `users.findIndex(u => u.id === userId)`. */
  function FindById(users: seq<User>, id: string): (k: int)
    ensures -1 <= k < |users|
    ensures 0 <= k ==> users[k].id == id
    ensures forall j :: 0 <= j < (if k < 0 then |users| else k) ==> users[j].id != id
  {
    FindFirst(users, (u: User) => u.id == id)
  }

  /** `users.some(u => u.id !== userId && u.email.toLowerCase() === email.toLowerCase())`. */
  predicate EmailUsedByOther(users: seq<User>, id: string, email: string) {
    exists i :: 0 <= i < |users| && users[i].id != id && Lower(users[i].email) == Lower(email)
  }

  /** The account `register` creates at clock reading `now`. */
  function NewUser(name: string, email: string, password: string, now: nat): User {
    User(NatToString(now), Trim(name), Trim(Lower(email)), password, None, now, now)
  }

  /** The account a first Google sign-in creates: the name as given, the email lower-cased but not trimmed. */
  function NewGoogleUser(g: GoogleUser, now: nat): User {
    User(NatToString(now), g.name, Lower(g.email), GooglePasswordPrefix + NatToString(now), g.profileImage, now, now)
  }

  /** A returning Google user: a new non-empty picture replaces the old one. */
  function GoogleRefresh(u: User, g: GoogleUser, now: nat): User {
    u.(profileImage := if Truthy(g.profileImage) then g.profileImage else u.profileImage, updatedAt := now)
  }

  /** `users.map(u => u.id === updated.id ? updated : u)`. */
  function ReplaceUser(users: seq<User>, updated: User): (r: seq<User>)
    ensures |r| == |users|
    ensures forall i :: 0 <= i < |users| ==> r[i] == if users[i].id == updated.id then updated else users[i]
  {
    seq(|users|, i requires 0 <= i < |users| => if users[i].id == updated.id then updated else users[i])
  }

  /** The record `updateUser` writes back: given fields trimmed (and the email lower-cased), the rest kept. */
  function Updated(u: User, updates: UserUpdates, now: nat): User {
    u.(
      name := if Truthy(updates.name) then Trim(updates.name.value) else u.name,
      email := if Truthy(updates.email) then Trim(Lower(updates.email.value)) else u.email,
      profileImage := if updates.profileImage.Some? then updates.profileImage else u.profileImage,
      updatedAt := now)
  }

  /** No two users share an id. */
  predicate UniqueIds(users: seq<User>) {
    forall i, j :: 0 <= i < j < |users| ==> users[i].id != users[j].id
  }

  /** No two users share an email, case aside. */
  predicate UniqueEmails(users: seq<User>) {
    forall i, j :: 0 <= i < j < |users| ==> Lower(users[i].email) != Lower(users[j].email)
  }

  class AuthService {
    /** The content of the users key. */
    var users: seq<User>
    /** The content of the current-user key. */
    var current: Option<UserProfile>

    constructor()
      ensures users == [] && current == None
    {
      users := [];
      current := None;
    }

    /** `register`: refuses an email some user already has, case aside; otherwise appends the account and signs it in. */
    method Register(name: string, email: string, password: string, now: nat) returns (r: AuthResult)
      modifies this
      ensures FindByEmail(old(users), email) >= 0 ==>
        r == Failure(EmailTakenMessage) && users == old(users) && current == old(current)
      ensures FindByEmail(old(users), email) < 0 ==>
        users == old(users) + [NewUser(name, email, password, now)]
        && current == Some(UserToProfile(NewUser(name, email, password, now)))
        && r == AuthResult(true, RegisteredMessage, current)
    {
      var existing := FindByEmail(users, email);
      if existing >= 0 {
        return Failure(EmailTakenMessage);
      }
      var newUser := NewUser(name, email, password, now);
      users := users + [newUser];
      var profile := UserToProfile(newUser);
      current := Some(profile);
      r := AuthResult(true, RegisteredMessage, Some(profile));
    }

    /** `login`: signs in the first user whose email and password match. */
    method Login(email: string, password: string) returns (r: AuthResult)
      modifies this
      ensures users == old(users)
      ensures r.success <==> exists i :: 0 <= i < |users| && Matches(users[i], email, password)
      ensures !r.success ==> r == Failure(BadCredentialsMessage) && current == old(current)
      ensures r.success ==> (r.message == LoggedInMessage && r.user == current
        && current == Some(UserToProfile(users[FindLogin(users, email, password)])))
    {
      var k := FindLogin(users, email, password);
      if k < 0 {
        return Failure(BadCredentialsMessage);
      }
      var profile := UserToProfile(users[k]);
      current := Some(profile);
      r := AuthResult(true, LoggedInMessage, Some(profile));
    }

    /** `loginWithGoogle`: refreshes and signs in the user with that email, or creates the account. */
    method LoginWithGoogle(g: GoogleUser, now: nat) returns (r: AuthResult)
      modifies this
      ensures r.success && r.user == current
      ensures FindByEmail(old(users), g.email) >= 0 ==>
        var u := GoogleRefresh(old(users)[FindByEmail(old(users), g.email)], g, now);
        users == ReplaceUser(old(users), u) && current == Some(UserToProfile(u)) && r.message == GoogleLoginMessage
      ensures FindByEmail(old(users), g.email) < 0 ==>
        users == old(users) + [NewGoogleUser(g, now)]
        && current == Some(UserToProfile(NewGoogleUser(g, now))) && r.message == GoogleCreatedMessage
    {
      var k := FindByEmail(users, g.email);
      if k >= 0 {
        var u := GoogleRefresh(users[k], g, now);
        users := ReplaceUser(users, u);
        var profile := UserToProfile(u);
        current := Some(profile);
        r := AuthResult(true, GoogleLoginMessage, Some(profile));
      } else {
        var u := NewGoogleUser(g, now);
        users := users + [u];
        var profile := UserToProfile(u);
        current := Some(profile);
        r := AuthResult(true, GoogleCreatedMessage, Some(profile));
      }
    }

    /** `logout`. */
    method Logout()
      modifies this
      ensures users == old(users) && current == None
    {
      current := None;
    }

    /** `getCurrentUser`. */
    method GetCurrentUser() returns (p: Option<UserProfile>)
      ensures p == current
    {
      p := current;
    }

    /** `isLoggedIn`. */
    method IsLoggedIn() returns (b: bool)
      ensures b <==> current.Some?
    {
      var p := GetCurrentUser();
      b := p.Some?;
    }

    /**
     * `updateUser`: fails for an unknown id; refuses a changed email another
     * user has, case aside; otherwise rewrites that user in place and makes it
     * the current user.
     */
    method UpdateUser(userId: string, updates: UserUpdates, now: nat) returns (r: AuthResult)
      modifies this
      ensures FindById(old(users), userId) < 0 ==>
        r == Failure(UserNotFoundMessage) && users == old(users) && current == old(current)
      ensures FindById(old(users), userId) >= 0 ==>
        var k := FindById(old(users), userId);
        if Truthy(updates.email) && updates.email.value != old(users)[k].email
          && EmailUsedByOther(old(users), userId, updates.email.value)
        then r == Failure(EmailInUseMessage) && users == old(users) && current == old(current)
        else
          var u := Updated(old(users)[k], updates, now);
          users == old(users)[k := u] && current == Some(UserToProfile(u))
          && r == AuthResult(true, UpdatedMessage, current)
    {
      var k := FindById(users, userId);
      if k < 0 {
        return Failure(UserNotFoundMessage);
      }
      if Truthy(updates.email) && updates.email.value != users[k].email {
        var emailExists := exists i :: 0 <= i < |users| && users[i].id != userId && Lower(users[i].email) == Lower(updates.email.value);
        if emailExists {
          return Failure(EmailInUseMessage);
        }
      }
      var u := Updated(users[k], updates, now);
      users := users[k := u];
      var profile := UserToProfile(u);
      current := Some(profile);
      r := AuthResult(true, UpdatedMessage, Some(profile));
    }

    /** `changePassword`: with the right current password, only that user's password and `updatedAt` change. */
    method ChangePassword(userId: string, currentPassword: string, newPassword: string, now: nat) returns (r: AuthResult)
      modifies this
      ensures current == old(current) && r.user == None
      ensures FindById(old(users), userId) < 0 ==> r == Failure(UserNotFoundMessage) && users == old(users)
      ensures FindById(old(users), userId) >= 0 ==>
        var k := FindById(old(users), userId);
        if old(users)[k].password != currentPassword
        then r == Failure(WrongPasswordMessage) && users == old(users)
        else (users == old(users)[k := old(users)[k].(password := newPassword, updatedAt := now)]
          && r == AuthResult(true, PasswordChangedMessage, None))
    {
      var k := FindById(users, userId);
      if k < 0 {
        return Failure(UserNotFoundMessage);
      }
      if users[k].password != currentPassword {
        return Failure(WrongPasswordMessage);
      }
      users := users[k := users[k].(password := newPassword, updatedAt := now)];
      r := AuthResult(true, PasswordChangedMessage, None);
    }

    /** `clearAllUsers`. */
    method ClearAllUsers()
      modifies this
      ensures users == [] && current == None
    {
      users := [];
      current := None;
    }
  }

  // ---------------------------------------------------------------- lemmas

  /** Two users that differ only in their password have the same profile. */
  lemma ProfileHidesPassword(u: User, password: string)
    ensures UserToProfile(u.(password := password)) == UserToProfile(u)
  {
  }

  /** The email a registration stores, compared case-insensitively, is the input when the input has no surrounding white space. */
  lemma StoredEmailKey(email: string)
    requires Trim(email) == email
    ensures Lower(Trim(Lower(email))) == Lower(email)
  {
    LowerTrimCommute(email);
    LowerIdempotent(email);
  }

  /** Appending a user whose email no one has, case aside, keeps emails unique. */
  lemma AppendUnique(users: seq<User>, u: User)
    requires UniqueEmails(users)
    requires forall j :: 0 <= j < |users| ==> Lower(users[j].email) != Lower(u.email)
    ensures UniqueEmails(users + [u])
  {
  }

  /** A registration of an email without surrounding white space keeps emails unique. */
  lemma RegisterKeepsUnique(users: seq<User>, name: string, email: string, password: string, now: nat)
    requires UniqueEmails(users) && FindByEmail(users, email) < 0
    requires Trim(email) == email
    ensures UniqueEmails(users + [NewUser(name, email, password, now)])
  {
    StoredEmailKey(email);
    AppendUnique(users, NewUser(name, email, password, now));
  }

  /**
   * The duplicate check compares the untrimmed input while the trimmed email
   * is stored: registering an existing lower-case email with a leading space
   * passes the check and stores a second user with that same email.
   */
  lemma RegisterPaddedDuplicate(users: seq<User>, k: nat, name: string, password: string, now: nat)
    requires k < |users|
    requires Lower(users[k].email) == users[k].email && Trim(users[k].email) == users[k].email
    requires FindByEmail(users, " " + users[k].email) < 0
    ensures NewUser(name, " " + users[k].email, password, now).email == users[k].email
    ensures !UniqueEmails(users + [NewUser(name, " " + users[k].email, password, now)])
  {
    var e := users[k].email;
    PaddedKey(e);
    var all := users + [NewUser(name, " " + e, password, now)];
    assert all[k] == users[k] && all[|users|].email == e;
  }

  /** A trimmed string with one space in front lower-cases with the space kept and trims back to itself. */
  lemma PaddedKey(e: string)
    requires Trim(e) == e
    ensures Lower(" " + e) == " " + Lower(e)
    ensures Trim(Lower(" " + e)) == Lower(e)
  {
    var p := " " + Lower(e);
    assert p[1..] == Lower(e);
    LowerTrimCommute(e);
    assert TrimStart(e) == e;
    LowerTrimStartCommute(e);
    assert TrimStart(p) == TrimStart(Lower(e));
  }

  /** A trimmed email never equals, case aside, one that starts with a space. */
  lemma PaddedDiffers(m: string, e: string)
    requires Trim(m) == m
    ensures Lower(m) != Lower(" " + e)
  {
    assert Lower(" " + e)[0] == ' ';
    if m != [] {
      assert TrimStart(m) == m;
      assert Lower(m)[0] == LowerChar(m[0]);
    }
  }

  /** When every stored email is trimmed, the check lets any email with a leading space through. */
  lemma PaddedEmailPassesCheck(users: seq<User>, e: string)
    requires forall j :: 0 <= j < |users| ==> Trim(users[j].email) == users[j].email
    ensures FindByEmail(users, " " + e) < 0
  {
    forall j | 0 <= j < |users| ensures Lower(users[j].email) != Lower(" " + e) {
      PaddedDiffers(users[j].email, e);
    }
  }

  /** A first Google sign-in stores the lower-cased email it checked, so emails stay unique with no condition on the input. */
  lemma GoogleKeepsUnique(users: seq<User>, g: GoogleUser, now: nat)
    requires UniqueEmails(users) && FindByEmail(users, g.email) < 0
    ensures UniqueEmails(users + [NewGoogleUser(g, now)])
  {
    LowerIdempotent(g.email);
    AppendUnique(users, NewGoogleUser(g, now));
  }

  /** Refreshing a returning Google user never touches an email. */
  lemma GoogleRefreshKeepsUnique(users: seq<User>, u: User, g: GoogleUser, now: nat)
    requires UniqueEmails(users) && UniqueIds(users) && u in users
    ensures UniqueEmails(ReplaceUser(users, GoogleRefresh(u, g, now)))
  {
    var r := ReplaceUser(users, GoogleRefresh(u, g, now));
    var m :| 0 <= m < |users| && users[m] == u;
    forall i | 0 <= i < |users| ensures r[i].email == users[i].email {
      if users[i].id == u.id {
        assert i == m;
      }
    }
  }

  /**
   * An update keeps emails unique when a new email has no surrounding white
   * space and no other user shares the id: the check rejects an email another
   * user has, and an unchanged email stays its user's own.
   */
  lemma UpdateKeepsUnique(users: seq<User>, k: nat, updates: UserUpdates, now: nat)
    requires UniqueEmails(users) && UniqueIds(users) && k < |users|
    requires Truthy(updates.email) ==> Trim(updates.email.value) == updates.email.value
    requires Truthy(updates.email) && updates.email.value != users[k].email ==>
      !EmailUsedByOther(users, users[k].id, updates.email.value)
    ensures UniqueEmails(users[k := Updated(users[k], updates, now)])
  {
    var u := Updated(users[k], updates, now);
    if Truthy(updates.email) {
      var e := updates.email.value;
      StoredEmailKey(e);
      assert Lower(u.email) == Lower(e);
      forall j | 0 <= j < |users| && j != k ensures Lower(users[j].email) != Lower(e) {
        if e == users[k].email {
        } else {
          assert users[j].id != users[k].id;
        }
      }
    }
  }

  /** A password change never touches an email. */
  lemma ChangePasswordKeepsUnique(users: seq<User>, k: nat, password: string, now: nat)
    requires UniqueEmails(users) && k < |users|
    ensures UniqueEmails(users[k := users[k].(password := password, updatedAt := now)])
  {
  }
}
