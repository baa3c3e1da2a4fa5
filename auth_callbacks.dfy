/**
 * The next-auth callbacks of `lib/auth.ts`: `signIn` mirrors a Google user
 * into the `users` collection, `session` annotates the session with the
 * stored user's id and profile completeness, and `jwt` copies the OAuth
 * access token.
 */
module AuthCallbacks {
  import opened Common
  import opened Database

  /** What the provider reports about the signing-in user. */
  datatype SignInUser = SignInUser(email: string, name: string, image: Option<string>)

  /** The provider account: `provider`, `providerAccountId` and `access_token`. */
  datatype Account = Account(provider: string, providerAccountId: string, accessToken: Option<string>)

  /**
   * `signIn`: the verdict and the new state. `storeFault` says whether the
   * store's lookup or insert throws, in which case nothing is written.
   */
  function SignInSpec(db: Db, user: SignInUser, account: Option<Account>, storeFault: bool): (bool, Db)
  {
    if account.Some? && account.value.provider == "google" then
      if storeFault then (false, db)
      else if UserByEmail(db.users, user.email).None? then
        (true, CreateUserSpec(db, NewUser(account.value.providerAccountId, user.email, user.name, user.image)).1)
      else (true, db)
    else (true, db)
  }

  /**
   * A Google sign-in adds a user record exactly when none has that email, and
   * afterwards one has; a store error refuses the sign-in and writes nothing.
   */
  lemma SignInCreatesOnlyWhenAbsent(db: Db, user: SignInUser, account: Account)
    requires WellFormed(db) && InStep(db) && account.provider == "google"
    ensures var (ok, db') := SignInSpec(db, user, Some(account), false);
      ok && UserByEmail(db'.users, user.email).Some?
      && (UserByEmail(db.users, user.email).Some? ==> db' == db)
      && (UserByEmail(db.users, user.email).None? ==>
            |db'.users| == |db.users| + 1 && db'.users[..|db.users|] == db.users
            && db'.users[|db.users|].email == user.email
            && db'.users[|db.users|].googleId == account.providerAccountId
            && db'.users[|db.users|].registeredEvents == [])
      && WellFormed(db') && InStep(db')
    ensures SignInSpec(db, user, Some(account), true) == (false, db)
  {
    var (ok, db') := SignInSpec(db, user, Some(account), false);
    if UserByEmail(db.users, user.email).None? {
      var nu := NewUser(account.providerAccountId, user.email, user.name, user.image);
      CreateUserProperties(db, nu);
      assert db'.users[|db.users|].email == user.email;
    }
  }

  /** A sign-in through any other provider is allowed and never touches the store. */
  lemma OtherProvidersUntouched(db: Db, user: SignInUser, account: Option<Account>, storeFault: bool)
    requires account.None? || account.value.provider != "google"
    ensures SignInSpec(db, user, account, storeFault) == (true, db)
  {
  }

  /** `!!(user.phoneNumber && user.collegeName)` */
  predicate IsRegistered(user: User)
  {
    Truthy(user.phoneNumber) && Truthy(user.collegeName)
  }

  /** The fields of `session.user` the callback reads and writes. */
  datatype SessionUser = SessionUser(email: Option<string>, id: Option<nat>, isRegistered: Option<bool>)

  /** `session`: annotate the session of a known user; otherwise return it unchanged. */
  function SessionCallback(users: seq<User>, s: SessionUser): (r: SessionUser)
    ensures r.email == s.email
    ensures !Truthy(s.email) || UserByEmail(users, s.email.value).None? ==> r == s
    ensures Truthy(s.email) && UserByEmail(users, s.email.value).Some? ==>
      var u := UserByEmail(users, s.email.value).value;
      r.id == Some(u.id) && (r.isRegistered == Some(true) <==> Truthy(u.phoneNumber) && Truthy(u.collegeName))
      && r.isRegistered.Some?
  {
    if Truthy(s.email) then
      match UserByEmail(users, s.email.value)
      case None => s
      case Some(u) => s.(id := Some(u.id), isRegistered := Some(IsRegistered(u)))
    else s
  }

  /** The JWT fields the callback writes. */
  datatype JwtToken = JwtToken(subject: Option<string>, accessToken: Option<string>)

  /** `jwt`: the access token is copied only when an account is present. */
  function JwtCallback(token: JwtToken, account: Option<Account>): (r: JwtToken)
    ensures r.subject == token.subject
    ensures account.None? ==> r == token
    ensures account.Some? ==> r.accessToken == account.value.accessToken
  {
    if account.Some? then token.(accessToken := account.value.accessToken) else token
  }

  /** A user created by a first Google sign-in is not yet registered: the session says so. */
  lemma NewUserNotRegistered(db: Db, user: SignInUser, account: Account, s: SessionUser)
    requires WellFormed(db) && InStep(db) && account.provider == "google"
    requires UserByEmail(db.users, user.email).None?
    requires s.email == Some(user.email) && user.email != ""
    ensures SessionCallback(SignInSpec(db, user, Some(account), false).1.users, s).isRegistered == Some(false)
  {
    var db' := SignInSpec(db, user, Some(account), false).1;
    var nu := NewUser(account.providerAccountId, user.email, user.name, user.image);
    CreateUserProperties(db, nu);
    UserByEmailAppend(db.users, db'.users[|db.users|], user.email);
    assert db'.users == db.users + [db'.users[|db.users|]];
  }

  /** A lookup in a longer list finds the appended user when no earlier user has the email. */
  lemma {:induction false} UserByEmailAppend(users: seq<User>, u: User, email: string)
    requires UserByEmail(users, email).None? && u.email == email
    ensures UserByEmail(users + [u], email) == Some(u)
  {
    if users != [] {
      assert (users + [u])[1..] == users[1..] + [u];
      UserByEmailAppend(users[1..], u, email);
    }
  }

  method SignIn(store: Store, user: SignInUser, account: Option<Account>, storeFault: bool) returns (ok: bool)
    requires store.Valid()
    modifies store
    ensures store.Valid()
    ensures (ok, store.State()) == SignInSpec(old(store.State()), user, account, storeFault)
  {
    if account.Some? && account.value.provider == "google" {
      if storeFault {
        return false;
      }
      var existingUser := UserByEmail(store.users, user.email);
      if existingUser.None? {
        var _ := store.CreateUser(NewUser(account.value.providerAccountId, user.email, user.name, user.image));
      }
      return true;
    }
    return true;
  }
}
