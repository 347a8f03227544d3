/** The session store (src/stores/authStore.ts): the signed-in user, the
    authentication flag, the loading flag, and the copy of the user kept in
    the browser's storage under `learnx_user`. Storage is a map from key to
    the stored user; serialising to and from JSON is not part of this model. */
module AuthStore {
  import opened Seqs
  import opened Text
  import opened Types

  const UserKey := "learnx_user"

  /** The id every mock user gets. */
  const MockUserId := "1"

  /** A snapshot of the store together with the storage it mirrors. */
  datatype Session = Session(user: Option<User>, isAuthenticated: bool, isLoading: bool,
                             storage: map<string, User>)

  /** The in-memory state agrees with the stored copy. */
  ghost predicate Persisted(s: Session) {
    && s.isAuthenticated == s.user.Some?
    && (s.user.Some? ==> UserKey in s.storage && s.storage[UserKey] == s.user.value)
    && (s.user.None? ==> UserKey !in s.storage)
  }

  /** The state the store starts in, read from storage at page load. */
  function Restore(storage: map<string, User>): (r: Session)
    ensures r.isAuthenticated <==> UserKey in storage
    ensures UserKey in storage ==> r.user == Some(storage[UserKey])
    ensures UserKey !in storage ==> r.user == None
    ensures !r.isLoading && r.storage == storage
    ensures Persisted(r)
  {
    if UserKey in storage then Session(Some(storage[UserKey]), true, false, storage)
    else Session(None, false, false, storage)
  }

  /** `email.split('@')[0]`: the text before the first '@', or the whole
      string when it has none. */
  function LocalPart(email: string): (r: string)
    ensures IsPrefix(r, email)
    ensures '@' !in r
    ensures |r| < |email| ==> email[|r|] == '@'
  {
    if email == [] || email[0] == '@' then []
    else [email[0]] + LocalPart(email[1..])
  }

  /** The user record `login` and `signup` build. */
  function NewUser(name: string, email: string, emailVerified: bool, createdAt: string): (r: User)
    ensures r.id == MockUserId && r.name == name && r.email == email && r.role == Student
    ensures r.avatar.None? && r.bio.None? && r.emailVerified == emailVerified && !r.twoFactorEnabled
    ensures r.createdAt == createdAt && r.preferences == Preferences("light", "en", true)
  {
    User(MockUserId, name, email, Student, None, None, emailVerified, false, createdAt,
         Preferences("light", "en", true))
  }

  /** The state after a user signs in: in memory and in storage. */
  function SignedIn(s: Session, u: User): (r: Session)
    ensures r.user == Some(u) && r.isAuthenticated && !r.isLoading
    ensures r.storage == s.storage[UserKey := u]
    ensures Persisted(r)
  {
    Session(Some(u), true, false, s.storage[UserKey := u])
  }

  /** `login(email, password)` once its delay is over; `createdAt` is the
      current ISO time. The password plays no part. */
  function AfterLogin(s: Session, email: string, createdAt: string): (r: Session)
    ensures r.user.Some? && r.isAuthenticated && !r.isLoading
    ensures r.user.value.name == LocalPart(email) && r.user.value.email == email
    ensures r.user.value.role == Student && r.user.value.emailVerified && !r.user.value.twoFactorEnabled
    ensures Persisted(r)
  {
    SignedIn(s, NewUser(LocalPart(email), email, true, createdAt))
  }

  /** `signup(name, email, password)`: like login, but with the given name
      and an unverified email. */
  function AfterSignup(s: Session, name: string, email: string, createdAt: string): (r: Session)
    ensures r.user.Some? && r.isAuthenticated && !r.isLoading
    ensures r.user.value.name == name && r.user.value.email == email
    ensures r.user.value.role == Student && !r.user.value.emailVerified && !r.user.value.twoFactorEnabled
    ensures Persisted(r)
  {
    SignedIn(s, NewUser(name, email, false, createdAt))
  }

  /** `logout()`: the user is dropped from memory and from storage. */
  function AfterLogout(s: Session): (r: Session)
    ensures r.user.None? && !r.isAuthenticated && r.isLoading == s.isLoading
    ensures UserKey !in r.storage
    ensures forall k :: k in s.storage && k != UserKey ==> k in r.storage && r.storage[k] == s.storage[k]
    ensures r.storage.Keys == s.storage.Keys - {UserKey}
    ensures Persisted(r)
  {
    s.(user := None, isAuthenticated := false, storage := s.storage - {UserKey})
  }

  /** A `Partial<User>`: each field is either supplied or absent. */
  datatype UserPatch = UserPatch(
    id: Option<string>,
    name: Option<string>,
    email: Option<string>,
    role: Option<Role>,
    avatar: Option<string>,
    bio: Option<string>,
    emailVerified: Option<bool>,
    twoFactorEnabled: Option<bool>,
    createdAt: Option<string>,
    preferences: Option<Preferences>)

  const NoChanges := UserPatch(None, None, None, None, None, None, None, None, None, None)

  /** `{ ...user, ...updates }`: every supplied field overrides, every other
      field is kept. */
  function Merge(u: User, p: UserPatch): (r: User)
    ensures r.id == GetOr(p.id, u.id) && r.name == GetOr(p.name, u.name) && r.email == GetOr(p.email, u.email)
    ensures r.role == GetOr(p.role, u.role)
    ensures r.avatar == OrElse(p.avatar, u.avatar) && r.bio == OrElse(p.bio, u.bio)
    ensures r.emailVerified == GetOr(p.emailVerified, u.emailVerified)
    ensures r.twoFactorEnabled == GetOr(p.twoFactorEnabled, u.twoFactorEnabled)
    ensures r.createdAt == GetOr(p.createdAt, u.createdAt)
    ensures r.preferences == GetOr(p.preferences, u.preferences)
  {
    User(GetOr(p.id, u.id), GetOr(p.name, u.name), GetOr(p.email, u.email), GetOr(p.role, u.role),
         OrElse(p.avatar, u.avatar), OrElse(p.bio, u.bio),
         GetOr(p.emailVerified, u.emailVerified), GetOr(p.twoFactorEnabled, u.twoFactorEnabled),
         GetOr(p.createdAt, u.createdAt), GetOr(p.preferences, u.preferences))
  }

  /** The patch that applies `p` and then `q`. */
  function Then(p: UserPatch, q: UserPatch): UserPatch {
    UserPatch(OrElse(q.id, p.id), OrElse(q.name, p.name), OrElse(q.email, p.email), OrElse(q.role, p.role),
              OrElse(q.avatar, p.avatar), OrElse(q.bio, p.bio),
              OrElse(q.emailVerified, p.emailVerified), OrElse(q.twoFactorEnabled, p.twoFactorEnabled),
              OrElse(q.createdAt, p.createdAt), OrElse(q.preferences, p.preferences))
  }

  /** An empty update changes nothing. */
  lemma MergeNoChanges(u: User)
    ensures Merge(u, NoChanges) == u
  {
  }

  /** Applying the same update twice is applying it once. */
  lemma MergeIdempotent(u: User, p: UserPatch)
    ensures Merge(Merge(u, p), p) == Merge(u, p)
  {
  }

  /** Two updates in a row are one update with the later values winning. */
  lemma MergeThen(u: User, p: UserPatch, q: UserPatch)
    ensures Merge(Merge(u, p), q) == Merge(u, Then(p, q))
  {
  }

  /** `updateUser(updates)`: a no-op without a user; otherwise the merged user
      replaces the old one in memory and in storage. */
  function AfterUpdate(s: Session, p: UserPatch): (r: Session)
    ensures s.user.None? ==> r == s
    ensures s.user.Some? ==> r.user == Some(Merge(s.user.value, p))
    ensures s.user.Some? ==> r.storage == s.storage[UserKey := Merge(s.user.value, p)]
    ensures r.isAuthenticated == s.isAuthenticated && r.isLoading == s.isLoading
    ensures Persisted(s) ==> Persisted(r)
  {
    match s.user
    case None => s
    case Some(u) => s.(user := Some(Merge(u, p)), storage := s.storage[UserKey := Merge(u, p)])
  }

  const EmailVerifiedPatch := NoChanges.(emailVerified := Some(true))

  function TwoFactorPatch(enabled: bool): UserPatch {
    NoChanges.(twoFactorEnabled := Some(enabled))
  }

  /** After a logout, a reload starts signed out. */
  lemma ReloadAfterLogout(s: Session)
    ensures Restore(AfterLogout(s).storage).user.None?
    ensures !Restore(AfterLogout(s).storage).isAuthenticated
  {
  }

  /** After login or signup, a reload restores the same user. */
  lemma ReloadAfterSignIn(s: Session, u: User)
    ensures Restore(SignedIn(s, u).storage).user == Some(u)
    ensures Restore(SignedIn(s, u).storage).isAuthenticated
  {
  }

  /** Logging in as jane@x.com names the user "jane". */
  lemma LoginNamesUserByLocalPart(s: Session, createdAt: string)
    ensures AfterLogin(s, "jane@x.com", createdAt).user.value.name == "jane"
  {
    LocalPartBeforeAt("jane", "x.com");
    assert "jane" + "@" + "x.com" == "jane@x.com";
  }

  /** The local part of an address is everything before its first '@'. */
  lemma {:induction false} LocalPartBeforeAt(name: string, domain: string)
    requires '@' !in name
    ensures LocalPart(name + "@" + domain) == name
  {
    if name != [] {
      LocalPartBeforeAt(name[1..], domain);
      assert (name + "@" + domain)[1..] == name[1..] + "@" + domain;
    }
  }

  class AuthState {
    var user: Option<User>
    var isAuthenticated: bool
    var isLoading: bool
    var storage: map<string, User>

    function State(): Session
      reads this
    {
      Session(user, isAuthenticated, isLoading, storage)
    }

    /** The store as created at page load over the browser's `storage`. */
    constructor (storage: map<string, User>)
      ensures State() == Restore(storage)
    {
      var s := Restore(storage);
      this.user, this.isAuthenticated, this.isLoading, this.storage := s.user, s.isAuthenticated, false, storage;
    }

    method Login(email: string, password: string, createdAt: string)
      modifies this
      ensures State() == AfterLogin(old(State()), email, createdAt)
    {
      isLoading := true;
      var u := NewUser(LocalPart(email), email, true, createdAt);
      user, isAuthenticated, isLoading := Some(u), true, false;
      storage := storage[UserKey := u];
    }

    method Signup(name: string, email: string, password: string, createdAt: string)
      modifies this
      ensures State() == AfterSignup(old(State()), name, email, createdAt)
    {
      isLoading := true;
      var u := NewUser(name, email, false, createdAt);
      user, isAuthenticated, isLoading := Some(u), true, false;
      storage := storage[UserKey := u];
    }

    method Logout()
      modifies this
      ensures State() == AfterLogout(old(State()))
    {
      user, isAuthenticated := None, false;
      storage := storage - {UserKey};
    }

    method UpdateUser(updates: UserPatch)
      modifies this
      ensures State() == AfterUpdate(old(State()), updates)
    {
      if user.Some? {
        var updated := Merge(user.value, updates);
        user := Some(updated);
        storage := storage[UserKey := updated];
      }
    }

    /** `verifyEmail(token)`; the token is not looked at. */
    method VerifyEmail(token: string)
      modifies this
      ensures State() == AfterUpdate(old(State()), EmailVerifiedPatch)
    {
      if user.Some? {
        UpdateUser(EmailVerifiedPatch);
      }
    }

    method EnableTwoFactor()
      modifies this
      ensures State() == AfterUpdate(old(State()), TwoFactorPatch(true))
    {
      if user.Some? {
        UpdateUser(TwoFactorPatch(true));
      }
    }

    method DisableTwoFactor()
      modifies this
      ensures State() == AfterUpdate(old(State()), TwoFactorPatch(false))
    {
      if user.Some? {
        UpdateUser(TwoFactorPatch(false));
      }
    }
  }
}
