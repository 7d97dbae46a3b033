/** The client's session: the signed-in identity-provider account, the cached
    profile of the signed-in user with the role taken from its token, and
    the operations that keep that cache in step with the `users` collection. */
module Auth {
  import opened Common
  import opened Platform
  import opened Strings
  import opened NonBlockingUpdates

  /** The identity provider's view of the signed-in account. */
  datatype AuthUser = AuthUser(uid: Uid, email: Option<string>, displayName: Option<string>, photoURL: Option<string>)

  /** The picture a new profile gets when its account has none. */
  const DEFAULT_AVATAR: string :=
    "https://firebasestorage.googleapis.com/v0/b/studio-3687522943-485ca.firebasestorage.app/o/faceRidepfp.png?alt=media&token=c1ce861e-20f2-4408-b06e-74a80fe13367"

  /** A nullable string as a field value. */
  function Nullable(o: Option<string>): Value
  {
    if o.Some? then Str(o.value) else Null
  }

  /** The role a freshly refreshed token carries: its `role` claim, `Viewer`
      when there is none. */
  function TokenRole(claims: map<Uid, Role>, uid: Uid): (r: Role)
    ensures uid in claims ==> r == claims[uid]
    ensures uid !in claims ==> r == Viewer
  {
    if uid in claims then claims[uid] else Viewer
  }

  /** The cached user built from an existing profile: `uid`, then every field
      of the document, then the token's role. */
  function CachedFromDoc(uid: Uid, d: Doc, role: Role): (u: Doc)
    ensures Get(u, "role") == Some(Str(RoleName(role)))
    ensures Get(u, "uid") == if "uid" in d then Some(d["uid"]) else Some(Str(uid))
    ensures forall k | k != "role" && k != "uid" :: Get(u, k) == Get(d, k)
  {
    (map["uid" := Str(uid)] + d)["role" := Str(RoleName(role))]
  }

  /** The profile written for an account that has none; it is also the
      cached user. */
  function NewUserDoc(a: AuthUser, role: Role): (d: Doc)
    ensures d.Keys == {"uid", "email", "role", "displayName", "photoURL"}
    ensures d["uid"] == Str(a.uid) && d["role"] == Str(RoleName(role))
    ensures d["email"] == Nullable(a.email) && d["displayName"] == Nullable(a.displayName)
    ensures d["photoURL"] == Str(if Truthy(a.photoURL) then a.photoURL.value else DEFAULT_AVATAR)
  {
    map[
      "uid" := Str(a.uid),
      "email" := Nullable(a.email),
      "role" := Str(RoleName(role)),
      "displayName" := Nullable(a.displayName),
      "photoURL" := Str(OrElse(a.photoURL, DEFAULT_AVATAR))]
  }

  /** The step of `syncUser` at which the backend failed, if any. */
  datatype SyncStep = TokenRefresh | ProfileRead | ProfileWrite

  class Session {
    /** The signed-in account, as the identity provider reports it. */
    var authUser: Option<AuthUser>
    /** The cached profile of the signed-in user. */
    var user: Option<Doc>
    var loading: bool

    constructor()
      ensures authUser == None && user == None && loading
    {
      authUser := None;
      user := None;
      loading := true;
    }

    /** `syncUser`: refreshes the token, then caches the existing profile
        with the token's role, or writes a new profile and caches it. Any
        failure leaves the cache as it was; loading always ends. */
    method SyncUser(b: Backend, fbUser: Option<AuthUser>, failure: Option<SyncStep>)
      modifies this, b
      ensures authUser == old(authUser) && !loading
      ensures b.accounts == old(b.accounts) && b.claims == old(b.claims) && b.pages == old(b.pages)
      ensures fbUser.None? ==> user == None && b.users == old(b.users)
      ensures fbUser.Some? ==>
        var uid := fbUser.value.uid;
        var role := TokenRole(old(b.claims), uid);
        if failure == Some(TokenRefresh) || failure == Some(ProfileRead) then
          user == old(user) && b.users == old(b.users)
        else if uid in old(b.users) then
          user == Some(CachedFromDoc(uid, old(b.users)[uid], role)) && b.users == old(b.users)
        else if failure == Some(ProfileWrite) then
          user == old(user) && b.users == old(b.users)
        else
          user == Some(NewUserDoc(fbUser.value, role)) && b.users == old(b.users)[uid := NewUserDoc(fbUser.value, role)]
    {
      if fbUser.None? {
        user := None;
        loading := false;
        return;
      }
      var fb := fbUser.value;
      loading := true;
      if failure == Some(TokenRefresh) {
        loading := false;
        return;
      }
      var role := TokenRole(b.claims, fb.uid);
      if failure == Some(ProfileRead) {
        loading := false;
        return;
      }
      if fb.uid in b.users {
        user := Some(CachedFromDoc(fb.uid, b.users[fb.uid], role));
      } else {
        var newUser := NewUserDoc(fb, role);
        if failure != Some(ProfileWrite) {
          b.PutDoc(Users, fb.uid, newUser);
          user := Some(newUser);
        }
      }
      loading := false;
    }

    /** `forceRefresh`: re-runs `syncUser` for the signed-in account, if any. */
    method ForceRefresh(b: Backend, failure: Option<SyncStep>)
      modifies this, b
      ensures authUser == old(authUser)
      ensures b.accounts == old(b.accounts) && b.claims == old(b.claims) && b.pages == old(b.pages)
      ensures old(authUser).None? ==> user == old(user) && loading == old(loading) && b.users == old(b.users)
      ensures old(authUser).Some? ==>
        var uid := old(authUser).value.uid;
        var role := TokenRole(old(b.claims), uid);
        && !loading
        && (if failure == Some(TokenRefresh) || failure == Some(ProfileRead) then
              user == old(user) && b.users == old(b.users)
            else if uid in old(b.users) then
              user == Some(CachedFromDoc(uid, old(b.users)[uid], role)) && b.users == old(b.users)
            else if failure == Some(ProfileWrite) then
              user == old(user) && b.users == old(b.users)
            else
              user == Some(NewUserDoc(old(authUser).value, role))
              && b.users == old(b.users)[uid := NewUserDoc(old(authUser).value, role)])
    {
      if authUser.Some? {
        SyncUser(b, authUser, failure);
      }
    }

    /** `updateUserProfile`: sends only the given fields to the account and
        to the profile document, then merges them into the cached user; a
        rejected profile update is rethrown and leaves the cache alone. */
    method UpdateUserProfile(b: Backend, emitter: ErrorEmitter, displayName: Option<string>, photoURL: Option<string>,
                             rejection: Option<string>)
      returns (r: Result<(), Thrown>)
      modifies this, b, emitter
      ensures b.accounts == old(b.accounts) && b.claims == old(b.claims) && b.pages == old(b.pages)
      ensures old(authUser).None? ==>
        r == Failure(JsError("Not authenticated")) && user == old(user) && authUser == None
        && b.users == old(b.users) && emitter.emitted == old(emitter.emitted)
      ensures old(authUser).Some? ==>
        var a := old(authUser).value;
        var updates := ProfileUpdates(displayName, photoURL);
        && authUser == Some(WithProfile(a, displayName, photoURL))
        && (r.Success? <==> rejection.None? && a.uid in old(b.users))
        && (r.Success? ==> b.users == old(b.users)[a.uid := old(b.users)[a.uid] + updates])
        && (r.Success? ==> user == if old(user).Some? then Some(old(user).value + updates) else None)
        && (r.Failure? ==> b.users == old(b.users) && user == old(user) && r.error.PermissionError?)
    {
      if authUser.None? {
        return Failure(JsError("Not authenticated"));
      }
      var a := authUser.value;
      var authUpdates := ProfileUpdates(displayName, photoURL);
      authUser := Some(WithProfile(a, displayName, photoURL));
      r := UpdateDocument(b, emitter, DocRef(Users, a.uid), authUpdates, rejection);
      if r.Failure? {
        return;
      }
      user := if user.Some? then Some(user.value + authUpdates) else None;
    }

    /** `logout`: signs out and clears the cached user; a failed sign-out is
        logged and changes nothing. */
    method Logout(fails: bool)
      modifies this
      ensures fails ==> authUser == old(authUser) && user == old(user)
      ensures !fails ==> authUser == None && user == None
      ensures loading == old(loading)
    {
      if !fails {
        authUser := None;
        user := None;
      }
    }
  }

  /** The fields `updateUserProfile` sends: exactly the defined ones. */
  function ProfileUpdates(displayName: Option<string>, photoURL: Option<string>): (d: Doc)
    ensures "displayName" in d <==> displayName.Some?
    ensures "photoURL" in d <==> photoURL.Some?
    ensures d.Keys <= {"displayName", "photoURL"}
    ensures displayName.Some? ==> d["displayName"] == Str(displayName.value)
    ensures photoURL.Some? ==> d["photoURL"] == Str(photoURL.value)
  {
    var name: Doc := if displayName.Some? then map["displayName" := Str(displayName.value)] else map[];
    var photo: Doc := if photoURL.Some? then map["photoURL" := Str(photoURL.value)] else map[];
    name + photo
  }

  /** The account after `updateProfile` with the defined fields. */
  function WithProfile(a: AuthUser, displayName: Option<string>, photoURL: Option<string>): AuthUser
  {
    a.(displayName := if displayName.Some? then displayName else a.displayName,
       photoURL := if photoURL.Some? then photoURL else a.photoURL)
  }

  /** The profile listener's rule: resync when the document exists and both
      its role and the cached role are truthy and differ. */
  predicate ShouldResync(snapshot: Option<Doc>, cached: Option<Doc>)
  {
    && snapshot.Some?
    && cached.Some?
    && Get(snapshot.value, "role").Some? && ValueTruthy(Get(snapshot.value, "role").value)
    && Get(cached.value, "role").Some? && ValueTruthy(Get(cached.value, "role").value)
    && Get(cached.value, "role") != Get(snapshot.value, "role")
  }

  /** Right after a sync from an existing profile, the listener resyncs
      exactly when the profile's role is set and differs from the token's:
      a profile that lags behind its claim keeps triggering resyncs. */
  lemma ResyncAfterSync(uid: Uid, d: Doc, role: Role)
    ensures ShouldResync(Some(d), Some(CachedFromDoc(uid, d, role))) <==>
      "role" in d && ValueTruthy(d["role"]) && d["role"] != Str(RoleName(role))
  {
    assert Get(CachedFromDoc(uid, d, role), "role") == Some(Str(RoleName(role)));
    assert ValueTruthy(Str(RoleName(role)));
  }

  /** A newly written profile agrees with the cache, so it never triggers a resync. */
  lemma NoResyncAfterCreate(a: AuthUser, role: Role)
    ensures !ShouldResync(Some(NewUserDoc(a, role)), Some(NewUserDoc(a, role)))
  {
  }

  /** The first profile, in the query's document-id order, whose display
      name equals `name`. */
  function FirstWithDisplayName(users: seq<Doc>, name: string): (r: Option<nat>)
    ensures r.Some? ==> r.value < |users| && Get(users[r.value], "displayName") == Some(Str(name))
    ensures r.Some? ==> forall j | 0 <= j < r.value :: Get(users[j], "displayName") != Some(Str(name))
    ensures r.None? <==> forall j | 0 <= j < |users| :: Get(users[j], "displayName") != Some(Str(name))
  {
    if |users| == 0 then None
    else if Get(users[0], "displayName") == Some(Str(name)) then Some(0)
    else match FirstWithDisplayName(users[1..], name)
      case None => None
      case Some(i) => Some(i + 1)
  }

  /** The email a login uses: the input when it contains `@`, otherwise the
      `email` field of the first profile with that display name (`None`
      when that field is not a string). */
  function ResolveEmail(users: seq<Doc>, emailOrUsername: string): (r: Result<Option<string>, Thrown>)
    ensures '@' in emailOrUsername ==> r == Success(Some(emailOrUsername))
    ensures '@' !in emailOrUsername ==>
      (r == Failure(JsError("User not found")) <==> FirstWithDisplayName(users, emailOrUsername).None?)
    ensures '@' !in emailOrUsername && r.Success? ==>
      var i := FirstWithDisplayName(users, emailOrUsername).value;
      r.value == StrField(users[i], "email")
  {
    ContainsChar(emailOrUsername, '@');
    if Contains(emailOrUsername, ['@']) then Success(Some(emailOrUsername))
    else match FirstWithDisplayName(users, emailOrUsername)
      case None => Failure(JsError("User not found"))
      case Some(i) => Success(StrField(users[i], "email"))
  }

  /** `login`: resolves the email, then signs in with the password against
      `credentials` (email to password); returns the email signed into. */
  function Login(users: seq<Doc>, credentials: map<string, string>, emailOrUsername: string, password: string)
    : (r: Result<string, Thrown>)
    ensures r.Success? ==> r.value in credentials && credentials[r.value] == password
    ensures r.Success? && '@' in emailOrUsername ==> r.value == emailOrUsername
    ensures '@' !in emailOrUsername && FirstWithDisplayName(users, emailOrUsername).None? ==>
      r == Failure(JsError("User not found"))
    ensures '@' in emailOrUsername ==>
      (r.Success? <==> emailOrUsername in credentials && credentials[emailOrUsername] == password)
    ensures r.Success? ==> ResolveEmail(users, emailOrUsername) == Success(Some(r.value))
    ensures ResolveEmail(users, emailOrUsername).Success? && ResolveEmail(users, emailOrUsername).value.Some? ==>
      var email := ResolveEmail(users, emailOrUsername).value.value;
      (r.Success? <==> email in credentials && credentials[email] == password)
  {
    match ResolveEmail(users, emailOrUsername)
    case Failure(e) => Failure(e)
    case Success(email) =>
      if email.None? then Failure(AuthError("auth/invalid-email", "Firebase: Error (auth/invalid-email)."))
      else if email.value in credentials && credentials[email.value] == password then Success(email.value)
      else Failure(AuthError("auth/invalid-credential", "Firebase: Error (auth/invalid-credential)."))
  }
}
