/** The deployed callable functions and the account-deletion trigger
    (`setRole`, `onuserdeleted`, `syncUsers`). Each runs against the
    `Backend`; a write the backend rejects for a missing account or a missing
    profile document surfaces as an `internal` error. */
module FunctionsLib {
  import opened Common
  import opened Platform

  /** A request argument as it arrives over the wire: either a string or
      something else (a number, an object, missing). */
  datatype Arg = Text(s: string) | NotText

  /** The caller's token carries the `Admin` role claim. */
  predicate IsAdmin(auth: Option<Token>)
  {
    auth.Some? && auth.value.role == Some(Admin)
  }

  /** The argument check of `setRole`: `uid` must be a string and `role`
      exactly one of the three role names. */
  function ParseRoleArgs(uid: Arg, role: Arg): (r: Option<(Uid, Role)>)
    ensures r.Some? <==> uid.Text? && role.Text? && role.s in {"Admin", "Editor", "Viewer"}
    ensures r.Some? ==> r.value.0 == uid.s && RoleName(r.value.1) == role.s
  {
    if uid.NotText? || role.NotText? then None
    else match ParseRole(role.s)
      case None => None
      case Some(ro) => Some((uid.s, ro))
  }

  function RoleSetMessage(uid: Uid, role: Role): string
  {
    "Success! " + uid + " has been made a " + RoleName(role) + "."
  }

  /** The profile document after its `role` field is set. */
  function WithRole(d: Doc, role: Role): Doc
  {
    d["role" := Str(RoleName(role))]
  }

  /** The account's claim and its profile document agree on its role. */
  predicate RoleInSync(claims: map<Uid, Role>, users: map<Uid, Doc>, uid: Uid)
  {
    uid in claims && uid in users && StrField(users[uid], "role") == Some(RoleName(claims[uid]))
  }

  /** `setRole`: an admin sets the role claim of an account, then the `role`
      field of its profile document. Setting the claim of an unknown account
      and updating a missing document both fail with `internal`; in the
      second case the claim has already been written. */
  method SetRole(b: Backend, auth: Option<Token>, uid: Arg, role: Arg) returns (r: Result<string, HttpsError>)
    modifies b
    ensures b.accounts == old(b.accounts) && b.pages == old(b.pages)
    ensures !IsAdmin(auth) ==> r == Failure(PermissionDenied) && unchanged(b)
    ensures IsAdmin(auth) && ParseRoleArgs(uid, role).None? ==> r == Failure(InvalidArgument) && unchanged(b)
    ensures IsAdmin(auth) && ParseRoleArgs(uid, role).Some? ==>
      var (u, ro) := ParseRoleArgs(uid, role).value;
      if u !in old(b.accounts) then
        r == Failure(Internal) && unchanged(b)
      else if u !in old(b.users) then
        r == Failure(Internal) && b.claims == old(b.claims)[u := ro] && b.users == old(b.users)
      else
        && r == Success(RoleSetMessage(u, ro))
        && b.claims == old(b.claims)[u := ro]
        && b.users == old(b.users)[u := WithRole(old(b.users)[u], ro)]
        && RoleInSync(b.claims, b.users, u)
  {
    if !IsAdmin(auth) {
      return Failure(PermissionDenied);
    }
    var args := ParseRoleArgs(uid, role);
    if args.None? {
      return Failure(InvalidArgument);
    }
    var (u, ro) := args.value;
    if u !in b.accounts {
      return Failure(Internal);
    }
    b.claims := b.claims[u := ro];
    if u !in b.users {
      return Failure(Internal);
    }
    b.users := b.users[u := WithRole(b.users[u], ro)];
    r := Success(RoleSetMessage(u, ro));
  }

  /** `onuserdeleted`: when an account is deleted its profile document is
      deleted too; deleting a missing document is not an error. */
  method OnUserDeleted(b: Backend, uid: Uid)
    modifies b
    ensures b.users == old(b.users) - {uid}
    ensures b.accounts == old(b.accounts) && b.claims == old(b.claims) && b.pages == old(b.pages)
  {
    b.RemoveDoc(Users, uid);
  }

  /** How many accounts one `listUsers` call returns. */
  const LIST_USERS_PAGE: nat := 1000

  /** The accounts the one `listUsers(1000)` call sees. */
  function FirstPage(accounts: seq<Uid>): (page: seq<Uid>)
    ensures |page| <= LIST_USERS_PAGE && page <= accounts
    ensures |accounts| <= LIST_USERS_PAGE ==> page == accounts
  {
    if |accounts| <= LIST_USERS_PAGE then accounts else accounts[..LIST_USERS_PAGE]
  }

  /** The profile documents `syncUsers` treats as ghosts: those whose id is
      not among the listed accounts. */
  function GhostIds(users: map<Uid, Doc>, accounts: seq<Uid>): (ghosts: set<Uid>)
    ensures ghosts <= users.Keys
    ensures forall id :: id in ghosts <==> id in users && id !in FirstPage(accounts)
  {
    set id | id in users && id !in FirstPage(accounts)
  }

  datatype SyncResult = SyncResult(deletedCount: nat, message: Option<string>)

  const IN_SYNC_MESSAGE := "No ghost users found. Database is in sync."

  /** `syncUsers`: an admin deletes, in one batch, every profile document
      whose id is not among the first page of accounts, and learns how many
      were deleted. */
  method SyncUsers(b: Backend, auth: Option<Token>) returns (r: Result<SyncResult, HttpsError>)
    modifies b
    ensures b.accounts == old(b.accounts) && b.claims == old(b.claims) && b.pages == old(b.pages)
    ensures !IsAdmin(auth) ==> r == Failure(PermissionDenied) && b.users == old(b.users)
    ensures IsAdmin(auth) ==>
      var ghosts := GhostIds(old(b.users), old(b.accounts));
      && r.Success?
      && r.value.deletedCount == |ghosts|
      && (r.value.message.Some? <==> ghosts == {})
      && (ghosts == {} ==> r.value.message == Some(IN_SYNC_MESSAGE))
      && b.users == old(b.users) - ghosts
  {
    if !IsAdmin(auth) {
      return Failure(PermissionDenied);
    }
    var firestoreUserIds := b.users.Keys;
    var page := FirstPage(b.accounts);

    // Collect the ids with no listed account, in the store's iteration order.
    var ghostUserIds: seq<Uid> := [];
    ghost var ghostSet: set<Uid> := {};
    var unvisited := firestoreUserIds;
    while unvisited != {}
      invariant unvisited <= firestoreUserIds
      invariant forall id :: id in ghostSet <==> id in firestoreUserIds && id !in unvisited && id !in page
      invariant forall id :: id in ghostUserIds <==> id in ghostSet
      invariant |ghostSet| == |ghostUserIds|
      decreases |unvisited|
    {
      var id :| id in unvisited;
      if id !in page {
        ghostUserIds := ghostUserIds + [id];
        ghostSet := ghostSet + {id};
      }
      unvisited := unvisited - {id};
    }
    assert ghostSet == GhostIds(b.users, b.accounts);

    if |ghostUserIds| == 0 {
      return Success(SyncResult(0, Some(IN_SYNC_MESSAGE)));
    }

    // Queue one delete per ghost, then commit the batch at once.
    var batch: set<Uid> := {};
    var i := 0;
    while i < |ghostUserIds|
      invariant 0 <= i <= |ghostUserIds|
      invariant forall id :: id in batch <==> id in ghostUserIds[..i]
    {
      batch := batch + {ghostUserIds[i]};
      i := i + 1;
    }
    assert ghostUserIds[..i] == ghostUserIds;
    assert batch == ghostSet;
    b.users := b.users - batch;
    r := Success(SyncResult(|ghostUserIds|, None));
  }

  /** A second sync right after a first finds nothing left to delete. */
  lemma SyncIdempotent(users: map<Uid, Doc>, accounts: seq<Uid>)
    ensures GhostIds(users - GhostIds(users, accounts), accounts) == {}
  {
    var after := users - GhostIds(users, accounts);
    forall id | id in after
      ensures id !in GhostIds(after, accounts)
    {
      assert id !in GhostIds(users, accounts);
    }
  }

  /** Sync never deletes the profile of an account on the listed page. */
  lemma SyncKeepsListed(users: map<Uid, Doc>, accounts: seq<Uid>, k: nat)
    requires k < |accounts| && k < LIST_USERS_PAGE
    ensures accounts[k] !in GhostIds(users, accounts)
  {
    assert FirstPage(accounts)[k] == accounts[k];
  }

  /** Only the first page of accounts is listed, so once there are more than
      1000 accounts the profile of a live account past the first page counts
      as a ghost and is deleted. */
  lemma {:induction false} SyncDeletesUnlisted(users: map<Uid, Doc>, accounts: seq<Uid>, k: nat)
    requires forall i, j :: 0 <= i < j < |accounts| ==> accounts[i] != accounts[j]
    requires LIST_USERS_PAGE <= k < |accounts| && accounts[k] in users
    ensures accounts[k] in GhostIds(users, accounts)
  {
    var page := FirstPage(accounts);
    forall i | 0 <= i < |page|
      ensures page[i] != accounts[k]
    {
      assert page[i] == accounts[i];
    }
  }
}
