/** The admin dashboard: its access gate, the users query, the per-entry
    delete permission, the role menu, the statistics, and the three actions
    (delete an entry, delete a profile document, change a role through the
    `setRole` callable function). */
module AdminPage {
  import opened Common
  import opened Platform
  import opened Access
  import opened NonBlockingUpdates
  import FunctionsLib

  /** What the page renders. */
  datatype View =
    | Waiting      // the session is loading: the waiting text, no redirect yet
    | Denied       // no admin: the same text, and a redirect to `/`
    | Dashboard

  function PageView(loading: bool, user: Option<Doc>): (v: View)
    ensures v == Dashboard <==> !loading && IsAdminUser(user)
    ensures v == Denied <==> !loading && !IsAdminUser(user)
    ensures v == Waiting <==> loading
  {
    if loading then Waiting
    else if !IsAdminUser(user) then Denied
    else Dashboard
  }

  /** Where the page sends the visitor once the session has loaded. */
  function Redirect(loading: bool, user: Option<Doc>): (r: Option<string>)
    ensures r.Some? <==> PageView(loading, user) == Denied
    ensures r.Some? ==> r.value == "/"
  {
    if PageView(loading, user) == Denied then Some("/") else None
  }

  /** The users collection is read only for an admin. */
  function UsersQuery(user: Option<Doc>): (c: Option<Collection>)
    ensures c.Some? <==> IsAdminUser(user)
    ensures c.Some? ==> c.value == Users
  {
    if IsAdminUser(user) then Some(Users) else None
  }

  /** The per-entry `canDelete`: the Admin role, or the Editor role on an
      entry whose `authorId` is the user's uid. */
  predicate CanDeleteArticle(user: Doc, article: Doc)
  {
    || UserRole(Some(user)) == Some("Admin")
    || (UserRole(Some(user)) == Some("Editor") && Get(article, "authorId") == Get(user, "uid"))
  }

  /** The rows are rendered only on the dashboard, that is for an admin, so
      every entry's delete button is enabled there: the Editor clause never
      decides anything. */
  lemma DashboardDeletesAll(loading: bool, user: Option<Doc>, article: Doc)
    requires PageView(loading, user) == Dashboard
    ensures user.Some? && CanDeleteArticle(user.value, article)
  {
  }

  /** An editor may delete an entry exactly when its `authorId` is the
      editor's uid; a viewer never may. */
  lemma CanDeleteArticleByRole(user: Doc, article: Doc)
    ensures UserRole(Some(user)) == Some("Editor") ==>
      (CanDeleteArticle(user, article) <==> Get(article, "authorId") == Get(user, "uid"))
    ensures RoleOf(Some(user)) == Some(Viewer) ==> !CanDeleteArticle(user, article)
  {
  }

  /** The role menu is disabled on the admin's own row. */
  predicate RoleMenuDisabled(row: Doc, me: Doc)
  {
    Get(row, "uid") == Get(me, "uid")
  }

  /** The admin's own row always has its menu disabled, so no admin changes
      its own role from the table; when the rows' uids are distinct, no other
      row is disabled with it. */
  lemma OnlyOwnRowDisabled(rows: seq<Doc>, me: Doc, i: nat, j: nat)
    requires i < |rows| && j < |rows|
    requires forall k, l | 0 <= k < l < |rows| :: Get(rows[k], "uid") != Get(rows[l], "uid")
    ensures RoleMenuDisabled(me, me)
    ensures RoleMenuDisabled(rows[i], me) && RoleMenuDisabled(rows[j], me) ==> i == j
  {
  }

  /** The menu item for the row's current role is disabled. */
  predicate RoleItemDisabled(row: Doc, role: Role)
  {
    StrField(row, "role") == Some(RoleName(role))
  }

  /** At most one of the three role items is disabled on a row, and none is
      when the row's role field names no role. */
  lemma OneItemDisabled(row: Doc, r1: Role, r2: Role)
    ensures RoleItemDisabled(row, r1) && RoleItemDisabled(row, r2) ==> r1 == r2
    ensures ParseRole(OrElse(StrField(row, "role"), "")).None? ==> !RoleItemDisabled(row, r1)
  {
    RoleNameRoundTrip(r1);
    RoleNameRoundTrip(r2);
  }

  /** `articles?.length ?? 0` and `users?.length ?? 0`. */
  function Stats(articles: Option<seq<Doc>>, users: Option<seq<Doc>>): (r: (nat, nat))
    ensures r.0 == (if articles.Some? then |articles.value| else 0)
    ensures r.1 == (if users.Some? then |users.value| else 0)
  {
    (if articles.Some? then |articles.value| else 0, if users.Some? then |users.value| else 0)
  }

  /** The entry picked for deletion: its id and title. */
  datatype DeleteTarget = DeleteTarget(id: string, title: string)

  /** The dashboard's state: the pending deletions and the toasts shown. */
  class Dashboard {
    var deleteTarget: Option<DeleteTarget>
    var deleteUserTarget: Option<Uid>
    var toasts: seq<string>

    constructor()
      ensures deleteTarget.None? && deleteUserTarget.None? && toasts == []
    {
      deleteTarget := None;
      deleteUserTarget := None;
      toasts := [];
    }

    /** `confirmArticleDelete`: deletes the picked entry and always clears the
      pick. */
    method ConfirmArticleDelete(b: Backend, emitter: ErrorEmitter, rejection: Option<string>)
      modifies this, b, emitter
      ensures b.users == old(b.users) && b.accounts == old(b.accounts) && b.claims == old(b.claims)
      ensures deleteUserTarget == old(deleteUserTarget)
      ensures old(deleteTarget).None? ==>
        (&& deleteTarget.None? && toasts == old(toasts)
         && b.pages == old(b.pages) && emitter.emitted == old(emitter.emitted))
      ensures old(deleteTarget).Some? ==>
        (&& deleteTarget.None?
         && (rejection.None? ==>
               && b.pages == old(b.pages) - {old(deleteTarget).value.id}
               && toasts == old(toasts) + ["Entry Deleted"] && emitter.emitted == old(emitter.emitted))
         && (rejection.Some? ==>
               && b.pages == old(b.pages) && toasts == old(toasts) + ["Error Deleting Entry"]
               && emitter.emitted == old(emitter.emitted) +
                    [PermissionRequest(Path(DocRef(WikiPages, old(deleteTarget).value.id)), Delete, None, rejection.value)]))
    {
      if deleteTarget.None? {
        return;
      }
      var r := DeleteDocument(b, emitter, DocRef(WikiPages, deleteTarget.value.id), rejection);
      toasts := toasts + [if r.Success? then "Entry Deleted" else "Error Deleting Entry"];
      deleteTarget := None;
    }

    /** `confirmUserDelete`: deletes the picked profile document (not the
      account) and always clears the pick. */
    method ConfirmUserDelete(b: Backend, emitter: ErrorEmitter, rejection: Option<string>)
      modifies this, b, emitter
      ensures b.pages == old(b.pages) && b.accounts == old(b.accounts) && b.claims == old(b.claims)
      ensures deleteTarget == old(deleteTarget)
      ensures old(deleteUserTarget).None? ==>
        (&& deleteUserTarget.None? && toasts == old(toasts)
         && b.users == old(b.users) && emitter.emitted == old(emitter.emitted))
      ensures old(deleteUserTarget).Some? ==>
        (&& deleteUserTarget.None?
         && (rejection.None? ==>
               && b.users == old(b.users) - {old(deleteUserTarget).value}
               && toasts == old(toasts) + ["User Record Deleted"] && emitter.emitted == old(emitter.emitted))
         && (rejection.Some? ==>
               && b.users == old(b.users) && toasts == old(toasts) + ["Deletion Failed"]
               && emitter.emitted == old(emitter.emitted) +
                    [PermissionRequest(Path(DocRef(Users, old(deleteUserTarget).value)), Delete, None, rejection.value)]))
    {
      if deleteUserTarget.None? {
        return;
      }
      var r := DeleteDocument(b, emitter, DocRef(Users, deleteUserTarget.value), rejection);
      toasts := toasts + [if r.Success? then "User Record Deleted" else "Deletion Failed"];
      deleteUserTarget := None;
    }

    /** `handleRoleChange`: calls `setRole` with the row's uid and the chosen
      role under the caller's token, and reports the outcome. */
    method HandleRoleChange(b: Backend, auth: Option<Token>, userId: Uid, newRole: Role)
      modifies this, b
      ensures deleteTarget == old(deleteTarget) && deleteUserTarget == old(deleteUserTarget)
      ensures b.accounts == old(b.accounts) && b.pages == old(b.pages)
      ensures var ok := FunctionsLib.IsAdmin(auth) && userId in old(b.accounts) && userId in old(b.users);
        && toasts == old(toasts) + [if ok then "User Role Updated" else "Update Failed"]
        && (ok ==> FunctionsLib.RoleInSync(b.claims, b.users, userId) && b.claims[userId] == newRole)
        && (!FunctionsLib.IsAdmin(auth) ==> b.claims == old(b.claims) && b.users == old(b.users))
      ensures FunctionsLib.IsAdmin(auth) ==>
        if userId !in old(b.accounts) then
          b.claims == old(b.claims) && b.users == old(b.users)
        else if userId !in old(b.users) then
          b.claims == old(b.claims)[userId := newRole] && b.users == old(b.users)
        else
          && b.claims == old(b.claims)[userId := newRole]
          && b.users == old(b.users)[userId := FunctionsLib.WithRole(old(b.users)[userId], newRole)]
    {
      RoleNameRoundTrip(newRole);
      var r := FunctionsLib.SetRole(b, auth, FunctionsLib.Text(userId), FunctionsLib.Text(RoleName(newRole)));
      toasts := toasts + [if r.Success? then "User Role Updated" else "Update Failed"];
    }
  }
}
