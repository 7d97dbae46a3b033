/** The functions that bootstrap the first administrator, grant the admin
    role, and copy a user's changed name and photo onto the wiki pages they
    wrote or last edited. */
module FunctionsSrc {
  import opened Common
  import opened Platform
  import opened FunctionsLib

  /** The `users` query `role == "Admin"` finds a document. */
  predicate AdminExists(users: map<Uid, Doc>)
  {
    exists id | id in users :: StrField(users[id], "role") == Some("Admin")
  }

  /** The caller's uid when it is present and non-empty. */
  function CallerUid(auth: Option<Token>): (uid: Option<Uid>)
    ensures uid.Some? <==> auth.Some? && auth.value.uid != ""
    ensures uid.Some? ==> uid.value == auth.value.uid
  {
    if auth.Some? && auth.value.uid != "" then Some(auth.value.uid) else None
  }

  /** `makeFirstUserAdmin`: while no profile holds the `Admin` role, the
      caller makes itself an admin. The admin check comes before the
      authentication check; the profile write is an update, so a missing
      profile fails with `internal` after the claim is set. */
  method MakeFirstUserAdmin(b: Backend, auth: Option<Token>) returns (r: Result<string, HttpsError>)
    modifies b
    ensures b.accounts == old(b.accounts) && b.pages == old(b.pages)
    ensures AdminExists(old(b.users)) ==> r == Failure(AlreadyExists) && unchanged(b)
    ensures !AdminExists(old(b.users)) && CallerUid(auth).None? ==> r == Failure(Unauthenticated) && unchanged(b)
    ensures !AdminExists(old(b.users)) && CallerUid(auth).Some? ==>
      var u := CallerUid(auth).value;
      if u !in old(b.accounts) then
        r == Failure(Internal) && unchanged(b)
      else if u !in old(b.users) then
        r == Failure(Internal) && b.claims == old(b.claims)[u := Admin] && b.users == old(b.users)
      else
        && r == Success("Successfully made user " + u + " an admin.")
        && b.claims == old(b.claims)[u := Admin]
        && b.users == old(b.users)[u := WithRole(old(b.users)[u], Admin)]
        && RoleInSync(b.claims, b.users, u)
        && AdminExists(b.users)
  {
    if AdminExists(b.users) {
      return Failure(AlreadyExists);
    }
    var uid := CallerUid(auth);
    if uid.None? {
      return Failure(Unauthenticated);
    }
    var u := uid.value;
    if u !in b.accounts {
      return Failure(Internal);
    }
    b.claims := b.claims[u := Admin];
    if u !in b.users {
      return Failure(Internal);
    }
    b.users := b.users[u := WithRole(b.users[u], Admin)];
    assert StrField(b.users[u], "role") == Some("Admin");
    r := Success("Successfully made user " + u + " an admin.");
  }

  /** Once an admin profile exists, no later `makeFirstUserAdmin` call can
      succeed: setting another profile's role leaves that admin in place. */
  lemma AdminPersists(users: map<Uid, Doc>, u: Uid, role: Role)
    requires AdminExists(users) && u in users && StrField(users[u], "role") != Some("Admin")
    ensures AdminExists(users[u := WithRole(users[u], role)])
  {
    var id :| id in users && StrField(users[id], "role") == Some("Admin");
    assert id != u;
    assert id in users[u := WithRole(users[u], role)];
  }

  /** `grantAdminRole`: any signed-in caller gets the admin claim and a
      `role: Admin` field merged into its profile, which is created when
      missing. There is no role check. */
  method GrantAdminRole(b: Backend, auth: Option<Token>) returns (r: Result<string, HttpsError>)
    modifies b
    ensures b.accounts == old(b.accounts) && b.pages == old(b.pages)
    ensures CallerUid(auth).None? ==> r == Failure(Unauthenticated) && unchanged(b)
    ensures CallerUid(auth).Some? ==>
      var u := CallerUid(auth).value;
      if u !in old(b.accounts) then
        r == Failure(Internal) && unchanged(b)
      else
        && r == Success("Successfully granted Admin role to user " + u + ". Please refresh the application.")
        && b.claims == old(b.claims)[u := Admin]
        && b.users == old(b.users)[u := WithRole(if u in old(b.users) then old(b.users)[u] else map[], Admin)]
        && RoleInSync(b.claims, b.users, u)
  {
    var uid := CallerUid(auth);
    if uid.None? {
      return Failure(Unauthenticated);
    }
    var u := uid.value;
    if u !in b.accounts {
      return Failure(Internal);
    }
    b.claims := b.claims[u := Admin];
    var existing := if u in b.users then b.users[u] else map[];
    b.users := b.users[u := WithRole(existing, Admin)];
    r := Success("Successfully granted Admin role to user " + u + ". Please refresh the application.");
  }

  // ----- onUserUpdate -----

  /** The field update one query's pages receive: `nameKey` when the display
      name changed, `photoKey` when the photo changed. `None` is a field set
      to `undefined` because it was removed from the profile. */
  function UpdateData(before: Doc, after: Doc, nameKey: string, photoKey: string): (u: map<string, Option<Value>>)
    requires nameKey != photoKey
    ensures nameKey in u <==> Get(after, "displayName") != Get(before, "displayName")
    ensures photoKey in u <==> Get(after, "photoURL") != Get(before, "photoURL")
    ensures nameKey in u ==> u[nameKey] == Get(after, "displayName")
    ensures photoKey in u ==> u[photoKey] == Get(after, "photoURL")
    ensures u.Keys <= {nameKey, photoKey}
  {
    var name: map<string, Option<Value>> :=
      if Get(after, "displayName") != Get(before, "displayName") then map[nameKey := Get(after, "displayName")] else map[];
    var photo: map<string, Option<Value>> :=
      if Get(after, "photoURL") != Get(before, "photoURL") then map[photoKey := Get(after, "photoURL")] else map[];
    name + photo
  }

  function AuthorUpdate(before: Doc, after: Doc): map<string, Option<Value>>
  {
    UpdateData(before, after, "authorDisplayName", "authorPhotoURL")
  }

  function EditorUpdate(before: Doc, after: Doc): map<string, Option<Value>>
  {
    UpdateData(before, after, "lastEditorDisplayName", "lastEditorPhotoURL")
  }

  /** Every field of an update has a value the store accepts. */
  predicate Defined(u: map<string, Option<Value>>)
  {
    forall k | k in u :: u[k].Some?
  }

  /** The defined values of an update. */
  function Values(u: map<string, Option<Value>>): map<string, Value>
  {
    map k | k in u && u[k].Some? :: u[k].value
  }

  predicate WrittenBy(page: Doc, userId: Uid)
  {
    Get(page, "authorId") == Some(Str(userId))
  }

  predicate LastEditedBy(page: Doc, userId: Uid)
  {
    Get(page, "lastEditorId") == Some(Str(userId))
  }

  /** The names of the fields a page copies from its writer's profile. */
  const DENORMALIZED: set<string> :=
    {"authorDisplayName", "authorPhotoURL", "lastEditorDisplayName", "lastEditorPhotoURL"}

  /** One page after the propagation: the author update when the user wrote
      it, then the editor update when the user last edited it. */
  function Refresh(page: Doc, userId: Uid, before: Doc, after: Doc): Doc
  {
    var withAuthor := if WrittenBy(page, userId) then page + Values(AuthorUpdate(before, after)) else page;
    if LastEditedBy(page, userId) then withAuthor + Values(EditorUpdate(before, after)) else withAuthor
  }

  /** The ids of the pages a query on `field == userId` finds. */
  function Matches(pages: map<string, Doc>, field: string, userId: Uid): (ids: set<string>)
    ensures ids <= pages.Keys
  {
    set id | id in pages && Get(pages[id], field) == Some(Str(userId))
  }

  /** Some queued update sets a field to `undefined`, which the batch
      rejects by throwing before the commit. */
  predicate Throws(pages: map<string, Doc>, userId: Uid, before: Doc, after: Doc)
  {
    || (Matches(pages, "authorId", userId) != {} && !Defined(AuthorUpdate(before, after)))
    || (Matches(pages, "lastEditorId", userId) != {} && !Defined(EditorUpdate(before, after)))
  }

  predicate NameOrPhotoChanged(before: Doc, after: Doc)
  {
    Get(after, "displayName") != Get(before, "displayName") || Get(after, "photoURL") != Get(before, "photoURL")
  }

  /** The `wiki_pages` collection after `onUserUpdate` has run for one change
      of `users/<userId>`. */
  function UserUpdateOutcome(pages: map<string, Doc>, userId: Uid, before: Option<Doc>, after: Option<Doc>): (r: map<string, Doc>)
    ensures r.Keys == pages.Keys
    ensures before.None? || after.None? ==> r == pages
    ensures before.Some? && after.Some? && !NameOrPhotoChanged(before.value, after.value) ==> r == pages
  {
    if before.None? || after.None? then pages
    else if !NameOrPhotoChanged(before.value, after.value) then pages
    else if Throws(pages, userId, before.value, after.value) then pages
    else Propagated(pages, userId, before.value, after.value)
  }

  /** Every page refreshed from the changed profile. */
  function Propagated(pages: map<string, Doc>, userId: Uid, before: Doc, after: Doc): (r: map<string, Doc>)
    ensures r.Keys == pages.Keys
  {
    map id | id in pages :: Refresh(pages[id], userId, before, after)
  }

  /** A changed name or photo gives both queries a non-empty update. */
  lemma UpdatesNonEmpty(before: Doc, after: Doc)
    requires NameOrPhotoChanged(before, after)
    ensures |AuthorUpdate(before, after)| > 0 && |EditorUpdate(before, after)| > 0
  {
    assert "authorDisplayName" in AuthorUpdate(before, after) || "authorPhotoURL" in AuthorUpdate(before, after);
    assert "lastEditorDisplayName" in EditorUpdate(before, after) || "lastEditorPhotoURL" in EditorUpdate(before, after);
  }

  /** The batch's view of the pages after `values` is queued for each of `ids`. */
  function Staged(pending: map<string, Doc>, ids: set<string>, values: map<string, Value>): (r: map<string, Doc>)
    ensures r.Keys == pending.Keys
  {
    map id | id in pending :: if id in ids then pending[id] + values else pending[id]
  }

  /** One query's `forEach`: queues `update` for every matching page, unless
      the update is empty; `ok` is false when `batch.update` threw on an
      undefined field value. */
  method StageUpdates(pending: map<string, Doc>, ids: set<string>, update: map<string, Option<Value>>)
    returns (ok: bool, staged: map<string, Doc>)
    requires ids <= pending.Keys
    ensures ok <==> ids == {} || |update| == 0 || Defined(update)
    ensures ok && |update| > 0 ==> staged == Staged(pending, ids, Values(update))
    ensures ok && |update| == 0 ==> staged == pending
  {
    staged := pending;
    var values := Values(update);
    var todo, done := ids, {};
    StagedNone(pending, values);
    while todo != {}
      invariant todo <= ids && done <= ids
      invariant forall x | x in ids :: x in todo <==> x !in done
      invariant done != {} ==> |update| == 0 || Defined(update)
      invariant |update| > 0 ==> staged == Staged(pending, done, values)
      invariant |update| == 0 ==> staged == pending
      decreases |todo|
    {
      var id :| id in todo;
      if |update| > 0 {
        if !Defined(update) {
          // `batch.update` rejects an undefined field value.
          assert id in ids;
          return false, pending;
        }
        StagedAdd(pending, done, values, id);
        staged := staged[id := staged[id] + values];
      }
      todo, done := todo - {id}, done + {id};
    }
    assert done == ids;
    ok := true;
  }

  /** Nothing queued yet: the batch's view is the collection itself. */
  lemma StagedNone(pending: map<string, Doc>, values: map<string, Value>)
    ensures Staged(pending, {}, values) == pending
  {
    var r := Staged(pending, {}, values);
    assert forall id | id in pending :: r[id] == pending[id];
  }

  /** Queuing the update for one more page changes only that page. */
  lemma StagedAdd(pending: map<string, Doc>, done: set<string>, values: map<string, Value>, id: string)
    requires id in pending && id !in done
    ensures Staged(pending, done, values)[id] == pending[id]
    ensures Staged(pending, done + {id}, values) == Staged(pending, done, values)[id := pending[id] + values]
  {
    var before := Staged(pending, done, values);
    var after := Staged(pending, done + {id}, values);
    var expected := before[id := pending[id] + values];
    assert forall k | k in pending :: after[k] == expected[k];
  }

  /** The body of the `try`: queues the author updates, then the editor
      updates; `ok` is false when queuing threw, and `pending` is the
      collection the batch would commit. */
  method PropagateChanges(pages: map<string, Doc>, userId: Uid, before: Doc, after: Doc)
    returns (ok: bool, pending: map<string, Doc>)
    requires NameOrPhotoChanged(before, after)
    ensures ok <==> !Throws(pages, userId, before, after)
    ensures ok ==> pending == Propagated(pages, userId, before, after)
  {
    UpdatesNonEmpty(before, after);
    var authorIds := Matches(pages, "authorId", userId);
    ok, pending := StageUpdates(pages, authorIds, AuthorUpdate(before, after));
    if !ok {
      return;
    }
    var editorIds := Matches(pages, "lastEditorId", userId);
    ok, pending := StageUpdates(pending, editorIds, EditorUpdate(before, after));
    if !ok {
      return;
    }
    StagedIsRefresh(pages, userId, before, after);
  }

  /** `onUserUpdate`: when a profile's display name or photo changed, copies
      the change onto every page the user wrote or last edited, in one
      batch; an error while queuing (an `undefined` field) is logged and
      nothing is written. */
  method OnUserUpdate(b: Backend, userId: Uid, beforeData: Option<Doc>, afterData: Option<Doc>)
    modifies b
    ensures b.accounts == old(b.accounts) && b.claims == old(b.claims) && b.users == old(b.users)
    ensures b.pages == UserUpdateOutcome(old(b.pages), userId, beforeData, afterData)
  {
    if beforeData.None? || afterData.None? {
      return;
    }
    var before, after := beforeData.value, afterData.value;
    if !NameOrPhotoChanged(before, after) {
      return;
    }
    var ok, pending := PropagateChanges(b.pages, userId, before, after);
    if ok {
      b.pages := pending;
    }
  }

  /** Queuing the author updates and then the editor updates yields every
      page refreshed. */
  lemma StagedIsRefresh(pages: map<string, Doc>, userId: Uid, before: Doc, after: Doc)
    ensures Staged(Staged(pages, Matches(pages, "authorId", userId), Values(AuthorUpdate(before, after))),
                   Matches(pages, "lastEditorId", userId), Values(EditorUpdate(before, after)))
         == Propagated(pages, userId, before, after)
  {
    var authorIds, editorIds := Matches(pages, "authorId", userId), Matches(pages, "lastEditorId", userId);
    var authorValues, editorValues := Values(AuthorUpdate(before, after)), Values(EditorUpdate(before, after));
    var first := Staged(pages, authorIds, authorValues);
    var second := Staged(first, editorIds, editorValues);
    var refreshed := Propagated(pages, userId, before, after);
    forall id | id in pages
      ensures second[id] == refreshed[id]
    {
      var withAuthor := if WrittenBy(pages[id], userId) then pages[id] + authorValues else pages[id];
      assert first[id] == withAuthor;
      assert second[id] == if LastEditedBy(pages[id], userId) then withAuthor + editorValues else withAuthor;
    }
  }

  predicate NameChanged(before: Doc, after: Doc)
  {
    Get(after, "displayName") != Get(before, "displayName")
  }

  predicate PhotoChanged(before: Doc, after: Doc)
  {
    Get(after, "photoURL") != Get(before, "photoURL")
  }

  /** A page the user wrote gets `authorDisplayName` exactly when the name
      changed and `authorPhotoURL` exactly when the photo changed, with the
      profile's new values; likewise the `lastEditor` fields for a page the
      user last edited, and a page matching both gets both. A field whose
      source did not change, or whose query did not match, keeps its value. */
  lemma RefreshFields(page: Doc, userId: Uid, before: Doc, after: Doc)
    requires WrittenBy(page, userId) ==> Defined(AuthorUpdate(before, after))
    requires LastEditedBy(page, userId) ==> Defined(EditorUpdate(before, after))
    ensures var p := Refresh(page, userId, before, after);
      && Get(p, "authorDisplayName") ==
           (if WrittenBy(page, userId) && NameChanged(before, after) then Get(after, "displayName") else Get(page, "authorDisplayName"))
      && Get(p, "authorPhotoURL") ==
           (if WrittenBy(page, userId) && PhotoChanged(before, after) then Get(after, "photoURL") else Get(page, "authorPhotoURL"))
      && Get(p, "lastEditorDisplayName") ==
           (if LastEditedBy(page, userId) && NameChanged(before, after) then Get(after, "displayName") else Get(page, "lastEditorDisplayName"))
      && Get(p, "lastEditorPhotoURL") ==
           (if LastEditedBy(page, userId) && PhotoChanged(before, after) then Get(after, "photoURL") else Get(page, "lastEditorPhotoURL"))
  {
    var au, eu := AuthorUpdate(before, after), EditorUpdate(before, after);
    var withAuthor := if WrittenBy(page, userId) then page + Values(au) else page;
    var p := Refresh(page, userId, before, after);
    assert p == if LastEditedBy(page, userId) then withAuthor + Values(eu) else withAuthor;
    forall k | k in DENORMALIZED
      ensures Get(p, k) == (if LastEditedBy(page, userId) && k in eu then Some(eu[k].value) else Get(withAuthor, k))
      ensures Get(withAuthor, k) == (if WrittenBy(page, userId) && k in au then Some(au[k].value) else Get(page, k))
    {
      if LastEditedBy(page, userId) {
        UpdatedField(withAuthor, eu, k);
      }
      if WrittenBy(page, userId) {
        UpdatedField(page, au, k);
      }
    }
  }

  /** A field after a defined update: the update's value when it sets the
      field, the old one otherwise. */
  lemma UpdatedField(page: Doc, u: map<string, Option<Value>>, k: string)
    requires Defined(u)
    ensures Get(page + Values(u), k) == (if k in u then Some(u[k].value) else Get(page, k))
  {
  }

  /** The propagation writes no field but the four copied ones. */
  lemma RefreshKeepsOtherFields(page: Doc, userId: Uid, before: Doc, after: Doc, k: string)
    requires k !in DENORMALIZED
    ensures Get(Refresh(page, userId, before, after), k) == Get(page, k)
  {
    var au, eu := AuthorUpdate(before, after), EditorUpdate(before, after);
    assert k !in au && k !in eu;
    assert k !in Values(au) && k !in Values(eu);
  }

  /** Queuing throws only when a changed field was removed from the profile,
      and only when some page matched. */
  lemma ThrowsOnlyOnRemovedField(pages: map<string, Doc>, userId: Uid, before: Doc, after: Doc)
    ensures Throws(pages, userId, before, after) <==>
      && (Matches(pages, "authorId", userId) != {} || Matches(pages, "lastEditorId", userId) != {})
      && ((NameChanged(before, after) && "displayName" !in after) || (PhotoChanged(before, after) && "photoURL" !in after))
  {
    var au, eu := AuthorUpdate(before, after), EditorUpdate(before, after);
    var removed := (NameChanged(before, after) && "displayName" !in after) || (PhotoChanged(before, after) && "photoURL" !in after);
    if removed {
      if NameChanged(before, after) && "displayName" !in after {
        assert au["authorDisplayName"].None? && eu["lastEditorDisplayName"].None?;
      } else {
        assert au["authorPhotoURL"].None? && eu["lastEditorPhotoURL"].None?;
      }
    } else {
      forall k | k in au
        ensures au[k].Some?
      {
      }
      forall k | k in eu
        ensures eu[k].Some?
      {
      }
    }
  }

  /** After a propagation that did not throw, each page of the collection is
      that page refreshed, and every page the user wrote or last edited
      satisfies the field rules of `RefreshFields`. */
  lemma OutcomePages(pages: map<string, Doc>, userId: Uid, before: Doc, after: Doc, id: string)
    requires id in pages && NameOrPhotoChanged(before, after) && !Throws(pages, userId, before, after)
    ensures UserUpdateOutcome(pages, userId, Some(before), Some(after))[id] == Refresh(pages[id], userId, before, after)
    ensures WrittenBy(pages[id], userId) ==> Defined(AuthorUpdate(before, after))
    ensures LastEditedBy(pages[id], userId) ==> Defined(EditorUpdate(before, after))
  {
    if WrittenBy(pages[id], userId) {
      assert id in Matches(pages, "authorId", userId);
    }
    if LastEditedBy(pages[id], userId) {
      assert id in Matches(pages, "lastEditorId", userId);
    }
  }
}
