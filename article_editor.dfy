/** The entry editor: who may delete the entry, how the tag field is parsed,
    when an edit counts as a change, the record a save writes, the insertion
    of generated content, and the submit and delete handlers. */
module ArticleEditor {
  import opened Common
  import opened Platform
  import opened Strings
  import opened Access
  import opened NonBlockingUpdates

  /** The entry being edited: its document id and its fields. */
  datatype EditedArticle = EditedArticle(id: string, fields: Doc)

  /** The form's three fields. */
  datatype FormValues = FormValues(title: string, tags: string, content: string)

  /** `canDelete`: a signed-in user, an existing entry, and either the Admin
      role or the Editor role on an entry whose `author` field is the user's
      uid (strict equality, so an entry and a user both lacking the field
      also compare equal). */
  predicate CanDelete(user: Option<Doc>, article: Option<EditedArticle>)
  {
    && user.Some? && article.Some?
    && (|| UserRole(user) == Some("Admin")
        || (UserRole(user) == Some("Editor") && Get(article.value.fields, "author") == Get(user.value, "uid")))
  }

  /** Only admins and editors may delete; an admin may delete any entry, an
      editor exactly the entries whose `author` is the editor's uid. */
  lemma CanDeleteByRole(user: Option<Doc>, article: Option<EditedArticle>)
    ensures CanDelete(user, article) ==> CanEdit(user)
    ensures user.Some? && article.Some? && IsAdminUser(user) ==> CanDelete(user, article)
    ensures user.Some? && article.Some? && UserRole(user) == Some("Editor") ==>
      (CanDelete(user, article) <==> Get(article.value.fields, "author") == Get(user.value, "uid"))
    ensures RoleOf(user) == Some(Viewer) ==> !CanDelete(user, article)
  {
  }

  /** `values.tags.split(',').map(tag => tag.trim())`. */
  function ParseTags(input: string): (tags: seq<string>)
    ensures |tags| == Count(input, ',') + 1 == |Split(input, ',')|
    ensures forall i | 0 <= i < |tags| :: tags[i] == Trim(Split(input, ',')[i])
  {
    var parts := Split(input, ',');
    SplitLength(input, ',');
    seq(|parts|, i requires 0 <= i < |parts| => Trim(parts[i]))
  }

  /** Each parsed tag is free of commas and of surrounding whitespace. */
  lemma ParsedTagsClean(input: string, i: nat)
    requires i < |ParseTags(input)|
    ensures ',' !in ParseTags(input)[i]
    ensures ParseTags(input)[i] != [] ==>
      !IsTrimmable(ParseTags(input)[i][0]) && !IsTrimmable(ParseTags(input)[i][|ParseTags(input)[i]| - 1])
  {
    var part := Split(input, ',')[i];
    SplitPartsFree(input, ',');
    TrimShape(part);
  }

  /** The outcome of `hasChanges`: the check throws when it reaches
      `article.tags.sort()` and the stored tags are not a list; otherwise it
      tells whether anything changed, together with the new tags as the
      check leaves them (`newTags.sort()` sorts them in place, but only when
      the title is unchanged so that the comparison is reached). */
  datatype ChangeCheck = Throws | Checked(changed: bool, tags: seq<string>)

  function CheckChanges(article: EditedArticle, values: FormValues, newTags: seq<string>, imgSrc: string): (c: ChangeCheck)
    ensures c.Throws? <==> Get(article.fields, "title") == Some(Str(values.title)) && !(Get(article.fields, "tags").Some? && Get(article.fields, "tags").value.StrList?)
    ensures c.Checked? ==> multiset(c.tags) == multiset(newTags)
    ensures c.Checked? && c.tags != newTags ==> Sorted(c.tags)
    ensures c.Checked? ==> c.tags == (if Get(article.fields, "title") == Some(Str(values.title)) then Sort(newTags) else newTags)
  {
    var f := article.fields;
    if Get(f, "title") != Some(Str(values.title)) then Checked(true, newTags)
    else match Get(f, "tags")
      case Some(StrList(stored)) =>
        var sorted := Sort(newTags);
        Checked(Sort(stored) != sorted || Get(f, "content") != Some(Str(values.content)) || Get(f, "imageUrl") != Some(Str(imgSrc)), sorted)
      case _ => Throws
  }

  /** No change is detected exactly when title, content and image are as
      stored and the new tags are the stored ones in any order. */
  lemma NoChangesIff(article: EditedArticle, values: FormValues, newTags: seq<string>, imgSrc: string)
    ensures (CheckChanges(article, values, newTags, imgSrc).Checked? && !CheckChanges(article, values, newTags, imgSrc).changed)
      <==> && Get(article.fields, "title") == Some(Str(values.title))
           && Get(article.fields, "content") == Some(Str(values.content))
           && Get(article.fields, "imageUrl") == Some(Str(imgSrc))
           && Get(article.fields, "tags").Some? && Get(article.fields, "tags").value.StrList?
           && multiset(Get(article.fields, "tags").value.items) == multiset(newTags)
  {
    var f := article.fields;
    if Get(f, "title") == Some(Str(values.title)) && Get(f, "tags").Some? && Get(f, "tags").value.StrList? {
      var stored := Get(f, "tags").value.items;
      if multiset(stored) == multiset(newTags) {
        SortIgnoresOrder(stored, newTags);
      }
      if Sort(stored) == Sort(newTags) {
        assert multiset(stored) == multiset(Sort(stored)) == multiset(Sort(newTags)) == multiset(newTags);
      }
    }
  }

  /** `a || b` on two fields of the cached user; `None` is `undefined`. */
  function FieldOr(user: Doc, first: string, fallback: string): (v: Option<Value>)
    ensures first in user && ValueTruthy(user[first]) ==> v == Some(user[first])
    ensures !(first in user && ValueTruthy(user[first])) ==> v == Get(user, fallback)
  {
    if first in user && ValueTruthy(user[first]) then Some(user[first]) else Get(user, fallback)
  }

  /** `user.photoURL || null`. */
  function PhotoOrNull(user: Doc): (v: Value)
    ensures v == Null || ("photoURL" in user && v == user["photoURL"] && ValueTruthy(v))
  {
    if "photoURL" in user && ValueTruthy(user["photoURL"]) then user["photoURL"] else Null
  }

  const SAVE_FIELDS: set<string> := {"title", "tags", "content", "updatedAt", "imageUrl",
                                     "lastEditorId", "lastEditorDisplayName", "lastEditorPhotoURL"}

  /** The fields every save writes. `None` when the user's uid or both its
      name and email are undefined: the client library refuses a write
      holding `undefined` before sending it. */
  function ArticleData(values: FormValues, tags: seq<string>, imgSrc: string, user: Doc): (r: Option<Doc>)
    ensures r.Some? <==> "uid" in user && FieldOr(user, "displayName", "email").Some?
    ensures r.Some? ==>
      (&& r.value.Keys == SAVE_FIELDS
       && r.value["title"] == Str(values.title) && r.value["content"] == Str(values.content)
       && r.value["tags"] == StrList(tags) && r.value["imageUrl"] == Str(imgSrc)
       && r.value["updatedAt"] == ServerTimestamp
       && r.value["lastEditorId"] == user["uid"]
       && Some(r.value["lastEditorDisplayName"]) == FieldOr(user, "displayName", "email")
       && r.value["lastEditorPhotoURL"] == PhotoOrNull(user))
  {
    var name := FieldOr(user, "displayName", "email");
    if "uid" !in user || name.None? then None
    else Some(map[
      "title" := Str(values.title),
      "tags" := StrList(tags),
      "content" := Str(values.content),
      "updatedAt" := ServerTimestamp,
      "imageUrl" := Str(imgSrc),
      "lastEditorId" := user["uid"],
      "lastEditorDisplayName" := name.value,
      "lastEditorPhotoURL" := PhotoOrNull(user)])
  }

  /** The fields a creation adds to the save's fields. */
  const CREATION_FIELDS: set<string> := {"id", "createdAt", "author", "authorDisplayName", "authorPhotoURL", "viewCount"}

  /** The record a new entry is created with: the save's fields `data` plus
      its id, creation time, author fields copied from the editor fields,
      and a zero view count. The author's uid goes under `author`. */
  function NewArticleDoc(data: Doc, uid: Value, newId: string): (r: Doc)
    requires "lastEditorDisplayName" in data && "lastEditorPhotoURL" in data
    ensures r.Keys == data.Keys + CREATION_FIELDS
    ensures forall k | k in data && k !in CREATION_FIELDS :: r[k] == data[k]
    ensures r["id"] == Str(newId) && r["createdAt"] == ServerTimestamp && r["viewCount"] == Int(0)
    ensures r["author"] == uid
    ensures r["authorDisplayName"] == data["lastEditorDisplayName"] && r["authorPhotoURL"] == data["lastEditorPhotoURL"]
  {
    data + map[
      "id" := Str(newId),
      "createdAt" := ServerTimestamp,
      "author" := uid,
      "authorDisplayName" := data["lastEditorDisplayName"],
      "authorPhotoURL" := data["lastEditorPhotoURL"],
      "viewCount" := Int(0)]
  }

  /** A new entry's record names the creator as both author and last editor,
      under `author`; it has no `authorId` field. */
  lemma NewArticleRecord(data: Doc, uid: Value, newId: string)
    requires data.Keys == SAVE_FIELDS && data["lastEditorId"] == uid
    ensures var r := NewArticleDoc(data, uid, newId);
      && r["author"] == r["lastEditorId"] == uid
      && r["authorDisplayName"] == r["lastEditorDisplayName"]
      && "authorId" !in r
  {
    assert "lastEditorId" in data && "lastEditorId" !in CREATION_FIELDS;
    assert "lastEditorDisplayName" !in CREATION_FIELDS;
    assert "authorId" !in SAVE_FIELDS + CREATION_FIELDS;
  }

  /** What a submit does, decided before any write. */
  datatype SubmitPlan =
    | NotSignedIn
    | Fails                               // a thrown error before the write
    | NoChanges(route: string)
    | UpdatePage(id: string, data: Doc)
    | CreatePage(id: string, record: Doc)

  function ArticleRoute(id: string): string
  {
    "/article/" + id
  }

  function Plan(user: Option<Doc>, article: Option<EditedArticle>, values: FormValues, imgSrc: string, newId: string): (p: SubmitPlan)
    ensures p == NotSignedIn <==> user.None?
    ensures p.UpdatePage? ==> article.Some? && p.id == article.value.id
    ensures p.CreatePage? ==> article.None? && p.id == newId
    ensures p.NoChanges? ==> article.Some? && p.route == ArticleRoute(article.value.id)
  {
    if user.None? then NotSignedIn
    else
      var tags := ParseTags(values.tags);
      if article.Some? then
        match CheckChanges(article.value, values, tags, imgSrc)
        case Throws => Fails
        case Checked(changed, checkedTags) =>
          if !changed then NoChanges(ArticleRoute(article.value.id))
          else match ArticleData(values, checkedTags, imgSrc, user.value)
            case None => Fails
            case Some(d) => UpdatePage(article.value.id, d)
      else match ArticleData(values, tags, imgSrc, user.value)
        case None => Fails
        case Some(d) => CreatePage(newId, NewArticleDoc(d, user.value["uid"], newId))
  }

  /** An edit leaving the entry as stored, tags in any order, writes nothing. */
  lemma UnchangedEditWritesNothing(user: Doc, article: EditedArticle, values: FormValues, imgSrc: string, newId: string)
    requires Get(article.fields, "title") == Some(Str(values.title))
    requires Get(article.fields, "content") == Some(Str(values.content))
    requires Get(article.fields, "imageUrl") == Some(Str(imgSrc))
    requires Get(article.fields, "tags").Some? && Get(article.fields, "tags").value.StrList?
    requires multiset(Get(article.fields, "tags").value.items) == multiset(ParseTags(values.tags))
    ensures Plan(Some(user), Some(article), values, imgSrc, newId) == NoChanges(ArticleRoute(article.id))
  {
    NoChangesIff(article, values, ParseTags(values.tags), imgSrc);
  }

  /** A stored entry without `imageUrl` always counts as changed, even when
      the editor's image is the empty string it starts from. */
  lemma MissingImageAlwaysChanged(article: EditedArticle, values: FormValues, newTags: seq<string>)
    requires "imageUrl" !in article.fields
    ensures CheckChanges(article, values, newTags, "") != Checked(false, newTags)
    ensures CheckChanges(article, values, newTags, "").Checked? ==> CheckChanges(article, values, newTags, "").changed
  {
  }

  /** `currentContent ? currentContent + "<br>" + generated : generated`. */
  function InsertGenerated(current: string, generated: string): (r: string)
    ensures current == "" ==> r == generated
    ensures current != "" ==>
      (&& |r| == |current| + 4 + |generated|
       && r[..|current|] == current
       && r[|current|..|current| + 4] == "<br>"
       && r[|current| + 4..] == generated)
  {
    if current != "" then current + "<br>" + generated else generated
  }

  /** The editor component's state: the submit flag, the chosen header
      image, the form's content field, the AI dialog, and the toasts and
      navigations it has produced so far (titles and paths). */
  class ArticleEditor {
    var isSubmitting: bool
    var imgSrc: string
    var content: string
    var isAiDialogOpen: bool
    var toasts: seq<string>
    var routes: seq<string>

    /** Opening the editor on an entry, or on nothing for a new entry. */
    constructor(article: Option<EditedArticle>)
      ensures !isSubmitting && !isAiDialogOpen && toasts == [] && routes == []
      ensures imgSrc == if article.Some? then OrElse(StrField(article.value.fields, "imageUrl"), "") else ""
      ensures content == if article.Some? then OrElse(StrField(article.value.fields, "content"), "") else ""
    {
      isSubmitting := false;
      isAiDialogOpen := false;
      toasts := [];
      routes := [];
      imgSrc := if article.Some? then OrElse(StrField(article.value.fields, "imageUrl"), "") else "";
      content := if article.Some? then OrElse(StrField(article.value.fields, "content"), "") else "";
    }

    /** "Insert into Editor": appends the generated content, when there is
      any, and closes the dialog. */
    method InsertIntoEditor(generated: string)
      modifies this
      ensures content == if generated != "" then InsertGenerated(old(content), generated) else old(content)
      ensures toasts == old(toasts) + (if generated != "" then ["Content Inserted"] else [])
      ensures !isAiDialogOpen
      ensures isSubmitting == old(isSubmitting) && imgSrc == old(imgSrc) && routes == old(routes)
    {
      if generated != "" {
        content := InsertGenerated(content, generated);
        toasts := toasts + ["Content Inserted"];
      }
      isAiDialogOpen := false;
    }

    /** `handleDelete`: without permission nothing happens; otherwise the
      entry is deleted and the editor navigates home, or the failure is
      shown and the form re-enabled. */
    method HandleDelete(b: Backend, emitter: ErrorEmitter, user: Option<Doc>, article: Option<EditedArticle>, rejection: Option<string>)
      modifies this, b, emitter
      ensures b.users == old(b.users) && b.accounts == old(b.accounts) && b.claims == old(b.claims)
      ensures imgSrc == old(imgSrc) && content == old(content) && isAiDialogOpen == old(isAiDialogOpen)
      ensures !CanDelete(user, article) ==>
        (&& b.pages == old(b.pages) && emitter.emitted == old(emitter.emitted)
         && isSubmitting == old(isSubmitting) && toasts == old(toasts) && routes == old(routes))
      ensures CanDelete(user, article) && rejection.None? ==>
        (&& b.pages == old(b.pages) - {article.value.id}
         && isSubmitting && toasts == old(toasts) + ["Entry Deleted"] && routes == old(routes) + ["/"])
      ensures CanDelete(user, article) && rejection.Some? ==>
        (&& b.pages == old(b.pages) && |emitter.emitted| == |old(emitter.emitted)| + 1
         && !isSubmitting && toasts == old(toasts) + ["Delete Failed"] && routes == old(routes))
    {
      if !CanDelete(user, article) {
        return;
      }
      isSubmitting := true;
      var r := DeleteDocument(b, emitter, DocRef(WikiPages, article.value.id), rejection);
      if r.Success? {
        toasts := toasts + ["Entry Deleted"];
        routes := routes + ["/"];
      } else {
        toasts := toasts + ["Delete Failed"];
        isSubmitting := false;
      }
    }

    /** `onSubmit`: carries out `Plan`. `newId` is the id the store draws for
      a new entry and `rejection` the store's answer to the write. Whatever
      happens after the sign-in check, the form ends re-enabled. */
    method OnSubmit(b: Backend, emitter: ErrorEmitter, user: Option<Doc>, article: Option<EditedArticle>,
                    values: FormValues, newId: string, rejection: Option<string>)
      modifies this, b, emitter
      ensures b.users == old(b.users) && b.accounts == old(b.accounts) && b.claims == old(b.claims)
      ensures imgSrc == old(imgSrc) && content == old(content) && isAiDialogOpen == old(isAiDialogOpen)
      ensures var p := Plan(user, article, values, old(imgSrc), newId);
        match p
        case NotSignedIn =>
          && b.pages == old(b.pages) && emitter.emitted == old(emitter.emitted)
          && isSubmitting == old(isSubmitting) && toasts == old(toasts) + ["Authentication Error"] && routes == old(routes)
        case Fails =>
          && b.pages == old(b.pages) && emitter.emitted == old(emitter.emitted)
          && !isSubmitting && toasts == old(toasts) + ["Submission Failed"] && routes == old(routes)
        case NoChanges(route) =>
          && b.pages == old(b.pages) && emitter.emitted == old(emitter.emitted)
          && !isSubmitting && toasts == old(toasts) + ["No Changes Detected"] && routes == old(routes) + [route]
        case UpdatePage(id, data) =>
          && !isSubmitting
          && (if rejection.None? && id in old(b.pages) then
                && b.pages == old(b.pages)[id := old(b.pages)[id] + data]
                && toasts == old(toasts) + ["Entry Updated"] && routes == old(routes) + [ArticleRoute(id)]
              else
                && b.pages == old(b.pages) && |emitter.emitted| == |old(emitter.emitted)| + 1
                && toasts == old(toasts) + ["Submission Failed"] && routes == old(routes))
        case CreatePage(id, record) =>
          && !isSubmitting
          && (if rejection.None? then
                && b.pages == old(b.pages)[id := record]
                && toasts == old(toasts) + ["Entry Created"] && routes == old(routes) + [ArticleRoute(id)]
              else
                && b.pages == old(b.pages) && |emitter.emitted| == |old(emitter.emitted)| + 1
                && toasts == old(toasts) + ["Submission Failed"] && routes == old(routes))
    {
      var p := Plan(user, article, values, imgSrc, newId);
      match p {
        case NotSignedIn =>
          toasts := toasts + ["Authentication Error"];
        case Fails =>
          toasts := toasts + ["Submission Failed"];
          isSubmitting := false;
        case NoChanges(route) =>
          toasts := toasts + ["No Changes Detected"];
          routes := routes + [route];
          isSubmitting := false;
        case UpdatePage(id, data) =>
          SaveEdit(b, emitter, id, data, rejection);
        case CreatePage(id, record) =>
          SaveNew(b, emitter, id, record, rejection);
      }
    }

    /** The write of an edited entry and what the editor shows after it. */
    method SaveEdit(b: Backend, emitter: ErrorEmitter, id: string, data: Doc, rejection: Option<string>)
      modifies this, b, emitter
      ensures b.users == old(b.users) && b.accounts == old(b.accounts) && b.claims == old(b.claims)
      ensures imgSrc == old(imgSrc) && content == old(content) && isAiDialogOpen == old(isAiDialogOpen)
      ensures !isSubmitting
      ensures if rejection.None? && id in old(b.pages) then
          && b.pages == old(b.pages)[id := old(b.pages)[id] + data]
          && toasts == old(toasts) + ["Entry Updated"] && routes == old(routes) + [ArticleRoute(id)]
        else
          && b.pages == old(b.pages) && |emitter.emitted| == |old(emitter.emitted)| + 1
          && toasts == old(toasts) + ["Submission Failed"] && routes == old(routes)
    {
      isSubmitting := true;
      var r := UpdateDocument(b, emitter, DocRef(WikiPages, id), data, rejection);
      if r.Success? {
        toasts := toasts + ["Entry Updated"];
        routes := routes + [ArticleRoute(id)];
      } else {
        toasts := toasts + ["Submission Failed"];
      }
      isSubmitting := false;
    }

    /** The write of a new entry and what the editor shows after it. */
    method SaveNew(b: Backend, emitter: ErrorEmitter, id: string, record: Doc, rejection: Option<string>)
      modifies this, b, emitter
      ensures b.users == old(b.users) && b.accounts == old(b.accounts) && b.claims == old(b.claims)
      ensures imgSrc == old(imgSrc) && content == old(content) && isAiDialogOpen == old(isAiDialogOpen)
      ensures !isSubmitting
      ensures if rejection.None? then
          && b.pages == old(b.pages)[id := record]
          && toasts == old(toasts) + ["Entry Created"] && routes == old(routes) + [ArticleRoute(id)]
        else
          && b.pages == old(b.pages) && |emitter.emitted| == |old(emitter.emitted)| + 1
          && toasts == old(toasts) + ["Submission Failed"] && routes == old(routes)
    {
      isSubmitting := true;
      var r := SetDocument(b, emitter, DocRef(WikiPages, id), record, rejection);
      if r.Success? {
        toasts := toasts + ["Entry Created"];
        routes := routes + [ArticleRoute(id)];
      } else {
        toasts := toasts + ["Submission Failed"];
      }
      isSubmitting := false;
    }
  }
}
