/** Where the entry's author is recorded. The editor writes the creator's uid
    under `author` and checks `author` before a delete; the admin dashboard's
    delete check and the profile propagation read `authorId`, which no
    record the editor creates has. These lemmas state what follows for an
    entry created through the editor. */
module AuthorFields {
  import opened Common
  import opened Access
  import opened ArticleEditor
  import AdminPage
  import FunctionsSrc

  /** The record a creation writes names the creator under `author` and as
      last editor, and has no `authorId`: no user counts as its writer for
      the propagation, and its creator counts as its last editor. */
  lemma CreatedRecordAuthor(user: Doc, values: FormValues, imgSrc: string, newId: string, u: string)
    requires Plan(Some(user), None, values, imgSrc, newId).CreatePage?
    ensures var r := Plan(Some(user), None, values, imgSrc, newId).record;
      && Get(r, "author") == Get(user, "uid") == Get(r, "lastEditorId")
      && "authorId" !in r
      && !FunctionsSrc.WrittenBy(r, u)
      && (FunctionsSrc.LastEditedBy(r, u) <==> Get(user, "uid") == Some(Str(u)))
  {
    var tags := ParseTags(values.tags);
    var d := ArticleData(values, tags, imgSrc, user).value;
    NewArticleRecord(d, user["uid"], newId);
  }

  /** An editor may delete an entry the editor created, in the editor; the
      dashboard's check, which reads `authorId`, would refuse the same
      editor the same entry. */
  lemma EditorsOwnEntry(user: Doc, values: FormValues, imgSrc: string, newId: string)
    requires UserRole(Some(user)) == Some("Editor")
    requires Plan(Some(user), None, values, imgSrc, newId).CreatePage?
    ensures var r := Plan(Some(user), None, values, imgSrc, newId).record;
      && CanDelete(Some(user), Some(EditedArticle(newId, r)))
      && !AdminPage.CanDeleteArticle(user, r)
  {
    CreatedRecordAuthor(user, values, imgSrc, newId, "");
  }

  /** A profile change never refreshes the author fields of an entry created
      through the editor: the `authorId` query does not find it, whoever the
      user is, and its `authorDisplayName` and `authorPhotoURL` keep the
      values copied at creation, while its creator's edits refresh the
      `lastEditor` fields. */
  lemma AuthorNameGoesStale(
    user: Doc, values: FormValues, imgSrc: string, newId: string,
    pages: map<string, Doc>, u: string, before: Doc, after: Doc)
    requires Plan(Some(user), None, values, imgSrc, newId).CreatePage?
    requires newId in pages && pages[newId] == Plan(Some(user), None, values, imgSrc, newId).record
    ensures newId !in FunctionsSrc.Matches(pages, "authorId", u)
    ensures var r := pages[newId];
      var p := FunctionsSrc.Refresh(r, u, before, after);
      && Get(p, "authorDisplayName") == Get(r, "authorDisplayName")
      && Get(p, "authorPhotoURL") == Get(r, "authorPhotoURL")
  {
    CreatedRecordAuthor(user, values, imgSrc, newId, u);
    UnwrittenKeepsAuthor(pages, newId, u, before, after);
  }

  /** The author fields of a page without `authorId` survive any refresh. */
  lemma UnwrittenKeepsAuthor(pages: map<string, Doc>, id: string, u: string, before: Doc, after: Doc)
    requires id in pages && "authorId" !in pages[id]
    ensures id !in FunctionsSrc.Matches(pages, "authorId", u)
    ensures var r := pages[id];
      var p := FunctionsSrc.Refresh(r, u, before, after);
      && Get(p, "authorDisplayName") == Get(r, "authorDisplayName")
      && Get(p, "authorPhotoURL") == Get(r, "authorPhotoURL")
  {
    var eu := FunctionsSrc.EditorUpdate(before, after);
    assert "authorDisplayName" !in FunctionsSrc.Values(eu) && "authorPhotoURL" !in FunctionsSrc.Values(eu);
  }
}
