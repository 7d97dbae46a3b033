/** Wiki entries as the listing pages read them, the term filter that the
    search page and the associate counts share, and the text of an entry's
    card: its preview and its author label. */
module Articles {
  import opened Common
  import opened Strings
  import opened Html

  /** The fields of a `wiki_pages` document the listing pages use. */
  datatype Article = Article(
    id: string,
    title: string,
    content: string,
    tags: Option<seq<string>>,
    status: Option<string>,
    authorDisplayName: Option<string>,
    authorId: string,
    viewCount: Option<int>)

  /** `article.tags || []`. */
  function TagList(a: Article): seq<string>
  {
    if a.tags.Some? then a.tags.value else []
  }

  /** The lowercased title, content or one of the lowercased tags includes
      `term` (which the callers have lowercased already). */
  predicate Mentions(a: Article, term: string)
  {
    || Contains(Lower(a.title), term)
    || Contains(Lower(a.content), term)
    || (exists t | t in TagList(a) :: Contains(Lower(t), term))
  }

  /** `articles.filter(article => Mentions(article, term))`. */
  function Mentioning(articles: seq<Article>, term: string): (r: seq<Article>)
    ensures |r| <= |articles|
    ensures forall a | a in r :: a in articles && Mentions(a, term)
    ensures forall a | a in articles && Mentions(a, term) :: a in r
  {
    if |articles| == 0 then []
    else if Mentions(articles[0], term) then [articles[0]] + Mentioning(articles[1..], term)
    else Mentioning(articles[1..], term)
  }

  /** The filter works entry by entry, so it keeps the order of the entries. */
  lemma {:induction false} MentioningConcat(a: seq<Article>, b: seq<Article>, term: string)
    ensures Mentioning(a + b, term) == Mentioning(a, term) + Mentioning(b, term)
    decreases |a|
  {
    if |a| > 0 {
      assert (a + b)[1..] == a[1..] + b;
      MentioningConcat(a[1..], b, term);
    } else {
      assert a + b == b;
    }
  }

  /** When every entry mentions the term, the filter keeps them all. */
  lemma {:induction false} MentioningAll(articles: seq<Article>, term: string)
    requires forall a | a in articles :: Mentions(a, term)
    ensures Mentioning(articles, term) == articles
    decreases |articles|
  {
    if |articles| > 0 {
      assert forall a | a in articles[1..] :: a in articles;
      MentioningAll(articles[1..], term);
      assert [articles[0]] + articles[1..] == articles;
    }
  }

  /** Every entry mentions the empty term. */
  lemma MentionsEmpty(a: Article)
    ensures Mentions(a, "")
  {
    ContainsEmpty(Lower(a.title));
  }

  /** An entry mentions a term exactly when the term occurs at some offset of
      its lowercased title, content or one of its lowercased tags. */
  lemma MentionsIffOccurs(a: Article, term: string)
    ensures Mentions(a, term) <==>
      || (exists i :: OccursAt(Lower(a.title), term, i))
      || (exists i :: OccursAt(Lower(a.content), term, i))
      || (exists t, i | t in TagList(a) :: OccursAt(Lower(t), term, i))
  {
    ContainsIffOccurs(Lower(a.title), term);
    ContainsIffOccurs(Lower(a.content), term);
    forall t | t in TagList(a)
      ensures Contains(Lower(t), term) <==> exists i :: OccursAt(Lower(t), term, i)
    {
      ContainsIffOccurs(Lower(t), term);
    }
  }

  /** How many characters of stripped text a card shows. */
  const PREVIEW_LENGTH: nat := 200

  /** `stripHtml(content).substring(0, 200) + "..."`. */
  function Preview(content: string): (r: string)
    ensures 3 <= |r| <= PREVIEW_LENGTH + 3 && r[|r| - 3..] == "..."
    ensures r[..|r| - 3] <= StripHtml(content)
    ensures |StripHtml(content)| >= PREVIEW_LENGTH ==> |r| == PREVIEW_LENGTH + 3
    ensures |StripHtml(content)| < PREVIEW_LENGTH ==> r[..|r| - 3] == StripHtml(content)
  {
    var text := Take(StripHtml(content), PREVIEW_LENGTH);
    assert (text + "...")[..|text|] == text;
    text + "..."
  }

  /** A preview of plain text without `<` is its first 200 characters. */
  lemma PreviewOfPlainText(content: string)
    requires '<' !in content
    ensures Preview(content)[..|Preview(content)| - 3] == Take(content, PREVIEW_LENGTH)
  {
    NoOpenUnchanged(content);
  }

  /** `article.authorDisplayName || article.authorId`. */
  function AuthorLabel(a: Article): (r: string)
    ensures r == a.authorId || (a.authorDisplayName == Some(r) && r != "")
    ensures r == a.authorId <== !Truthy(a.authorDisplayName)
    ensures Truthy(a.authorDisplayName) ==> r == a.authorDisplayName.value
  {
    OrElse(a.authorDisplayName, a.authorId)
  }

  /** `article.viewCount !== undefined`: the view counter is shown; a count of
      zero is still shown. */
  predicate ViewCountShown(a: Article)
  {
    a.viewCount.Some?
  }

  /** The counter shows whenever a count is stored, zero included, and is
      hidden only when the entry has no count. */
  lemma ViewCountShownIff(a: Article)
    ensures ViewCountShown(a) <==> a.viewCount.Some?
    ensures a.viewCount == Some(0) ==> ViewCountShown(a)
  {
  }
}
