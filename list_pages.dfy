/** The pages that list entries: the search page (which collection it reads,
    how it filters, its heading) and the explore page's query gate. */
module ListPages {
  import opened Common
  import opened Strings
  import opened Access
  import opened Articles

  /** The queries the listing pages issue on `wiki_pages`. */
  datatype ArticleQuery =
    | AllPages          // the whole collection
    | PublishedOnly     // `where('status', '==', 'published')`
    | NewestFirst       // `orderBy('createdAt', 'desc')`

  /** The entries a query returns from the collection, listed in `pages`
      order (the store's own ordering is not modelled). */
  function Fetched(q: ArticleQuery, pages: seq<Article>): (r: seq<Article>)
    ensures q != PublishedOnly ==> r == pages
    ensures q == PublishedOnly ==>
      (&& (forall a | a in r :: a in pages && a.status == Some("published"))
       && (forall a | a in pages && a.status == Some("published") :: a in r))
  {
    if q != PublishedOnly || |pages| == 0 then pages
    else if pages[0].status == Some("published") then [pages[0]] + Fetched(q, pages[1..])
    else Fetched(q, pages[1..])
  }

  /** The search page reads the whole collection for editors and admins and
      only published entries for everyone else, signed out included. */
  function SearchQuery(user: Option<Doc>): (q: ArticleQuery)
    ensures q == AllPages <==> CanEdit(user)
    ensures q == PublishedOnly <==> !CanEdit(user)
  {
    if CanEdit(user) then AllPages else PublishedOnly
  }

  /** A visitor who may not edit never sees a draft. */
  lemma NonEditorsSeePublished(user: Option<Doc>, pages: seq<Article>, a: Article)
    requires !CanEdit(user) && a in Fetched(SearchQuery(user), pages)
    ensures a.status == Some("published")
  {
  }

  /** `searchParams.get("q")?.toLowerCase() || ""`. */
  function SearchTerm(param: Option<string>): (q: string)
    ensures param.None? ==> q == ""
    ensures param.Some? ==> |q| == |param.value| && Lower(q) == q
    ensures param.Some? ==> q == Lower(param.value)
  {
    if param.Some? then (LowerIdempotent(param.value); Lower(param.value)) else ""
  }

  /** `filteredArticles`: everything when the term is empty, otherwise the
      entries that mention it. */
  function SearchResults(articles: seq<Article>, q: string): (r: seq<Article>)
    ensures q == "" ==> r == articles
    ensures forall a | a in r :: a in articles
  {
    if q == "" then articles else Mentioning(articles, q)
  }

  /** The empty-term shortcut agrees with the filter, since every entry
      mentions the empty term: the results are always the entries that
      mention the term, in their fetched order. */
  lemma SearchIsMentioning(articles: seq<Article>, q: string)
    ensures SearchResults(articles, q) == Mentioning(articles, q)
    ensures forall a :: a in SearchResults(articles, q) <==> a in articles && Mentions(a, q)
  {
    if q == "" {
      forall a | a in articles
        ensures Mentions(a, q)
      {
        MentionsEmpty(a);
      }
      MentioningAll(articles, q);
    }
  }

  const ALL_ENTRIES := "All Entries"

  /** `q ? 'Search Results for "q"' : 'All Entries'`. */
  function Heading(q: string): (h: string)
    ensures q == "" ==> h == ALL_ENTRIES
    ensures q != "" ==> |h| == 21 + |q| && h[..20] == "Search Results for \"" && h[20..] == q + "\""
  {
    if q != "" then "Search Results for \"" + q + "\"" else ALL_ENTRIES
  }

  /** The explore page issues no query while the session is still loading. */
  function ExploreQuery(isAuthLoading: bool): (q: Option<ArticleQuery>)
    ensures q.Some? <==> !isAuthLoading
    ensures q.Some? ==> q.value == NewestFirst
  {
    if isAuthLoading then None else Some(NewestFirst)
  }
}
