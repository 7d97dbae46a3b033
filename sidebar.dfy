/** The navigation sidebar: the article count next to each associate, the
    links shown to each role, and the signed-in block. */
module Sidebar {
  import opened Common
  import opened Strings
  import opened Access
  import opened Articles
  import opened ListPages
  import opened UserLabels

  /** `getAssociateArticleCount`: 0 until the entries have loaded, then the
      number of entries that mention the lowercased name. */
  function AssociateArticleCount(articles: Option<seq<Article>>, name: string): (n: nat)
    ensures articles.None? ==> n == 0
    ensures articles.Some? ==> n <= |articles.value|
    ensures articles.Some? && n == 0 ==> forall a | a in articles.value :: !Mentions(a, Lower(name))
  {
    if articles.None? then 0 else |Mentioning(articles.value, Lower(name))|
  }

  /** The count beside an associate is the number of results the search page
      lists, for a visitor who sees every entry, when searched for the
      associate's name. */
  lemma CountIsSearchCount(articles: seq<Article>, name: string)
    ensures AssociateArticleCount(Some(articles), name) == |SearchResults(articles, SearchTerm(Some(name)))|
  {
    SearchIsMentioning(articles, Lower(name));
  }

  /** An entry tagged with the lowercased name always counts. */
  lemma TaggedEntryCounts(articles: seq<Article>, name: string, a: Article)
    requires a in articles && Lower(name) in TagList(a)
    ensures AssociateArticleCount(Some(articles), name) > 0
  {
    LowerIdempotent(name);
    ContainsIffOccurs(Lower(Lower(name)), Lower(name));
    assert OccursAt(Lower(Lower(name)), Lower(name), 0);
    assert a in Mentioning(articles, Lower(name));
  }

  /** The links of the middle menu. */
  datatype NavLink = ExploreLink | CreateLink | AdminLink

  function NavLinks(user: Option<Doc>): (links: seq<NavLink>)
    ensures |links| >= 1 && links[0] == ExploreLink
    ensures CreateLink in links <==> CanEdit(user)
    ensures AdminLink in links <==> IsAdminUser(user)
    ensures |links| == 1 + (if CanEdit(user) then 1 else 0) + (if IsAdminUser(user) then 1 else 0)
    ensures forall i, j | 0 <= i < j < |links| :: links[i] != links[j]
  {
    [ExploreLink] + (if CanEdit(user) then [CreateLink] else []) + (if IsAdminUser(user) then [AdminLink] else [])
  }

  /** Whoever is shown the admin link is shown the create link too, and a
      viewer is shown only the explore link. */
  lemma AdminLinkImpliesCreate(user: Option<Doc>)
    ensures AdminLink in NavLinks(user) ==> CreateLink in NavLinks(user)
    ensures RoleOf(user) == Some(Viewer) ==> NavLinks(user) == [ExploreLink]
  {
    if IsAdminUser(user) {
      AdminCanEdit(user);
    }
  }

  /** The block under the menu: a placeholder while the session loads,
      nothing when signed out, else the signed-in label. When the display
      name is falsy and the cached user has no email, `email.split` throws
      during rendering. */
  datatype AccountBlock = Placeholder | NoBlock | SignedInAs(name: string) | RenderError

  function SignedInBlock(loading: bool, user: Option<Doc>): (b: AccountBlock)
    ensures loading <==> b == Placeholder
    ensures !loading && user.None? <==> b == NoBlock
    ensures b.SignedInAs? ==>
      b.name == Username(StrField(user.value, "displayName"), OrElse(StrField(user.value, "email"), ""))
    ensures b == RenderError <==>
      !loading && user.Some? && !Truthy(StrField(user.value, "displayName")) && StrField(user.value, "email").None?
  {
    if loading then Placeholder
    else if user.None? then NoBlock
    else
      var name := StrField(user.value, "displayName");
      var email := StrField(user.value, "email");
      if !Truthy(name) && email.None? then RenderError
      else SignedInAs(Username(name, OrElse(email, "")))
  }
}
