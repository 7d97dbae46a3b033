/** The header: the cart badge, the route the search box submits to, and
    what the search page reads back from that route. */
module HeaderClient {
  import opened Common
  import opened Strings
  import opened Cart
  import opened Uri
  import opened ListPages

  /** The badge over the cart icon: the item count, shown only when it is
      positive. */
  function CartBadge(items: seq<CartItem>): (b: Option<int>)
    ensures b.Some? <==> TotalItems(items) > 0
    ensures b.Some? ==> b.value == TotalItems(items)
  {
    if TotalItems(items) > 0 then Some(TotalItems(items)) else None
  }

  /** In a cart whose every line holds at least one unit, the item count is
      at least the number of lines. */
  lemma {:induction false} TotalItemsAtLeastLines(items: seq<CartItem>)
    requires forall j | 0 <= j < |items| :: items[j].quantity >= 1
    ensures TotalItems(items) >= |items|
    decreases |items|
  {
    if |items| > 0 {
      TotalItemsAtLeastLines(items[1..]);
    }
  }

  /** The badge of a cart built by the provider shows exactly when the cart
      has a line. */
  lemma BadgeIffNonEmpty(items: seq<CartItem>)
    requires WellFormed(items)
    ensures CartBadge(items).Some? <==> |items| > 0
  {
    TotalItemsAtLeastLines(items);
  }

  const SEARCH_PATH := "/search"
  const SEARCH_PREFIX := "/search?q="

  /** `handleSearch`: the encoded text as the `q` parameter, or the bare
      search page for an empty box. */
  function SearchRoute(query: string): (r: string)
    ensures query == "" ==> r == SEARCH_PATH
    ensures query != "" ==>
      (&& |r| >= |SEARCH_PREFIX| + |query| && r[..|SEARCH_PREFIX|] == SEARCH_PREFIX
       && NoSeparator(r[|SEARCH_PREFIX|..]))
  {
    if query != "" then
      var e := Encode(query);
      EncodedHasNoSeparators(query);
      assert (SEARCH_PREFIX + e)[|SEARCH_PREFIX|..] == e;
      SEARCH_PREFIX + e
    else SEARCH_PATH
  }

  /** The `q` parameter of a route of the shape the header builds, decoded.
      The encoded text holds no `&` or `#`, so the whole rest of the route is
      the parameter's value. */
  function QueryParam(route: string): Option<string>
  {
    if |route| >= |SEARCH_PREFIX| && route[..|SEARCH_PREFIX|] == SEARCH_PREFIX
    then Decode(route[|SEARCH_PREFIX|..])
    else None
  }

  /** The search page filters by exactly the lowercased text typed into the
      header's search box, whatever characters it holds. */
  lemma SearchRouteRoundTrip(query: string)
    ensures SearchTerm(QueryParam(SearchRoute(query))) == Lower(query)
  {
    if query != "" {
      var r := SearchRoute(query);
      assert r[|SEARCH_PREFIX|..] == Encode(query);
      DecodeEncode(query);
    }
  }
}
