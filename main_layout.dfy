/** The layout every page is wrapped in: the login and sign-up pages are
    shown bare and centred, every other page inside the sidebar and header
    shell. */
module MainLayout {

  /** `pathname === '/login' || pathname === '/signup'`. */
  predicate IsAuthPage(path: string)
  {
    path == "/login" || path == "/signup"
  }

  datatype Rendered<T> =
    | Centered(content: T)                   // the auth pages
    | Shell(sidebar: bool, header: bool, main: T)

  function Layout<T>(path: string, children: T): (r: Rendered<T>)
    ensures r.Centered? <==> IsAuthPage(path)
    ensures r.Shell? ==> r.sidebar && r.header
    ensures (r.Centered? && r.content == children) || (r.Shell? && r.main == children)
  {
    if IsAuthPage(path) then Centered(children) else Shell(true, true, children)
  }

  /** Only the exact paths count: a longer path that starts with one of
      them, or that one of them starts with, gets the shell. */
  lemma ExactPathsOnly<T>(suffix: string, children: T)
    requires suffix != ""
    ensures Layout("/login" + suffix, children).Shell?
    ensures Layout("/signup" + suffix, children).Shell?
    ensures Layout("/log", children).Shell? && Layout("/", children).Shell?
  {
    assert ("/login" + suffix)[1] == 'l' && "/signup"[1] == 's';
  }
}
