/** The dashboard's top navigation: which of its five links is highlighted for a page path. */
module TopbarNav {
  import opened Text

  datatype NavItem = Overview | Deception | Theater | Sentry | Orchestration

  const NavItems := [Overview, Deception, Theater, Sentry, Orchestration]

  function Href(item: NavItem): string {
    match item
    case Overview => "/overview"
    case Deception => "/deception"
    case Theater => "/deception/theater"
    case Sentry => "/sentry"
    case Orchestration => "/orchestration"
  }

  function Label(item: NavItem): string {
    match item
    case Overview => "Overview"
    case Deception => "Deception"
    case Theater => "Theater"
    case Sentry => "Sentry"
    case Orchestration => "Orchestration"
  }

  /** Whether the item's link is highlighted on the page at `pathname`; each test is a plain
    * string prefix, not a path-segment prefix. */
  predicate Matches(item: NavItem, pathname: string)
    ensures Matches(item, pathname) ==>
              || StartsWith(pathname, Href(item))
              || (item == Overview && pathname == "/")
              || (item == Theater && StartsWith(pathname, "/theater"))
  {
    match item
    case Overview => pathname == "/" || StartsWith(pathname, "/overview")
    case Deception => StartsWith(pathname, "/deception") && !StartsWith(pathname, "/deception/theater")
    case Theater => StartsWith(pathname, "/deception/theater") || StartsWith(pathname, "/theater")
    case Sentry => StartsWith(pathname, "/sentry")
    case Orchestration => StartsWith(pathname, "/orchestration")
  }

  /** Every link is highlighted on its own page. */
  lemma {:induction false} EachItemMatchesItsHref(item: NavItem)
    ensures Matches(item, Href(item))
  {
    if item == Deception {
      assert !StartsWith("/deception", "/deception/theater");
    }
  }

  /** Under /deception exactly one of Deception and Theater is highlighted. */
  lemma DeceptionOrTheater(pathname: string)
    requires StartsWith(pathname, "/deception")
    ensures Matches(Deception, pathname) != Matches(Theater, pathname)
  {
    assert pathname[1] == 'd' by {
      assert pathname[..10] == "/deception";
      assert pathname[1] == "/deception"[1];
    }
    if Matches(Theater, pathname) {
      Shape(Theater, pathname);
    }
  }

  /** The characters after the leading '/' that tell the items apart. */
  lemma {:induction false} Shape(item: NavItem, pathname: string)
    requires Matches(item, pathname)
    ensures item == Overview ==> pathname == "/" || (|pathname| > 2 && pathname[1] == 'o' && pathname[2] == 'v')
    ensures item == Deception ==> |pathname| > 1 && pathname[1] == 'd' && !StartsWith(pathname, "/deception/theater")
    ensures item == Theater ==> StartsWith(pathname, "/deception/theater") || (|pathname| > 1 && pathname[1] == 't')
    ensures item == Sentry ==> |pathname| > 1 && pathname[1] == 's'
    ensures item == Orchestration ==> |pathname| > 2 && pathname[1] == 'o' && pathname[2] == 'r'
  {
    match item
    case Overview =>
      if pathname != "/" {
        assert pathname[..9] == "/overview";
        assert pathname[1] == "/overview"[1] && pathname[2] == "/overview"[2];
      }
    case Deception =>
      assert pathname[..10] == "/deception";
      assert pathname[1] == "/deception"[1];
    case Theater =>
      if !StartsWith(pathname, "/deception/theater") {
        assert pathname[..8] == "/theater";
        assert pathname[1] == "/theater"[1];
      }
    case Sentry =>
      assert pathname[..7] == "/sentry";
      assert pathname[1] == "/sentry"[1];
    case Orchestration =>
      assert pathname[..14] == "/orchestration";
      assert pathname[1] == "/orchestration"[1] && pathname[2] == "/orchestration"[2];
  }

  /** At most one link is highlighted on any page. */
  lemma AtMostOneActive(pathname: string, i: NavItem, j: NavItem)
    requires Matches(i, pathname) && Matches(j, pathname)
    ensures i == j
  {
    Shape(i, pathname);
    Shape(j, pathname);
    if StartsWith(pathname, "/deception/theater") {
      assert pathname[1] == 'd' by {
        assert pathname[..18] == "/deception/theater";
        assert pathname[1] == "/deception/theater"[1];
      }
    }
  }
}
