/** The site navigation bar: which link is highlighted for the current
    path, the scrolled style, the mobile menu and the hover dropdown. */
module NavbarState {
  import opened Seqs
  import opened Text

  /** The top-level links as (name, href). */
  const Navigation: seq<(string, string)> := [
    ("Home", "/"), ("About", "/about"), ("Ministries", "/ministries"), ("Sermons", "/sermons"),
    ("Events", "/events"), ("Prayer", "/prayer"), ("Live", "/live"), ("Contact", "/contact")
  ]

  /** `isActive`: the home link only on `/` itself, any other link on every
      path that starts with its href. */
  function IsActive(pathname: string, href: string): (active: bool)
    ensures href == "/" ==> (active <==> pathname == "/")
    ensures href != "/" ==> (active <==> |href| <= |pathname| && pathname[..|href|] == href)
  {
    if href == "/" then pathname == "/" else StartsWith(pathname, href)
  }

  /** The prefix test is not segment-aware: "Live" lights up on `/livestream`. */
  lemma PrefixNotSegmentAware()
    ensures IsActive("/livestream", "/live")
  {
    assert "/livestream"[..5] == "/live";
  }

  /** On the home page only the home link is active. */
  lemma OnlyHomeOnRoot()
    ensures forall k :: 0 <= k < |Navigation| ==> (IsActive("/", Navigation[k].1) <==> k == 0)
  {
  }

  /** A deeper path keeps its section highlighted. */
  lemma SectionStaysActive(href: string, rest: string)
    requires href != "/"
    ensures IsActive(href + rest, href)
  {
    assert (href + rest)[..|href|] == href;
  }

  class Navbar {
    var isOpen: bool
    var isScrolled: bool
    var activeDropdown: Option<string>

    constructor()
      ensures !isOpen && !isScrolled && activeDropdown.None?
    {
      isOpen := false;
      isScrolled := false;
      activeDropdown := None;
    }

    /** The scroll listener. */
    method HandleScroll(scrollY: int)
      modifies this
      ensures isScrolled <==> scrollY > 50
      ensures isOpen == old(isOpen) && activeDropdown == old(activeDropdown)
    {
      isScrolled := scrollY > 50;
    }

    /** The menu button. */
    method Toggle()
      modifies this
      ensures isOpen == !old(isOpen)
      ensures isScrolled == old(isScrolled) && activeDropdown == old(activeDropdown)
    {
      isOpen := !isOpen;
    }

    /** Any link in the mobile menu. */
    method MobileLinkClicked()
      modifies this
      ensures !isOpen
      ensures isScrolled == old(isScrolled) && activeDropdown == old(activeDropdown)
    {
      isOpen := false;
    }

    /** Entering an item with a dropdown opens that one, and only that one. */
    method MouseEnter(name: string)
      modifies this
      ensures activeDropdown == Some(name)
      ensures isOpen == old(isOpen) && isScrolled == old(isScrolled)
    {
      activeDropdown := Some(name);
    }

    method MouseLeave()
      modifies this
      ensures activeDropdown.None?
      ensures isOpen == old(isOpen) && isScrolled == old(isScrolled)
    {
      activeDropdown := None;
    }
  }
}
