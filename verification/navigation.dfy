/**
  The links the navigation bar renders: the industry table, its two
  renderings (the desktop dropdown and the mobile submenu), and the full
  desktop and mobile link rows around them. Markup, class names and icons
  are not modelled; each rendered anchor is its target and its text.
 */
module Navigation {
  import opened Text
  import opened Paths

  /** An industry page: its file name in the `industry` directory and its menu label. */
  datatype Industry = Industry(file: string, name: string)

  /** The industry pages, in menu order. */
  const Industries: seq<Industry> := [
    Industry("ecommerce.html", "Ecommerce"),
    Industry("foodchain.html", "Foodchain"),
    Industry("healthcare.html", "Healthcare"),
    Industry("manufacturing.html", "Manufacturing"),
    Industry("retail.html", "Retail"),
    Industry("university.html", "University")
  ]

  /** Directory of the industry pages, relative to the site root. */
  const IndustryDir: string := "industry/"

  /** A rendered anchor: where it leads and what it says. */
  datatype Link = Link(href: string, text: string)

  /** The file names of a list of industries, as a set. */
  function Files(entries: seq<Industry>): (files: set<string>)
  {
    set i | 0 <= i < |entries| :: entries[i].file
  }

  /** The industry table and the logo table name the same six pages, each once. */
  lemma IndustriesMatchLogoMap()
    ensures Files(Industries) == LogoMap.Keys
    ensures forall i, j :: 0 <= i < j < |Industries| ==> Industries[i].file != Industries[j].file
  {
    assert Industries[0].file in Files(Industries);
    assert Industries[1].file in Files(Industries);
    assert Industries[2].file in Files(Industries);
    assert Industries[3].file in Files(Industries);
    assert Industries[4].file in Files(Industries);
    assert Industries[5].file in Files(Industries);
  }

  /** The desktop dropdown: one anchor per industry, in table order. */
  function DesktopDropdown(base: string): (links: seq<Link>)
    ensures |links| == |Industries|
  {
    seq(|Industries|, i requires 0 <= i < |Industries| =>
      Link(base + IndustryDir + Industries[i].file, Industries[i].name))
  }

  /** The mobile submenu, rendered from the same table by a second mapping. */
  function MobileSubmenu(base: string): (links: seq<Link>)
    ensures |links| == |Industries|
  {
    seq(|Industries|, i requires 0 <= i < |Industries| =>
      Link(base + IndustryDir + Industries[i].file, Industries[i].name))
  }

  /** Both renderings list the same targets and labels in the same order. */
  lemma IndustryListsAgree(base: string)
    ensures DesktopDropdown(base) == MobileSubmenu(base)
  {
  }

  /**
    Entry `i` of the dropdown is labelled with industry `i` and leads, from
    the base prefix, into the industry directory to that industry's file.
   */
  lemma DropdownLinkTargetsEntry(base: string, i: int)
    requires 0 <= i < |Industries|
    ensures var link := DesktopDropdown(base)[i];
      && link.text == Industries[i].name
      && |base| <= |link.href| && link.href[..|base|] == base
      && link.href[|base|..] == IndustryDir + Industries[i].file
      && LastSegment(link.href) == Industries[i].file
  {
    var file := Industries[i].file;
    IndustryFileIsPlainName(i);
    var href := DesktopDropdown(base)[i].href;
    assert href == (base + "industry") + [Slash] + file;
    LastSegmentAfterSlash(base + "industry", file);
  }

  /** No industry file name contains a slash. */
  lemma IndustryFileIsPlainName(i: int)
    requires 0 <= i < |Industries|
    ensures Slash !in Industries[i].file
  {
    if i == 0 {
    } else if i == 1 {
    } else if i == 2 {
    } else if i == 3 {
    } else if i == 4 {
    } else {
    }
  }

  /**
    Following a dropdown entry from any page lands, below the site root
    `root`, on an industry page that shows that industry's own logo.
   */
  lemma DropdownLinkShowsItsLogo(base: string, root: string, i: int)
    requires 0 <= i < |Industries|
    ensures var target := root + [Slash] + DesktopDropdown(base)[i].href[|base|..];
      LogoPath(target) == ParentPrefix + LogoMap[Industries[i].file]
  {
    DropdownLinkTargetsEntry(base, i);
    IndustriesMatchLogoMap();
    var file := Industries[i].file;
    assert file in Files(Industries);
    assert root + [Slash] + (IndustryDir + file) == root + IndustryMarker + file;
    IndustryPageShowsItsLogo(root, file);
  }

  /** The site pages the fixed anchors lead to, relative to the site root. */
  const HomePage: string := "index.html"
  const PricingPage: string := "page/pricing.html"
  const ContactPage: string := "page/contactus.html"
  const DemoPage: string := "page/BookDemo.html"

  /** The anchors after the industry list, identical in both rows. */
  function PageLinks(base: string): (links: seq<Link>)
    ensures |links| == 3
  {
    [Link(base + PricingPage, "Pricing"),
     Link(base + ContactPage, "Contact Us"),
     Link(base + DemoPage, "Book Demo")]
  }

  /** What one render of the navigation bar links to. */
  datatype NavigationLinks = NavigationLinks(
    logo: string,        // the brand image source
    brand: Link,         // the brand anchor around the logo
    desktop: seq<Link>,  // the desktop row, dropdown entries in place
    mobile: seq<Link>    // the mobile panel, submenu entries in place
  )

  /** The desktop row: home, the industry dropdown, pricing, contact and the demo call to action. */
  function DesktopRow(base: string): (row: seq<Link>)
  {
    [Link(base + HomePage, "Home")] + DesktopDropdown(base) + PageLinks(base)
  }

  /** The mobile panel: the same entries, with the industry submenu in place of the dropdown. */
  function MobileRow(base: string): (row: seq<Link>)
  {
    [Link(base + HomePage, "Home")] + MobileSubmenu(base) + PageLinks(base)
  }

  /**
    `generateNavigation` for the page at `path`, reduced to its links. Both
    rows open with Home, list the industries in table order, and close with
    Pricing, Contact Us and Book Demo.
   */
  function GenerateNavigation(path: string): (nav: NavigationLinks)
    ensures nav.logo == LogoPath(path)
    ensures nav.brand.href == BasePath(path) + HomePage
    ensures |nav.desktop| == |nav.mobile| == |Industries| + 4
    ensures nav.desktop[0] == nav.mobile[0] == Link(BasePath(path) + HomePage, "Home")
    ensures nav.desktop[1..1 + |Industries|] == DesktopDropdown(BasePath(path))
    ensures nav.mobile[1..1 + |Industries|] == MobileSubmenu(BasePath(path))
    ensures nav.desktop[1 + |Industries|..] == nav.mobile[1 + |Industries|..] == PageLinks(BasePath(path))
  {
    var base := BasePath(path);
    NavigationLinks(
      LogoPath(path),
      Link(base + HomePage, "Ustadex Analytics"),
      DesktopRow(base),
      MobileRow(base))
  }

  /**
    Every anchor of both rows is relative to the page's base prefix, and the
    two rows offer the same anchors in the same order.
   */
  lemma NavigationRowsAgree(path: string)
    ensures var nav := GenerateNavigation(path);
      && nav.desktop == nav.mobile
      && forall k :: 0 <= k < |nav.desktop| ==>
           |BasePath(path)| <= |nav.desktop[k].href| &&
           nav.desktop[k].href[..|BasePath(path)|] == BasePath(path)
  {
    var base := BasePath(path);
    IndustryListsAgree(base);
    var row := DesktopRow(base);
    forall k | 0 <= k < |row|
      ensures |base| <= |row[k].href| && row[k].href[..|base|] == base
    {
      if 1 <= k < 1 + |Industries| {
        DropdownLinkTargetsEntry(base, k - 1);
      }
    }
  }

  /**
    Every anchor of a row outside the industry list leads from the page's
    base prefix to one of the four fixed site pages, and the industry
    entries lead into the industry directory.
   */
  lemma RowLinksTargetSitePages(path: string)
    ensures var nav := GenerateNavigation(path);
      var base := BasePath(path);
      forall k :: 0 <= k < |nav.desktop| ==>
        && |base| <= |nav.desktop[k].href|
        && nav.desktop[k].href[..|base|] == base
        && (k == 0 || k > |Industries| <==>
              nav.desktop[k].href[|base|..] in {HomePage, PricingPage, ContactPage, DemoPage})
  {
    var nav := GenerateNavigation(path);
    var base := BasePath(path);
    forall k | 0 <= k < |nav.desktop|
      ensures |base| <= |nav.desktop[k].href| && nav.desktop[k].href[..|base|] == base
      ensures k == 0 || k > |Industries| <==>
                nav.desktop[k].href[|base|..] in {HomePage, PricingPage, ContactPage, DemoPage}
    {
      var href := nav.desktop[k].href;
      if 1 <= k <= |Industries| {
        assert nav.desktop[k] == DesktopDropdown(base)[k - 1];
        DropdownLinkTargetsEntry(base, k - 1);
        assert href[|base|..][..|IndustryDir|] == IndustryDir;
      } else if k == 0 {
        assert href == base + HomePage;
      } else {
        assert nav.desktop[k] == PageLinks(base)[k - 1 - |Industries|];
      }
    }
  }
}
