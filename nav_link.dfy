/**
 * src/components/navigation/NavLink.tsx: whether a link is the current page,
 * and the attributes of the anchor it renders, internal or external.
 */
module NavLink {
  import opened Outcomes

  predicate StartsWith(s: string, prefix: string)
  {
    |prefix| <= |s| && s[..|prefix|] == prefix
  }

  /** `href === "/" ? pathname === "/" : pathname.startsWith(href)` */
  predicate IsActive(href: string, pathname: string)
  {
    if href == "/" then pathname == "/" else StartsWith(pathname, href)
  }

  /** Every link is active on its own path. */
  lemma ActiveOnItself(href: string)
    ensures IsActive(href, href)
  {
  }

  /** The home link is active on "/" and nowhere else. */
  lemma HomeOnlyOnRoot(pathname: string)
    ensures IsActive("/", pathname) <==> pathname == "/"
  {
  }

  /** Any other link stays active on every path below it. */
  lemma ActiveBelow(href: string, rest: string)
    requires href != "/"
    ensures IsActive(href, href + rest)
  {
    assert (href + rest)[..|href|] == href;
  }

  /** The prefix test does not respect path segments: "/projects" is active on "/projects-archive". */
  lemma PrefixIgnoresSegments()
    ensures IsActive("/projects", "/projects-archive")
    ensures !IsActive("/projects-archive", "/projects")
  {
    assert "/projects-archive"[..|"/projects"|] == "/projects";
  }

  /** The anchor a `NavLink` renders: `external` gives a plain `<a>`, otherwise a Next.js `Link`. */
  datatype Anchor = Anchor(
    external: bool,
    href: string,
    target: Option<string>,
    rel: Option<string>,
    ariaCurrent: Option<string>,
    color: string,
    underlineScale: nat)

  function RenderNavLink(href: string, external: bool, pathname: string): (a: Anchor)
    ensures a.href == href && a.external == external
    ensures a.ariaCurrent == Some("page") <==> IsActive(href, pathname)
    ensures a.ariaCurrent.None? <==> !IsActive(href, pathname)
    ensures external ==> a.target == Some("_blank") && a.rel == Some("noopener noreferrer")
    ensures !external ==> a.target.None? && a.rel.None?
    ensures a.underlineScale == 1 <==> IsActive(href, pathname)
  {
    var active := IsActive(href, pathname);
    var ariaCurrent := if active then Some("page") else None;
    var color := if active then "#38bdf8" else "#0ea5e9";
    var scale := if active then 1 else 0;
    if external then Anchor(true, href, Some("_blank"), Some("noopener noreferrer"), ariaCurrent, color, scale)
    else Anchor(false, href, None, None, ariaCurrent, color, scale)
  }
}
