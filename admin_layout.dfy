/** The admin shell: a role guard, the navigation with its active entry, and
    the breadcrumb trail derived from the pathname. */
module AdminLayout {
  import opened Seqs
  import opened Strings
  import opened Store

  /** One navigation entry as rendered: its target and whether it is
      highlighted. */
  datatype NavEntry = NavEntry(name: string, href: string, active: bool)

  /** One breadcrumb after the leading "Admin" link: a link to `href`, or,
      for the last one, plain text. */
  datatype Crumb = Crumb(text: string, href: string, isLink: bool)

  datatype Layout =
    | Unauthorized
    | Shell(nav: seq<NavEntry>, crumbs: seq<Crumb>)

  const NavNames: seq<string> := ["Dashboard", "Products", "Orders", "Invoices"]
  const NavHrefs: seq<string> := ["/admin/dashboard", "/admin/products", "/admin/orders", "/admin/invoices"]

  /** `pathname === href || pathname.startsWith(href + "/")` */
  predicate IsActive(pathname: string, href: string)
  {
    pathname == href || href + "/" <= pathname
  }

  /** The navigation for a pathname. */
  function Navigation(pathname: string): (nav: seq<NavEntry>)
    ensures |nav| == |NavHrefs|
    ensures forall i :: 0 <= i < |nav| ==>
      nav[i].name == NavNames[i] && nav[i].href == NavHrefs[i] && nav[i].active == IsActive(pathname, NavHrefs[i])
  {
    seq(|NavHrefs|, i requires 0 <= i < |NavHrefs| =>
      NavEntry(NavNames[i], NavHrefs[i], IsActive(pathname, NavHrefs[i])))
  }

  /** The breadcrumb segments: the pieces of the pathname between slashes,
      without empty pieces and without any "admin" piece. */
  function Segments(pathname: string): seq<string>
  {
    Filter(Split(pathname, '/'), IsCrumbSegment)
  }

  /** `segment && segment !== "admin"` */
  predicate IsCrumbSegment(s: string)
  {
    s != "" && s != "admin"
  }

  /** The trail: the i-th crumb links to `/admin/` followed by the first i + 1
      segments joined with "/"; the last is plain text. */
  function Crumbs(segments: seq<string>): seq<Crumb>
  {
    seq(|segments|, i requires 0 <= i < |segments| =>
      Crumb(segments[i], "/admin/" + Join(segments[..i + 1], "/"), i != |segments| - 1))
  }

  /** The layout: "Unauthorized" unless the session's role is "ADMIN". */
  function Render(pathname: string, session: Option<Token>): (r: Layout)
    ensures r.Unauthorized? <==> !IsAdmin(session)
  {
    if !IsAdmin(session) then Unauthorized
    else Shell(Navigation(pathname), Crumbs(Segments(pathname)))
  }

  // ---------------------------------------------------------------------------
  // Navigation

  /** An entry is active only for pathnames it is a prefix of: for its own
      page and every page under it, but for no sibling that merely extends
      its last segment. */
  lemma ActiveIsPathPrefix(pathname: string, href: string, s: string)
    ensures IsActive(pathname, href) ==> href <= pathname
    ensures IsActive(href, href) && IsActive(href + "/" + s, href)
    ensures s != [] && s[0] != '/' ==> !IsActive(href + s, href)
  {
    assert (href + "/" + s)[..|href| + 1] == href + "/";
    if s != [] {
      assert (href + s)[|href|] == s[0] && (href + "/")[|href|] == '/';
    }
  }

  /** "/admin/products-x" does not highlight "Products". */
  lemma ProductsSiblingNotActive()
    ensures !Navigation("/admin/products-x")[1].active
  {
    ActiveIsPathPrefix("/admin/products-x", "/admin/products", "-x");
    assert "/admin/products" + "-x" == "/admin/products-x";
  }

  /** Two prefixes of one string are prefixes of each other. */
  lemma PrefixesOfOnePath(a: string, b: string, p: string)
    ensures a <= p && b <= p ==> a <= b || b <= a
  {
  }

  /** No pathname highlights two entries. */
  lemma AtMostOneActive(pathname: string)
    ensures forall i, j :: 0 <= i < j < |NavHrefs| ==>
      !(Navigation(pathname)[i].active && Navigation(pathname)[j].active)
  {
    forall i, j | 0 <= i < j < |NavHrefs|
      ensures !(IsActive(pathname, NavHrefs[i]) && IsActive(pathname, NavHrefs[j]))
    {
      ActiveIsPathPrefix(pathname, NavHrefs[i], "");
      ActiveIsPathPrefix(pathname, NavHrefs[j], "");
      PrefixesOfOnePath(NavHrefs[i], NavHrefs[j], pathname);
      assert NavHrefs[i][7] != NavHrefs[j][7];
    }
  }

  // ---------------------------------------------------------------------------
  // Breadcrumbs

  /** The segments are the slash-separated pieces of the pathname, in order,
      each one kept, as often as it occurs, exactly when it is neither empty
      nor "admin"; none holds a slash. */
  lemma SegmentsSpec(pathname: string)
    ensures IsSubsequence(Segments(pathname), Split(pathname, '/'))
    ensures forall s :: s in Segments(pathname) <==> s in Split(pathname, '/') && s != "" && s != "admin"
    ensures forall s ::
      multiset(Segments(pathname))[s] == if s != "" && s != "admin" then multiset(Split(pathname, '/'))[s] else 0
    ensures forall i :: 0 <= i < |Segments(pathname)| ==>
      Segments(pathname)[i] != "" && Segments(pathname)[i] != "admin" && '/' !in Segments(pathname)[i]
    ensures Join(Split(pathname, '/'), "/") == pathname
  {
    var keep := IsCrumbSegment;
    FilterIsSubsequence(Split(pathname, '/'), keep);
    forall s ensures multiset(Segments(pathname))[s] ==
      if s != "" && s != "admin" then multiset(Split(pathname, '/'))[s] else 0
    {
      FilterCount(Split(pathname, '/'), keep, s);
    }
    forall s ensures s in Segments(pathname) <==> s in Split(pathname, '/') && s != "" && s != "admin" {
      FilterMembership(Split(pathname, '/'), keep, s);
    }
    forall i | 0 <= i < |Segments(pathname)| ensures '/' !in Segments(pathname)[i] {
      assert Segments(pathname)[i] in Segments(pathname);
    }
    JoinSplit(pathname, '/');
  }

  /** Every crumb but the last is a link, the last is plain text, each is
      labelled with its segment, and each link extends the one before it by
      "/" and its own segment. */
  lemma CrumbsSpec(segments: seq<string>)
    ensures |Crumbs(segments)| == |segments|
    ensures forall i :: 0 <= i < |segments| ==>
      Crumbs(segments)[i].text == segments[i] && (Crumbs(segments)[i].isLink <==> i < |segments| - 1)
    ensures |segments| >= 1 ==> Crumbs(segments)[0].href == "/admin/" + segments[0]
    ensures forall i :: 1 <= i < |segments| ==>
      Crumbs(segments)[i].href == Crumbs(segments)[i - 1].href + "/" + segments[i]
  {
    forall i | 1 <= i < |segments|
      ensures Crumbs(segments)[i].href == Crumbs(segments)[i - 1].href + "/" + segments[i]
    {
      JoinSnoc(segments[..i + 1], "/");
      assert segments[..i + 1][..i] == segments[..i];
    }
  }

  /** "/admin" and "/admin/" give no crumbs after the leading link. */
  lemma AdminRootHasNoCrumbs()
    ensures Crumbs(Segments("/admin")) == []
    ensures Crumbs(Segments("/admin/")) == []
  {
    AdminRootSegments();
    AdminRootSlashSegments();
  }

  lemma AdminRootSegments()
    ensures Segments("/admin") == []
  {
    SplitNoSep("admin", '/');
    SplitFirst("", '/', "admin");
    assert "" + "/" + "admin" == "/admin";
    FilterKeepsNone(["", "admin"], IsCrumbSegment);
  }

  lemma AdminRootSlashSegments()
    ensures Segments("/admin/") == []
  {
    assert Split("", '/') == [""];
    SplitFirst("admin", '/', "");
    assert "admin" + "/" + "" == "admin/";
    assert Split("admin/", '/') == ["admin", ""];
    SplitFirst("", '/', "admin/");
    assert "" + "/" + "admin/" == "/admin/";
    assert Split("/admin/", '/') == ["", "admin", ""];
    FilterKeepsNone(["", "admin", ""], IsCrumbSegment);
  }

  /** An order's page: "orders" links to the order list, and the order id
      is the plain-text last crumb. */
  lemma OrderPageCrumbs(id: string)
    requires IsCrumbSegment(id) && '/' !in id
    ensures Crumbs(Segments("/admin/orders/" + id)) ==
      [Crumb("orders", "/admin/orders", true), Crumb(id, "/admin/orders/" + id, false)]
  {
    OrderPageSegments(id);
    var segs := ["orders", id];
    assert segs[..1] == ["orders"];
    assert segs[..2] == segs;
    assert Join(segs, "/") == "orders/" + id;
    assert "/admin/" + ("orders/" + id) == "/admin/orders/" + id;
    var crumbs := Crumbs(segs);
    assert crumbs[0] == Crumb("orders", "/admin/orders", true);
    assert crumbs[1] == Crumb(id, "/admin/orders/" + id, false);
  }

  lemma OrderPageSegments(id: string)
    requires IsCrumbSegment(id) && '/' !in id
    ensures Segments("/admin/orders/" + id) == ["orders", id]
  {
    OrderPathSplit(id);
    var parts := ["", "admin", "orders", id];
    assert parts[..3] == ["", "admin", "orders"];
    assert parts[..3][..2] == ["", "admin"];
    FilterKeepsNone(["", "admin"], IsCrumbSegment);
    assert Filter(parts[..3], IsCrumbSegment) == ["orders"];
    assert Filter(parts, IsCrumbSegment) == ["orders", id];
  }

  lemma OrderPathSplit(id: string)
    requires '/' !in id
    ensures Split("/admin/orders/" + id, '/') == ["", "admin", "orders", id]
  {
    var parts := ["", "admin", "orders", id];
    OrderPathJoin(id);
    assert forall i :: 0 <= i < |parts| ==> '/' !in parts[i];
    SplitJoin(parts, '/');
  }

  lemma OrderPathJoin(id: string)
    ensures Join(["", "admin", "orders", id], "/") == "/admin/orders/" + id
  {
    var parts := ["", "admin", "orders", id];
    assert Join(parts[3..], "/") == id;
    assert Join(parts[2..], "/") == "orders/" + id;
    assert Join(parts[1..], "/") == "admin/orders/" + id;
  }
}
