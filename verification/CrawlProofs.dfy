/** What the crawl finds: only reachable pages, all of them, and with a limit the first of them. */
module CrawlProofs {
  import opened Wrappers
  import opened Crawl

  // ---- soundness: only reachable pages ----

  /** Same-host links lead from `path[0]` along the path. */
  ghost predicate IsPath(site: Site, path: seq<Url>) {
    && |path| > 0
    && (forall i | 0 <= i < |path| :: Local(site, path[i]))
    && (forall i | 0 <= i < |path| - 1 :: path[i + 1] in Links(site, path[i]))
  }

  ghost predicate Reaches(site: Site, from: Url, path: seq<Url>, page: string) {
    IsPath(site, path) && path[0] == from && Page(site, path[|path| - 1]) == page
  }

  ghost predicate Reachable(site: Site, from: Url, page: string) {
    exists path :: Reaches(site, from, path, page)
  }

  lemma ReachableThrough(site: Site, from: Url, link: Url, page: string)
    requires Local(site, from) && link in Links(site, from) && Reachable(site, link, page)
    ensures Reachable(site, from, page)
  {
    var path :| Reaches(site, link, path, page);
    var longer := [from] + path;
    forall i | 0 <= i < |longer| - 1 ensures longer[i + 1] in Links(site, longer[i]) {
      if i > 0 { assert path[i - 1 + 1] in Links(site, path[i - 1]); }
    }
    assert Reaches(site, from, longer, page);
  }

  lemma {:induction false} VisitSound(site: Site, u: Url, pages: seq<string>, limit: nat, all: set<string>)
    requires Bounded(site, [u], limit, all) && Fits(pages, limit)
    ensures forall p | p in Visit(site, u, pages, limit, all) :: p in pages || Reachable(site, u, p)
    decreases Room(pages, limit, all), 0
  {
    if !Stops(site, u, pages, limit) {
      var p := Page(site, u);
      assert u in [u];
      RoomShrinks(pages, p, limit, all);
      LinksBounded(site, u, limit, all);
      assert Reaches(site, u, [u], p);
      VisitAllSound(site, Links(site, u), pages + [p], limit, all);
      forall q | q in Visit(site, u, pages, limit, all) && q !in pages ensures Reachable(site, u, q) {
        if q != p {
          assert q !in pages + [p];
          var l :| l in Links(site, u) && Reachable(site, l, q);
          ReachableThrough(site, u, l, q);
        }
      }
    }
  }

  lemma {:induction false} VisitAllSound(site: Site, urls: seq<Url>, pages: seq<string>, limit: nat, all: set<string>)
    requires Bounded(site, urls, limit, all) && Fits(pages, limit)
    ensures forall p | p in VisitAll(site, urls, pages, limit, all) ::
              p in pages || exists l | l in urls :: Reachable(site, l, p)
    decreases Room(pages, limit, all), |urls|
  {
    if urls != [] {
      var more := Visit(site, urls[0], pages, limit, all);
      RoomNeverGrows(pages, more, limit, all);
      VisitSound(site, urls[0], pages, limit, all);
      VisitAllSound(site, urls[1..], more, limit, all);
    }
  }

  // ---- completeness without a limit ----

  /** Same-host links lead from `from` to the URL `u`, which may be one of several URLs of its page. */
  ghost predicate ReachableUrl(site: Site, from: Url, u: Url) {
    exists path :: LeadsTo(site, from, path, u)
  }

  ghost predicate LeadsTo(site: Site, from: Url, path: seq<Url>, u: Url) {
    IsPath(site, path) && path[0] == from && path[|path| - 1] == u
  }

  ghost predicate AllReachable(site: Site, from: Url, urls: seq<Url>) {
    forall u | u in urls && Local(site, u) :: ReachableUrl(site, from, u)
  }

  lemma LinksAreReachable(site: Site, from: Url, u: Url)
    requires ReachableUrl(site, from, u)
    ensures AllReachable(site, from, Links(site, u))
  {
    var path :| LeadsTo(site, from, path, u);
    forall l | l in Links(site, u) && Local(site, l) ensures ReachableUrl(site, from, l) {
      var longer := path + [l];
      forall i | 0 <= i < |longer| - 1 ensures longer[i + 1] in Links(site, longer[i]) {
        if i < |path| - 1 { assert path[i + 1] in Links(site, path[i]); }
      }
      assert LeadsTo(site, from, longer, l);
    }
  }

  /** Some reachable URL of page `p` had all its same-host links put on the list `r`. */
  ghost predicate Expanded(site: Site, from: Url, p: string, r: seq<string>) {
    exists u: Url :: ReachableUrl(site, from, u) && Page(site, u) == p && NextPages(site, u) <= ToSet(r)
  }

  lemma ExpandedGrows(site: Site, from: Url, p: string, r: seq<string>, more: seq<string>)
    requires Expanded(site, from, p, r) && r <= more
    ensures Expanded(site, from, p, more)
  {
    var u: Url :| ReachableUrl(site, from, u) && Page(site, u) == p && NextPages(site, u) <= ToSet(r);
    StaysOnList(r, more);
  }

  lemma {:induction false} VisitExpands(site: Site, from: Url, u: Url, pages: seq<string>, all: set<string>)
    requires Bounded(site, [u], 0, all) && (Local(site, u) ==> ReachableUrl(site, from, u))
    ensures var r := Visit(site, u, pages, 0, all);
            && (Local(site, u) ==> Page(site, u) in r)
            && forall p | p in r && p !in pages :: Expanded(site, from, p, r)
    decreases Room(pages, 0, all), 0
  {
    hide ReachableUrl;
    if !Stops(site, u, pages, 0) {
      var p := Page(site, u);
      assert u in [u];
      RoomShrinks(pages, p, 0, all);
      LinksBounded(site, u, 0, all);
      LinksAreReachable(site, from, u);
      VisitAllExpands(site, from, Links(site, u), pages + [p], all);
      var r := Visit(site, u, pages, 0, all);
      assert r[|pages|] == p;
      assert NextPages(site, u) <= ToSet(r);
    }
  }

  lemma {:induction false} VisitAllExpands(site: Site, from: Url, urls: seq<Url>, pages: seq<string>, all: set<string>)
    requires Bounded(site, urls, 0, all) && AllReachable(site, from, urls)
    ensures var r := VisitAll(site, urls, pages, 0, all);
            && (forall l | l in urls && Local(site, l) :: Page(site, l) in r)
            && forall p | p in r && p !in pages :: Expanded(site, from, p, r)
    decreases Room(pages, 0, all), |urls|
  {
    hide ReachableUrl;
    if urls != [] {
      var more := Visit(site, urls[0], pages, 0, all);
      RoomNeverGrows(pages, more, 0, all);
      VisitExpands(site, from, urls[0], pages, all);
      VisitAllExpands(site, from, urls[1..], more, all);
      var r := VisitAll(site, urls, pages, 0, all);
      forall p | p in more && p !in pages ensures Expanded(site, from, p, r) {
        ExpandedGrows(site, from, p, more, r);
      }
      StaysOnList(more, r);
      assert Local(site, urls[0]) ==> Page(site, urls[0]) in ToSet(more);
    }
  }

  /** Two reachable URLs of the same page lead to the same pages. */
  ghost predicate LinksDependOnPage(site: Site, from: Url) {
    forall u: Url, v: Url {:trigger ReachableUrl(site, from, u), ReachableUrl(site, from, v)} ::
      ReachableUrl(site, from, u) && ReachableUrl(site, from, v) && Page(site, u) == Page(site, v)
      ==> NextPages(site, u) == NextPages(site, v)
  }

  lemma PrefixIsReachable(site: Site, path: seq<Url>, i: nat)
    requires IsPath(site, path) && i < |path|
    ensures ReachableUrl(site, path[0], path[i])
  {
    assert forall k | 0 <= k < i :: path[k + 1] in Links(site, path[k]);
    assert LeadsTo(site, path[0], path[..i + 1], path[i]);
  }

  lemma {:induction false} PathStaysOnList(site: Site, path: seq<Url>, i: nat, r: seq<string>)
    requires IsPath(site, path) && i < |path| && LinksDependOnPage(site, path[0])
    requires Page(site, path[0]) in r && forall p | p in r :: Expanded(site, path[0], p, r)
    ensures Page(site, path[i]) in r
  {
    hide ReachableUrl;
    if i > 0 {
      PathStaysOnList(site, path, i - 1, r);
      PrefixIsReachable(site, path, i - 1);
      var p := Page(site, path[i - 1]);
      var u: Url :| ReachableUrl(site, path[0], u) && Page(site, u) == p && NextPages(site, u) <= ToSet(r);
      assert path[i - 1 + 1] in Links(site, path[i - 1]);
      assert Page(site, path[i]) in NextPages(site, path[i - 1]);
    }
  }

  lemma CrawlIsComplete(site: Site, start: Url, all: set<string>, page: string)
    requires Bounded(site, [start], 0, all) && LinksDependOnPage(site, start) && Reachable(site, start, page)
    ensures page in Visit(site, start, [], 0, all)
  {
    hide ReachableUrl;
    var path :| Reaches(site, start, path, page);
    PrefixIsReachable(site, path, 0);
    VisitExpands(site, start, start, [], all);
    PathStaysOnList(site, path, |path| - 1, Visit(site, start, [], 0, all));
  }

  /** Without a limit the crawl lists exactly the reachable same-host pages, each of them once. */
  lemma CrawlIsExact(site: Site, start: Url, all: set<string>, page: string)
    requires Bounded(site, [start], 0, all) && LinksDependOnPage(site, start)
    ensures var r := Visit(site, start, [], 0, all);
            && (page in r <==> Reachable(site, start, page))
            && (forall i, j | 0 <= i < j < |r| :: r[i] != r[j])
  {
    hide LinksDependOnPage;
    VisitSound(site, start, [], 0, all);
    if Reachable(site, start, page) { CrawlIsComplete(site, start, all, page); }
  }

  // ---- with a limit: a prefix of the unlimited list ----

  function Take(s: seq<string>, n: nat): seq<string> { if |s| <= n then s else s[..n] }

  lemma {:induction false} FullStays(site: Site, urls: seq<Url>, pages: seq<string>, limit: nat, all: set<string>)
    requires limit > 0 && |pages| == limit
    ensures VisitAll(site, urls, pages, limit, all) == pages
    decreases |urls|
  {
    if urls != [] { FullStays(site, urls[1..], pages, limit, all); }
  }

  lemma {:induction false} VisitTakes(site: Site, u: Url, pages: seq<string>, limit: nat, all: set<string>)
    requires limit > 0 && |pages| <= limit && Bounded(site, [u], 0, all)
    ensures Visit(site, u, pages, limit, all) == Take(Visit(site, u, pages, 0, all), limit)
    decreases Room(pages, 0, all), 0
  {
    if !Stops(site, u, pages, limit) {
      var p := Page(site, u);
      assert u in [u];
      RoomShrinks(pages, p, 0, all);
      LinksBounded(site, u, 0, all);
      VisitAllTakes(site, Links(site, u), pages + [p], limit, all);
    }
  }

  lemma {:induction false} VisitAllTakes(site: Site, urls: seq<Url>, pages: seq<string>, limit: nat, all: set<string>)
    requires limit > 0 && |pages| <= limit && Bounded(site, urls, 0, all)
    ensures VisitAll(site, urls, pages, limit, all) == Take(VisitAll(site, urls, pages, 0, all), limit)
    decreases Room(pages, 0, all), |urls|
  {
    if urls != [] {
      var more := Visit(site, urls[0], pages, 0, all);
      VisitTakes(site, urls[0], pages, limit, all);
      if |more| <= limit {
        RoomNeverGrows(pages, more, 0, all);
        VisitAllTakes(site, urls[1..], more, limit, all);
      } else {
        FullStays(site, urls[1..], more[..limit], limit, all);
      }
    }
  }

  /** A limit n > 0 cuts the unlimited crawl off after n pages and changes nothing before that. */
  lemma LimitTakesPrefix(site: Site, start: Url, limit: nat, all: set<string>)
    requires limit > 0 && Bounded(site, [start], 0, all)
    ensures Visit(site, start, [], limit, all) == Take(Visit(site, start, [], 0, all), limit)
  {
    VisitTakes(site, start, [], limit, all);
  }

  /** Even when the host's pages are without end, a limited crawl lists distinct reachable pages, at most n. */
  lemma LimitedCrawlIsSound(site: Site, start: Url, limit: nat)
    requires limit > 0
    ensures var r := Visit(site, start, [], limit, {});
            && |r| <= limit
            && (forall i, j | 0 <= i < j < |r| :: r[i] != r[j])
            && (forall p | p in r :: Reachable(site, start, p))
  {
    VisitSound(site, start, [], limit, {});
  }

  // ---- why links must depend on the page only ----

  function At(pathname: string): Url { Url("https:", "h", "", pathname, "", "") }

  function Html(links: seq<Url>): Fetch { Response(200, Some("text/html"), links) }

  /** A relative link means something else on /a/ than on /a, although both are the same page. */
  const SLASHED: Site := Site("https:", "h", u =>
    if u == At("/") then Html([At("/a"), At("/a/")])
    else if u == At("/a/") then Html([At("/a/b")])
    else Html([]))

  const SLASHED_PAGES: set<string> := {"https://h", "https://h/a", "https://h/a/b"}

  lemma SlashedFacts()
    ensures Links(SLASHED, At("/")) == [At("/a"), At("/a/")]
    ensures Links(SLASHED, At("/a")) == [] && Links(SLASHED, At("/a/")) == [At("/a/b")]
    ensures Page(SLASHED, At("/")) == "https://h"
    ensures Page(SLASHED, At("/a")) == "https://h/a" && Page(SLASHED, At("/a/")) == "https://h/a"
    ensures Page(SLASHED, At("/a/b")) == "https://h/a/b"
  {
    assert Includes("text/html", "text/html") by { assert "text/html" <= "text/html"[0..]; }
  }

  lemma SlashedIsClosed()
    ensures Closed(SLASHED, SLASHED_PAGES)
  {
    SlashedFacts();
  }

  lemma SlashedReaches()
    ensures Reachable(SLASHED, At("/"), "https://h/a/b")
  {
    SlashedFacts();
    var path := [At("/"), At("/a/"), At("/a/b")];
    assert Reaches(SLASHED, At("/"), path, "https://h/a/b");
  }

  lemma SlashedVisit()
    requires Closed(SLASHED, SLASHED_PAGES)
    ensures Bounded(SLASHED, [At("/")], 0, SLASHED_PAGES)
    ensures Visit(SLASHED, At("/"), [], 0, SLASHED_PAGES) == ["https://h", "https://h/a"]
  {
    SlashedFacts();
    var links, r0, r := [At("/a"), At("/a/")], ["https://h"], ["https://h", "https://h/a"];
    assert r0 + ["https://h/a"] == r;
    assert Visit(SLASHED, At("/"), [], 0, SLASHED_PAGES) == VisitAll(SLASHED, links, r0, 0, SLASHED_PAGES) by {
      assert [] + ["https://h"] == r0;
    }
    assert Visit(SLASHED, At("/a"), r0, 0, SLASHED_PAGES) == r;
    assert VisitAll(SLASHED, links[1..], r, 0, SLASHED_PAGES) == r;
  }

  /** On such a site the crawl misses a reachable page: it only ever visits one URL of a page. */
  lemma RelativeLinksAreMissed()
    ensures Bounded(SLASHED, [At("/")], 0, SLASHED_PAGES)
    ensures Reachable(SLASHED, At("/"), "https://h/a/b")
    ensures "https://h/a/b" !in Visit(SLASHED, At("/"), [], 0, SLASHED_PAGES)
  {
    SlashedIsClosed();
    SlashedReaches();
    SlashedVisit();
  }

  // ---- which URLs are one page ----

  /** Host, port, path and query, as they are written. */
  function Address(u: Url): string { u.hostname + (if u.port != "" then ":" + u.port else "") + u.pathname + u.search }

  predicate EndsInSlash(s: string) { s != "" && s[|s| - 1] == '/' }

  function WithoutSlash(s: string): string { if EndsInSlash(s) then s[..|s| - 1] else s }

  lemma WithoutSlashIff(a: string, b: string)
    ensures WithoutSlash(a) == WithoutSlash(b) <==>
      a == b || (a == b + "/" && !EndsInSlash(b)) || (b == a + "/" && !EndsInSlash(a))
  {
    if EndsInSlash(a) { assert a == a[..|a| - 1] + "/"; }
    if EndsInSlash(b) { assert b == b[..|b| - 1] + "/"; }
  }

  /** Two URLs are one page exactly when their addresses are equal but for one slash at the end; protocol and fragment
      do not count. */
  lemma OnePageIff(u: Url, v: Url)
    ensures var a, b := Address(u), Address(v);
      NormalizeURL(u) == NormalizeURL(v) <==>
        a == b || (a == b + "/" && !EndsInSlash(b)) || (b == a + "/" && !EndsInSlash(a))
  {
    NormalizedAddress(u);
    NormalizedAddress(v);
    hide Address;
    hide NormalizeURL;
    hide WithoutSlash;
    WithoutSlashIff(Address(u), Address(v));
  }

  lemma NormalizedAddress(u: Url)
    ensures NormalizeURL(u) == WithoutSlash(Address(u))
  {
  }

  /** A page is read on from when it answers below 400 with HTML. */
  lemma LinksIff(site: Site, u: Url, l: Url)
    ensures l in Links(site, u) <==>
      match site.fetch(u)
      case Failed => false
      case Response(status, contentType, links) =>
        l in links && status < 400
        && contentType.Some? && exists a, b :: contentType.value == a + ("text/html" + b)
  {
    var fetched := site.fetch(u);
    if fetched.Response? && fetched.contentType.Some? {
      var c := fetched.contentType.value;
      if Includes(c, "text/html") {
        var i :| 0 <= i <= |c| && "text/html" <= c[i..];
        assert c == c[..i] + ("text/html" + c[i..][9..]);
      }
      if exists a, b :: c == a + ("text/html" + b) {
        var a, b :| c == a + ("text/html" + b);
        assert c[|a|..] == "text/html" + b;
      }
    }
  }
}
