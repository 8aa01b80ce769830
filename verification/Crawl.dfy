/** The bounded depth-first crawl that pushes normalized pages onto one shared list. */
module Crawl {
  import opened Wrappers

  /** A parsed URL; `port` and `search` are empty when absent. */
  datatype Url = Url(protocol: string, hostname: string, port: string, pathname: string, search: string, hash: string)

  datatype Fetch = Failed | Response(status: int, contentType: Option<string>, links: seq<Url>)

  /** What every request answers, and where the crawl is based. */
  datatype Site = Site(protocol: string, hostname: string, fetch: Url -> Fetch)

  function NormalizeURL(u: Url): string {
    var port := if u.port != "" then ":" + u.port else "";
    var hostPath := u.hostname + port + u.pathname + u.search;
    if |hostPath| > 0 && hostPath[|hostPath| - 1] == '/' then hostPath[..|hostPath| - 1] else hostPath
  }

  predicate Includes(s: string, t: string) { exists i | 0 <= i <= |s| :: t <= s[i..] }

  /** The links that a visit to `u` follows: none after a failure, an error status or a non-HTML body. */
  function Links(site: Site, u: Url): seq<Url> {
    match site.fetch(u)
    case Failed => []
    case Response(status, contentType, links) =>
      if status > 399 || contentType.None? || !Includes(contentType.value, "text/html") then [] else links
  }

  function Page(site: Site, u: Url): string { site.protocol + "//" + NormalizeURL(u) }

  predicate Local(site: Site, u: Url) { u.hostname == site.hostname }

  /** The same-host pages linked from `u`. */
  function NextPages(site: Site, u: Url): set<string> {
    set l | l in Links(site, u) && Local(site, l) :: Page(site, l)
  }

  // ---- termination ----

  /** `all` holds every page that same-host links can lead to from a page in it. */
  ghost predicate Closed(site: Site, all: set<string>) {
    forall u: Url {:trigger NextPages(site, u)} | Local(site, u) && Page(site, u) in all :: NextPages(site, u) <= all
  }

  /** Links that stay on the host stay among the pages `all`; with a limit nothing is asked of them. */
  ghost predicate Bounded(site: Site, urls: seq<Url>, limit: nat, all: set<string>) {
    limit == 0 ==> Closed(site, all) && forall u | u in urls && Local(site, u) :: Page(site, u) in all
  }

  ghost predicate Fits(pages: seq<string>, limit: nat) { limit != 0 ==> |pages| <= limit }

  ghost function ToSet(pages: seq<string>): set<string> { set p | p in pages }

  /** How many more pages can be pushed. */
  ghost function Room(pages: seq<string>, limit: nat, all: set<string>): nat
    requires Fits(pages, limit)
  {
    if limit != 0 then limit - |pages| else |all - ToSet(pages)|
  }

  lemma RoomShrinks(pages: seq<string>, p: string, limit: nat, all: set<string>)
    requires Fits(pages, limit) && (limit != 0 ==> |pages| != limit)
    requires p !in pages && (limit == 0 ==> p in all)
    ensures Fits(pages + [p], limit) && Room(pages + [p], limit, all) < Room(pages, limit, all)
  {
    if limit == 0 {
      assert all - ToSet(pages + [p]) == (all - ToSet(pages)) - {p};
    }
  }

  lemma RoomNeverGrows(pages: seq<string>, more: seq<string>, limit: nat, all: set<string>)
    requires Fits(pages, limit) && Fits(more, limit) && pages <= more
    ensures Room(more, limit, all) <= Room(pages, limit, all)
  {
    if limit == 0 {
      StaysOnList(pages, more);
      SubsetCardinality(all - ToSet(more), all - ToSet(pages));
    }
  }

  lemma StaysOnList(pages: seq<string>, more: seq<string>)
    requires pages <= more
    ensures ToSet(pages) <= ToSet(more)
  {
    forall p | p in pages ensures p in more {
      var i :| 0 <= i < |pages| && pages[i] == p;
      assert more[i] == p;
    }
  }

  lemma SubsetCardinality(a: set<string>, b: set<string>)
    requires a <= b
    ensures |a| <= |b|
  {
    assert b == a + (b - a);
  }

  // ---- what a crawl computes ----

  ghost predicate Stops(site: Site, u: Url, pages: seq<string>, limit: nat) {
    || (limit != 0 && |pages| == limit)
    || !Local(site, u)
    || Page(site, u) in pages
  }

  ghost predicate Extends(pages: seq<string>, more: seq<string>) {
    && pages <= more
    && forall i, j | 0 <= i < |more| && |pages| <= j < |more| && i != j :: more[i] != more[j]
  }

  /** The list after a visit to `u`: it only grows, and every page it gains is new. */
  ghost function Visit(site: Site, u: Url, pages: seq<string>, limit: nat, all: set<string>): (r: seq<string>)
    requires Bounded(site, [u], limit, all) && Fits(pages, limit)
    ensures Extends(pages, r) && Fits(r, limit)
    decreases Room(pages, limit, all), 0
  {
    if Stops(site, u, pages, limit) then pages
    else
      var p := Page(site, u);
      assert u in [u];
      RoomShrinks(pages, p, limit, all);
      LinksBounded(site, u, limit, all);
      VisitAll(site, Links(site, u), pages + [p], limit, all)
  }

  ghost function VisitAll(site: Site, urls: seq<Url>, pages: seq<string>, limit: nat,
                          all: set<string>): (r: seq<string>)
    requires Bounded(site, urls, limit, all) && Fits(pages, limit)
    ensures Extends(pages, r) && Fits(r, limit)
    decreases Room(pages, limit, all), |urls|
  {
    if urls == [] then pages
    else
      var more := Visit(site, urls[0], pages, limit, all);
      RoomNeverGrows(pages, more, limit, all);
      VisitAll(site, urls[1..], more, limit, all)
  }

  lemma LinksBounded(site: Site, u: Url, limit: nat, all: set<string>)
    requires Local(site, u) && Bounded(site, [u], limit, all)
    ensures Bounded(site, Links(site, u), limit, all)
  {
    if limit == 0 {
      assert u in [u];
      forall l | l in Links(site, u) && Local(site, l) ensures Page(site, l) in all {
        assert Page(site, l) in NextPages(site, u);
      }
    }
  }

  lemma BoundedAt(site: Site, urls: seq<Url>, i: nat, limit: nat, all: set<string>)
    requires Bounded(site, urls, limit, all) && i < |urls|
    ensures Bounded(site, [urls[i]], limit, all) && Bounded(site, urls[i..], limit, all)
    ensures Bounded(site, urls[i + 1..], limit, all)
  {
    hide Closed;
  }

  /** The recursive crawl, with the page list as the array that all calls share. */
  class Crawler {
    const site: Site
    const limit: nat
    var pages: seq<string>

    constructor (site: Site, limit: nat)
      ensures this.site == site && this.limit == limit && pages == []
    {
      this.site, this.limit, pages := site, limit, [];
    }

    method Crawl(currentURL: Url, ghost all: set<string>)
      requires Bounded(site, [currentURL], limit, all) && Fits(pages, limit)
      modifies this
      ensures Fits(pages, limit)
      ensures pages == Visit(site, currentURL, old(pages), limit, all)
      decreases Room(pages, limit, all)
    {
      hide Room;
      hide NormalizeURL;
      hide Links;
      if limit != 0 && |pages| == limit { return; }
      if site.hostname != currentURL.hostname { return; }
      var normalizeCurrentURL := site.protocol + "//" + NormalizeURL(currentURL);
      if normalizeCurrentURL in pages { return; }
      assert currentURL in [currentURL];
      RoomShrinks(pages, normalizeCurrentURL, limit, all);
      LinksBounded(site, currentURL, limit, all);
      pages := pages + [normalizeCurrentURL];
      ghost var pushed := pages;
      var nextURLs := Links(site, currentURL);
      for i := 0 to |nextURLs|
        invariant Fits(pages, limit) && Extends(pushed, pages)
        invariant VisitAll(site, nextURLs[i..], pages, limit, all) == VisitAll(site, nextURLs, pushed, limit, all)
      {
        RoomNeverGrows(pushed, pages, limit, all);
        BoundedAt(site, nextURLs, i, limit, all);
        Crawl(nextURLs[i], all);
        assert nextURLs[i..][1..] == nextURLs[i + 1..];
      }
    }
  }
}
