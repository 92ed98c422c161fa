/** The graph a crawl explores: who leads where, routes through fetched pages, and what a route costs. */
module CrawlGraph {
  import opened Options
  import opened CrawlRules

  /** The links a URL offers: those of the home page are given, those of another page come from its answer. */
  function Offers(site: Site, u: Url): seq<Raw> {
    if u == site.home then site.homeLinks
    else match site.answer(u)
      case Redirect(To(raw)) => [raw]
      case Document(links) => links
      case _ => []
  }

  ghost predicate Leads(site: Site, u: Url, v: Url) {
    exists raw :: raw in Offers(site, u) && site.normalize(raw) == Some(v)
  }

  predicate Redirects(site: Site, u: Url) {
    u != site.home && site.answer(u).Redirect?
  }

  /** Following a link costs one, following a redirect nothing. */
  function StepCost(site: Site, u: Url): int {
    if Redirects(site, u) then 0 else 1
  }

  /** A walk from the home page on which every URL before the last one was fetched. */
  ghost predicate Route(site: Site, fetched: set<Url>, path: seq<Url>) {
    && path != [] && path[0] == site.home
    && forall k :: 0 <= k < |path| - 1 ==>
         (path[k] == site.home || path[k] in fetched) && Leads(site, path[k], path[k + 1])
  }

  function Cost(site: Site, path: seq<Url>): int {
    if |path| <= 1 then 0 else Cost(site, path[..|path| - 1]) + StepCost(site, path[|path| - 2])
  }

  ghost predicate RouteTo(site: Site, fetched: set<Url>, path: seq<Url>, item: Item) {
    Route(site, fetched, path) && path[|path| - 1] == item.url && Cost(site, path) == item.depth
  }

  /** The depth is the cost of some route. */
  ghost predicate Realised(site: Site, fetched: set<Url>, item: Item) {
    exists path :: RouteTo(site, fetched, path, item)
  }

  lemma RealisedStays(site: Site, few: set<Url>, many: set<Url>, item: Item)
    requires few <= many && Realised(site, few, item)
    ensures Realised(site, many, item)
  {
    var path :| RouteTo(site, few, path, item);
    hide Leads;
    assert RouteTo(site, many, path, item);
  }

  lemma {:induction false} CostIsNatural(site: Site, path: seq<Url>)
    ensures Cost(site, path) >= 0
  {
    if |path| > 1 {
      CostIsNatural(site, path[..|path| - 1]);
    }
  }

  lemma RealisedIsNatural(site: Site, fetched: set<Url>, item: Item)
    requires Realised(site, fetched, item)
    ensures item.depth >= 0
  {
    var path :| RouteTo(site, fetched, path, item);
    CostIsNatural(site, path);
  }

  lemma HomeIsRealised(site: Site, fetched: set<Url>)
    ensures Realised(site, fetched, Item(site.home, 0))
  {
    assert RouteTo(site, fetched, [site.home], Item(site.home, 0));
  }

  /** One more step on a route. */
  lemma RouteGoesOn(site: Site, fetched: set<Url>, from: Item, v: Url)
    requires Realised(site, fetched, from) && (from.url == site.home || from.url in fetched) && Leads(site, from.url, v)
    ensures Realised(site, fetched, Item(v, from.depth + StepCost(site, from.url)))
  {
    var path :| RouteTo(site, fetched, path, from);
    hide Leads;
    var longer := path + [v];
    assert longer[..|longer| - 1] == path;
    assert RouteTo(site, fetched, longer, Item(v, from.depth + StepCost(site, from.url)));
  }

  /** Without redirects a route costs its number of links. */
  lemma {:induction false} CostIsLength(site: Site, path: seq<Url>)
    requires path != [] && forall k :: 0 <= k < |path| - 1 ==> !Redirects(site, path[k])
    ensures Cost(site, path) == |path| - 1
  {
    if |path| > 1 {
      CostIsLength(site, path[..|path| - 1]);
    }
  }

  // --- plain reachability, without any notion of what was fetched ------------------------------------------

  predicate SameOrigin(site: Site, u: Url) {
    site.originOf(u) == site.originOf(site.home)
  }

  /** A walk from the home page along links and redirects that never leaves the home page's origin. */
  ghost predicate Walk(site: Site, path: seq<Url>) {
    && path != [] && path[0] == site.home
    && (forall k :: 0 <= k < |path| ==> SameOrigin(site, path[k]))
    && (forall k :: 0 <= k < |path| - 1 ==> Leads(site, path[k], path[k + 1]))
  }

  ghost predicate WalkTo(site: Site, path: seq<Url>, u: Url) {
    Walk(site, path) && path[|path| - 1] == u
  }

  ghost predicate Reachable(site: Site, u: Url) {
    exists path :: WalkTo(site, path, u)
  }

  /** A set that holds the home page and everything of its origin that its members lead to holds all that is reachable. */
  lemma {:induction false} ClosedSetHoldsWalk(site: Site, closed: set<Url>, path: seq<Url>)
    requires Walk(site, path) && site.home in closed
    requires forall u, v :: u in closed && Leads(site, u, v) && SameOrigin(site, v) ==> v in closed
    ensures path[|path| - 1] in closed
  {
    if |path| > 1 {
      var front := path[..|path| - 1];
      assert forall k :: 0 <= k < |front| - 1 ==> Leads(site, path[k], path[k + 1]);
      ClosedSetHoldsWalk(site, closed, front);
      assert Leads(site, path[|path| - 2], path[|path| - 2 + 1]);
    }
  }

  lemma RouteIsWalk(site: Site, fetched: set<Url>, path: seq<Url>)
    requires Route(site, fetched, path) && SameOrigin(site, path[|path| - 1])
    requires forall u :: u in fetched ==> SameOrigin(site, u)
    ensures Walk(site, path)
  {
    hide Leads;
    forall k | 0 <= k < |path| ensures SameOrigin(site, path[k]) {
      assert k < |path| - 1 ==> path[k] == site.home || path[k] in fetched;
    }
  }
}
