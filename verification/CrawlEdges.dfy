/** Where breadth first stops: a redirect costs nothing, yet the page behind it keeps the depth it was first found at. */
module CrawlEdges {
  import opened Options
  import opened CrawlRules
  import opened CrawlGraph
  import opened CrawlProofs

  /** Four pages of one origin: `a` links to `v`, and `b` redirects there. */
  datatype Names = Names(home: Url, a: Url, b: Url, v: Url, toA: Raw, toB: Raw, toV: Raw,
                         origin: Origin, path: UrlPath, query: Query)
  {
    predicate Differ() {
      && home != a && home != b && home != v && a != b && a != v && b != v
      && toA != toB && toA != toV && toB != toV
    }
  }

  function Linked(n: Names): Site {
    Site(n.home, [n.toA, n.toB],
         raw => if raw == n.toA then Some(n.a) else if raw == n.toB then Some(n.b) else if raw == n.toV then Some(n.v) else None,
         url => n.origin, url => n.path, url => n.query, url => false, NoRules,
         url => if url == n.a then Document([n.toV]) else if url == n.b then Redirect(To(n.toV)) else Other)
  }

  const GENEROUS := CrawlOptions(2, 50, 60.0, false)

  function Found(n: Names, seen: set<Url>, queue: seq<Item>, pages: seq<Item>, found: seq<Item>): State {
    State(seen, map[n.path := {n.query}], queue, |found|, map[], pages, false, found, [])
  }

  lemma StartHere(n: Names)
    requires n.Differ()
    ensures Start(Linked(n), GENEROUS)
         == Found(n, {n.home, n.a, n.b}, [Item(n.a, 1), Item(n.b, 1)], [], [Item(n.a, 1), Item(n.b, 1)])
  {
    var site := Linked(n);
    var s0 := Blank(site);
    var s1 := Consider(site, GENEROUS, s0, n.toA, 1);
    assert s1 == Found(n, {n.home, n.a}, [Item(n.a, 1)], [], [Item(n.a, 1)]);
    var s2 := Consider(site, GENEROUS, s1, n.toB, 1);
    assert s2.variants == map[n.path := {n.query}];
    assert s2 == Found(n, {n.home, n.a, n.b}, [Item(n.a, 1), Item(n.b, 1)], [], [Item(n.a, 1), Item(n.b, 1)]);
    assert [n.toA, n.toB][1..] == [n.toB] && [n.toB][1..] == [];
    assert ConsiderAll(site, GENEROUS, s2, [], 1) == s2;
    hide Consider;
    assert ConsiderAll(site, GENEROUS, s1, [n.toB], 1) == s2;
  }

  lemma FirstTurn(n: Names)
    requires n.Differ()
    ensures var a, b, v := Item(n.a, 1), Item(n.b, 1), Item(n.v, 2);
      TakeTurn(Linked(n), GENEROUS, Found(n, {n.home, n.a, n.b}, [a, b], [], [a, b]), 0.0)
      == Goes(Found(n, {n.home, n.a, n.b, n.v}, [b, v], [a], [a, b, v]))
  {
    var site := Linked(n);
    var a, b, v := Item(n.a, 1), Item(n.b, 1), Item(n.v, 2);
    var kept := Found(n, {n.home, n.a, n.b}, [b], [a], [a, b]);
    assert [a, b][1..] == [b] && [] + [a] == [a];
    assert Known(kept, n.path) == {n.query} && {n.query} + {n.query} == {n.query};
    assert Refusal(site, GENEROUS, kept, n.v, 2) == None;
    var next := Consider(site, GENEROUS, kept, n.toV, 2);
    assert next.variants == map[n.path := {n.query}];
    assert next == Found(n, {n.home, n.a, n.b, n.v}, [b, v], [a], [a, b, v]);
    assert [n.toV][1..] == [];
    assert ConsiderAll(site, GENEROUS, next, [], 2) == next;
    hide Consider;
    assert ConsiderAll(site, GENEROUS, kept, [n.toV], 2) == next;
  }

  lemma SecondTurn(n: Names)
    requires n.Differ()
    ensures var a, b, v := Item(n.a, 1), Item(n.b, 1), Item(n.v, 2); var seen := {n.home, n.a, n.b, n.v};
      TakeTurn(Linked(n), GENEROUS, Found(n, seen, [b, v], [a], [a, b, v]), 0.0)
      == Goes(Found(n, seen, [v], [a, b], [a, b, v]))
  {
    var a, b, v := Item(n.a, 1), Item(n.b, 1), Item(n.v, 2);
    assert [b, v][1..] == [v] && [a] + [b] == [a, b];
  }

  lemma LastTurn(n: Names)
    requires n.Differ()
    ensures var a, b, v := Item(n.a, 1), Item(n.b, 1), Item(n.v, 2); var seen := {n.home, n.a, n.b, n.v};
      TakeTurn(Linked(n), GENEROUS, Found(n, seen, [v], [a, b], [a, b, v]), 0.0)
      == Goes(Found(n, seen, [], [a, b, v], [a, b, v]))
  {
    var a, b, v := Item(n.a, 1), Item(n.b, 1), Item(n.v, 2);
    assert [v][1..] == [] && [a, b] + [v] == [a, b, v];
  }

  lemma RunsTo(n: Names)
    requires n.Differ()
    ensures Run(Linked(n), GENEROUS, _ => 0.0).0.pages == [Item(n.a, 1), Item(n.b, 1), Item(n.v, 2)]
  {
    var site, clock := Linked(n), _ => 0.0;
    var a, b, v := Item(n.a, 1), Item(n.b, 1), Item(n.v, 2);
    var seen := {n.home, n.a, n.b, n.v};
    var s0 := Found(n, {n.home, n.a, n.b}, [a, b], [], [a, b]);
    var s1 := Found(n, seen, [b, v], [a], [a, b, v]);
    var s2 := Found(n, seen, [v], [a, b], [a, b, v]);
    var s3 := Found(n, seen, [], [a, b, v], [a, b, v]);
    StartHere(n);
    FirstTurn(n);
    SecondTurn(n);
    LastTurn(n);
    hide TakeTurn, Linked, Start, Left;
    assert RunFrom(site, GENEROUS, clock, s3, 3).0.pages == s3.pages;
    assert RunFrom(site, GENEROUS, clock, s2, 2) == RunFrom(site, GENEROUS, clock, s3, 3);
    assert RunFrom(site, GENEROUS, clock, s1, 1) == RunFrom(site, GENEROUS, clock, s2, 2);
    assert RunFrom(site, GENEROUS, clock, s0, 0) == RunFrom(site, GENEROUS, clock, s1, 1);
  }

  /**
   * With redirects the recorded depth need not be the smallest: here a page is recorded at depth two although a route
   * through fetched pages, one link and one redirect, costs only one.
   */
  lemma RedirectsHideShorterRoutes(n: Names)
    requires n.Differ()
    ensures var pages := Run(Linked(n), GENEROUS, _ => 0.0).0.pages;
      && GENEROUS.Valid() && Item(n.v, 2) in pages && Realised(Linked(n), Urls(pages), Item(n.v, 1))
  {
    RunsTo(n);
    hide Run, Realised, Linked;
    var pages := Run(Linked(n), GENEROUS, _ => 0.0).0.pages;
    assert pages[2] == Item(n.v, 2) && pages[1].url == n.b;
    ShortRoute(n, Urls(pages));
  }

  lemma ShortRoute(n: Names, fetched: set<Url>)
    requires n.Differ() && n.b in fetched
    ensures Realised(Linked(n), fetched, Item(n.v, 1))
  {
    LinksLead(n);
    HomeIsRealised(Linked(n), fetched);
    hide Linked, Leads, Realised, StepCost;
    RouteGoesOn(Linked(n), fetched, Item(n.home, 0), n.b);
    RouteGoesOn(Linked(n), fetched, Item(n.b, 1), n.v);
  }

  lemma LinksLead(n: Names)
    requires n.Differ()
    ensures Leads(Linked(n), n.home, n.b) && Leads(Linked(n), n.b, n.v)
    ensures StepCost(Linked(n), n.home) == 1 && StepCost(Linked(n), n.b) == 0 && Linked(n).home == n.home
  {
    var site := Linked(n);
    assert Offers(site, n.home)[1] == n.toB && site.normalize(n.toB) == Some(n.b);
    assert Offers(site, n.b)[0] == n.toV && site.normalize(n.toV) == Some(n.v);
  }
}
