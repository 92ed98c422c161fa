/** When a crawl ends without a result: the one exception that leaves it, and how a caller can rule it out. */
module CrawlRaises {
  import opened Options
  import opened CrawlRules
  import opened CrawlGraph
  import opened CrawlProofs
  import opened CrawlTheorems

  /** The last page fetched, or the robots.txt that was read, names a character set that is not known. */
  predicate MetUnknownCharset(site: Site, opts: CrawlOptions, st: State) {
    || (st.pages != [] && site.answer(st.pages[|st.pages| - 1].url) == Undecodable)
    || (opts.respectRobots && st.robotsLoaded && site.robots.RobotsUndecodable?)
  }

  /** Everything fetched so far could be decoded. */
  predicate AllDecoded(site: Site, opts: CrawlOptions, st: State) {
    && (forall k :: 0 <= k < |st.pages| ==> site.answer(st.pages[k].url) != Undecodable)
    && !(opts.respectRobots && st.robotsLoaded && site.robots.RobotsUndecodable?)
  }

  lemma TurnDecodes(site: Site, opts: CrawlOptions, st: State, elapsed: real)
    requires AllDecoded(site, opts, st) && st.queue != []
    ensures var turn := TakeTurn(site, opts, st, elapsed);
      && (turn.Goes? ==> AllDecoded(site, opts, turn.st))
      && (turn.Stops? ==> (turn.reason == Raised <==> MetUnknownCharset(site, opts, turn.st)))
  {
    hide Consider, ConsiderAll;
    var item := st.queue[0];
    var kept := PoppedState(opts, st).(pages := st.pages + [item]);
    match site.answer(item.url) {
      case Redirect(To(raw)) => ConsideringKeepsPages(site, opts, kept, raw, item.depth);
      case Document(links) => ConsideringAllKeepsPages(site, opts, kept, links, item.depth + 1);
      case _ =>
    }
  }

  lemma {:induction false} RunDecodes(site: Site, opts: CrawlOptions, clock: nat -> real, st: State, n: nat)
    requires AllDecoded(site, opts, st) && st.discovered <= MAX_DISCOVERED
    ensures var (t, reason) := RunFrom(site, opts, clock, st, n); reason == Raised <==> MetUnknownCharset(site, opts, t)
    decreases Left(st)
  {
    if st.queue != [] {
      hide TakeTurn, AllDecoded, MetUnknownCharset;
      TurnDecodes(site, opts, st, clock(n));
      if TakeTurn(site, opts, st, clock(n)).Goes? {
        TurnLowersLeft(site, opts, st, clock(n));
        RunDecodes(site, opts, clock, TakeTurn(site, opts, st, clock(n)).st, n + 1);
      }
    }
  }

  /** The exception leaves a crawl exactly when it met a character set that is not known. */
  lemma RaisesIffUnknownCharset(site: Site, opts: CrawlOptions, clock: nat -> real)
    ensures var (t, reason) := Run(site, opts, clock); reason == Raised <==> MetUnknownCharset(site, opts, t)
  {
    ConsideringAllKeepsPages(site, opts, Blank(site), site.homeLinks, 1);
    ConsiderAllKeepsLeft(site, opts, Blank(site), site.homeLinks, 1);
    RunDecodes(site, opts, clock, Start(site, opts), 0);
  }

  /** What a caller can make sure of beforehand: a site whose pages and robots.txt all decode lets no exception out. */
  lemma DecodableSiteNeverRaises(site: Site, opts: CrawlOptions, clock: nat -> real)
    requires opts.Valid() && (opts.respectRobots ==> !site.robots.RobotsUndecodable?)
    requires forall u :: SameOrigin(site, u) && u != site.home ==> site.answer(u) != Undecodable
    ensures Run(site, opts, clock).1 != Raised
  {
    var (t, reason) := Run(site, opts, clock);
    RaisesIffUnknownCharset(site, opts, clock);
    EveryPageIsReached(site, opts, clock);
    hide Run, Reachable, Realised;
    if t.pages != [] {
      assert Legitimate(site, opts, t.pages[|t.pages| - 1]);
    }
  }

  /** A robots.txt that does not decode makes every crawl raise that gets as far as reading it. */
  lemma UndecodableRobotsRaiseIff(site: Site, opts: CrawlOptions, clock: nat -> real)
    requires opts.respectRobots && site.robots.RobotsUndecodable?
    ensures Run(site, opts, clock).1 == Raised
       <==> Start(site, opts).queue != [] && clock(0) < opts.maxDuration && opts.maxPages > 1
  {
    ConsideringAllKeepsPages(site, opts, Blank(site), site.homeLinks, 1);
    ConsiderAllKeepsLeft(site, opts, Blank(site), site.homeLinks, 1);
    hide Visit, Consider, ConsiderAll;
    var st := Start(site, opts);
    if st.queue != [] {
      assert TakeTurn(site, opts, st, clock(0)).Stops?;
    }
  }

  // --- an input that raises --------------------------------------------------------------------------------------

  /** A home page with one link, to a page of the same origin in a character set that is not known. */
  function OneBadPage(home: Url, page: Url, link: Raw, origin: Origin, path: UrlPath, query: Query): Site {
    Site(home, [link], raw => Some(page), url => origin, url => path, url => query, url => false, NoRules,
         url => Undecodable)
  }

  lemma OneBadPageRaises(home: Url, page: Url, link: Raw, origin: Origin, path: UrlPath, query: Query)
    requires home != page
    ensures var opts := CrawlOptions(2, 50, 60.0, true);
      opts.Valid() && Run(OneBadPage(home, page, link, origin, path, query), opts, _ => 0.0).1 == Raised
  {
    var site, opts := OneBadPage(home, page, link, origin, path, query), CrawlOptions(2, 50, 60.0, true);
    var clock: nat -> real := _ => 0.0;
    var st := Consider(site, opts, Blank(site), link, 1);
    assert st.queue == [Item(page, 1)] && st.pages == [] && st.discovered == 1;
    assert [link][1..] == [];
    hide Consider;
    assert ConsiderAll(site, opts, st, [], 1) == st;
    assert Start(site, opts) == st;
    assert TakeTurn(site, opts, st, 0.0).Stops? && TakeTurn(site, opts, st, 0.0).reason == Raised;
    hide TakeTurn, Start, Left;
    assert RunFrom(site, opts, clock, st, 0).1 == Raised;
  }
}
