/** What the result of a crawl means, for every site, every clock and every stop reason. */
module CrawlTheorems {
  import opened Options
  import opened CrawlRules
  import opened CrawlGraph
  import opened CrawlProofs

  /** All that was fetched was followed, and breadth first as long as nothing redirected. */
  ghost predicate Explored(site: Site, st: State) {
    && AllFollowed(site, st)
    && (NoRedirects(site, st.pages) ==>
         && Ascending(st.found) && FollowedWithin(site, st, site.home, 1)
         && forall k :: 0 <= k < |st.pages| ==> FollowedWithin(site, st, st.pages[k].url, st.pages[k].depth + 1))
  }

  /** How many URLs had been taken from the queue and were dropped when the crawl stopped. */
  predicate DropsOne(reason: Reason) { reason == ScanLimit || reason == RobotsUnavailable }

  ghost predicate Final(site: Site, opts: CrawlOptions, st: State, reason: Reason) {
    && Books(site, opts, st) && RoutesOk(site, st) && |st.pages| + 1 <= opts.maxPages
    && (reason == Raised || Explored(site, st))
    && (if reason == Raised then PagesOk(st, 0) || PagesOk(st, 1) else PagesOk(st, if DropsOne(reason) then 1 else 0))
    && (reason == Complete || reason == MaxDepth ==> st.queue == [])
    && (reason == Complete ==> Count(st.skipped, BeyondDepth) == 0)
  }

  lemma InvIsExplored(site: Site, opts: CrawlOptions, st: State)
    requires CrawlInv(site, opts, st)
    ensures Explored(site, st)
  {
    hide Books, PagesOk, RoutesOk, AllFollowed, FollowedWithin, Ascending, AtMost;
  }

  lemma PendingIsExplored(site: Site, opts: CrawlOptions, st: State, item: Item)
    requires Pending(site, opts, st, item)
    ensures Explored(site, st)
  {
    hide Books, PagesOk, RoutesOk, AllFollowed, FollowedWithin, Ascending, AtMost;
  }

  lemma PoppedStop(site: Site, opts: CrawlOptions, st: State, reason: Reason)
    requires CrawlInv(site, opts, st) && st.queue != [] && |st.pages| + 2 <= opts.maxPages
    requires DropsOne(reason) || reason == Raised
    ensures Final(site, opts, PoppedState(opts, st), reason)
  {
    hide CrawlInv, Explored, Pending, Books, PagesOk, RoutesOk;
    PopKeeps(site, opts, st);
    PendingIsExplored(site, opts, PoppedState(opts, st), st.queue[0]);
    PendingIsKept(site, opts, PoppedState(opts, st), st.queue[0]);
  }

  lemma PendingIsKept(site: Site, opts: CrawlOptions, st: State, item: Item)
    requires Pending(site, opts, st, item)
    ensures Books(site, opts, st) && PagesOk(st, 1) && RoutesOk(site, st) && |st.pages| + 1 <= opts.maxPages
  {
    hide Books, PagesOk, RoutesOk, AllFollowed, LayeredBehind, NoRedirects, LastTaken, Legitimate;
  }

  lemma UndecodableStop(site: Site, opts: CrawlOptions, st: State)
    requires CrawlInv(site, opts, st) && st.queue != [] && |st.pages| + 2 <= opts.maxPages
    ensures var t := PoppedState(opts, st);
            Final(site, opts, t.(pages := t.pages + [st.queue[0]]), Raised)
  {
    hide CrawlInv, Pending, Explored;
    PopKeeps(site, opts, st);
    KeepPage(site, opts, PoppedState(opts, st), st.queue[0]);
    hide Books, PagesOk, RoutesOk, KeptFollows, LastTaken, LastPage, Source;
  }

  lemma EarlyStop(site: Site, opts: CrawlOptions, st: State, reason: Reason)
    requires CrawlInv(site, opts, st) && (reason == MaxDuration || reason == MaxPages)
    ensures Final(site, opts, st, reason)
  {
    InvIsExplored(site, opts, st);
    hide Books, PagesOk, RoutesOk, AllFollowed, Explored, Layered;
  }

  /** The three ways a turn ends the crawl. */
  lemma StopCases(site: Site, opts: CrawlOptions, st: State, elapsed: real)
    requires st.queue != [] && TakeTurn(site, opts, st, elapsed).Stops?
    ensures var turn := TakeTurn(site, opts, st, elapsed); var popped := PoppedState(opts, st);
      || (turn.st == st && (turn.reason == MaxDuration || turn.reason == MaxPages))
      || (turn.st == popped && |st.pages| + 2 <= opts.maxPages && (DropsOne(turn.reason) || turn.reason == Raised))
      || (turn.st == popped.(pages := popped.pages + [st.queue[0]]) && |st.pages| + 2 <= opts.maxPages
          && turn.reason == Raised)
  {
    hide Consider, ConsiderAll, Skipped;
  }

  lemma StopIsFinal(site: Site, opts: CrawlOptions, st: State, elapsed: real)
    requires CrawlInv(site, opts, st) && st.queue != [] && TakeTurn(site, opts, st, elapsed).Stops?
    ensures var turn := TakeTurn(site, opts, st, elapsed); Final(site, opts, turn.st, turn.reason)
  {
    hide CrawlInv, Final, TakeTurn;
    var turn := TakeTurn(site, opts, st, elapsed);
    StopCases(site, opts, st, elapsed);
    if turn.reason == MaxDuration || turn.reason == MaxPages {
      EarlyStop(site, opts, st, turn.reason);
    } else if turn.st == PoppedState(opts, st) {
      PoppedStop(site, opts, st, turn.reason);
    } else {
      UndecodableStop(site, opts, st);
    }
  }

  lemma {:induction false} RunEndsWell(site: Site, opts: CrawlOptions, clock: nat -> real, st: State, n: nat)
    requires CrawlInv(site, opts, st) && st.discovered <= MAX_DISCOVERED
    ensures var (t, reason) := RunFrom(site, opts, clock, st, n); Final(site, opts, t, reason)
    decreases Left(st)
  {
    if st.queue == [] {
      InvIsExplored(site, opts, st);
      hide Books, PagesOk, RoutesOk, AllFollowed, Explored, Layered;
    } else {
      hide CrawlInv, Final;
      if TakeTurn(site, opts, st, clock(n)).Stops? {
        StopIsFinal(site, opts, st, clock(n));
      } else {
        TurnKeeps(site, opts, st, clock(n));
        TurnLowersLeft(site, opts, st, clock(n));
        RunEndsWell(site, opts, clock, TakeTurn(site, opts, st, clock(n)).st, n + 1);
      }
    }
  }

  lemma CrawlIsFinal(site: Site, opts: CrawlOptions, clock: nat -> real)
    requires opts.Valid()
    ensures var (t, reason) := Run(site, opts, clock); Final(site, opts, t, reason)
  {
    hide CrawlInv, Final;
    ConsiderAllKeepsLeft(site, opts, Blank(site), site.homeLinks, 1);
    StartIsGood(site, opts);
    RunEndsWell(site, opts, clock, Start(site, opts), 0);
  }

  /**
   * Conservation. Each URL seen, the home page aside, was queued or counted under one reason; each URL queued is still
   * queued, was fetched, or was passed over with a count, but for the one in hand when the scan's limit or an
   * unreadable robots.txt ended the crawl. No page is fetched twice and the page limit holds.
   */
  lemma NothingIsUnaccounted(site: Site, opts: CrawlOptions, clock: nat -> real)
    requires opts.Valid()
    ensures var (t, reason) := Run(site, opts, clock);
      && |t.seen| - 1 == Refused(t.skipped) + t.discovered
      && (reason != Raised ==>
            t.discovered == |t.queue| + |t.pages| + Passed(t.skipped) + (if DropsOne(reason) then 1 else 0))
      && DistinctUrls(t.pages) && |t.pages| + 1 <= opts.maxPages && t.discovered <= MAX_DISCOVERED
  {
    CrawlIsFinal(site, opts, clock);
    hide RoutesOk, Explored, VariantsOk, SeenExplained, Run;
  }

  /** Every fetched page is reached by links and redirects of the home page and fetched pages; none is out of bounds. */
  lemma EveryPageIsReached(site: Site, opts: CrawlOptions, clock: nat -> real)
    requires opts.Valid()
    ensures var (t, reason) := Run(site, opts, clock);
      forall k :: 0 <= k < |t.pages| ==>
        && Realised(site, Urls(t.pages), t.pages[k]) && Legitimate(site, opts, t.pages[k])
        && Reachable(site, t.pages[k].url)
  {
    var (t, reason) := Run(site, opts, clock);
    CrawlIsFinal(site, opts, clock);
    FinalPagesAreReached(site, opts, t, reason);
  }

  lemma PagesWereFound(site: Site, opts: CrawlOptions, t: State, reason: Reason, k: nat)
    requires Final(site, opts, t, reason) && k < |t.pages|
    ensures Realised(site, Urls(t.pages), t.pages[k]) && Legitimate(site, opts, t.pages[k])
    ensures exists i :: 0 <= i < |t.found| && t.found[i] == t.pages[k]
  {
    var pending := if PagesOk(t, 0) then 0 else 1;
    assert PagesOk(t, pending);
    assert t.pages[k] in t.found[..Taken(t) - pending];
    var i :| 0 <= i < Taken(t) - pending && t.found[i] == t.pages[k];
    hide Realised;
    assert Realised(site, Urls(t.pages), t.found[i]);
  }

  lemma FinalPagesAreReached(site: Site, opts: CrawlOptions, t: State, reason: Reason)
    requires Final(site, opts, t, reason)
    ensures forall k :: 0 <= k < |t.pages| ==>
      && Realised(site, Urls(t.pages), t.pages[k]) && Legitimate(site, opts, t.pages[k])
      && Reachable(site, t.pages[k].url)
  {
    hide Final, Leads;
    forall k | 0 <= k < |t.pages| ensures Realised(site, Urls(t.pages), t.pages[k]) && Legitimate(site, opts, t.pages[k]) {
      PagesWereFound(site, opts, t, reason, k);
    }
    forall k | 0 <= k < |t.pages| ensures Reachable(site, t.pages[k].url) {
      var path :| RouteTo(site, Urls(t.pages), path, t.pages[k]);
      RouteIsWalk(site, Urls(t.pages), path);
      assert WalkTo(site, path, t.pages[k].url);
    }
  }

  // --- breadth first ---------------------------------------------------------------------------------------

  /** The index at which a URL was found, when it was. */
  lemma PageDepth(site: Site, opts: CrawlOptions, t: State, reason: Reason, u: Url)
    requires Final(site, opts, t, reason) && u in Urls(t.pages)
    ensures exists i :: 0 <= i < |t.found| && t.found[i].url == u && t.found[i] in t.pages
  {
    var k :| 0 <= k < |t.pages| && t.pages[k].url == u;
    hide Final;
    PagesWereFound(site, opts, t, reason, k);
    var i :| 0 <= i < |t.found| && t.found[i] == t.pages[k];
  }

  /** When no page redirected, whatever a route of n links ends at was found at depth at most n, if it was found. */
  lemma {:induction false} RouteBoundsDepth(site: Site, opts: CrawlOptions, t: State, reason: Reason,
                                            path: seq<Url>, i: nat)
    requires Final(site, opts, t, reason) && reason != Raised && NoRedirects(site, t.pages)
    requires Route(site, Urls(t.pages), path) && |path| > 1
    requires i < |t.found| && t.found[i].url == path[|path| - 1]
    ensures t.found[i].depth <= |path| - 1
    decreases |path|
  {
    var front := path[..|path| - 1];
    var u := front[|front| - 1];
    assert Leads(site, path[|path| - 2], path[|path| - 2 + 1]);
    if u == site.home {
      FollowedFromHome(site, opts, t, reason, i);
    } else {
      assert path[|path| - 2] == site.home || path[|path| - 2] in Urls(t.pages);
      PageDepth(site, opts, t, reason, u);
      var j :| 0 <= j < |t.found| && t.found[j].url == u && t.found[j] in t.pages;
      FrontIsRoute(site, Urls(t.pages), path);
      hide Final, Leads, Route;
      RouteBoundsDepth(site, opts, t, reason, front, j);
      FollowedFromPage(site, opts, t, reason, t.found[j], i);
    }
  }

  lemma FrontIsRoute(site: Site, fetched: set<Url>, path: seq<Url>)
    requires Route(site, fetched, path) && |path| > 1 && path[|path| - 2] != site.home
    ensures Route(site, fetched, path[..|path| - 1]) && |path| > 2
  {
    hide Leads;
    var front := path[..|path| - 1];
    forall k | 0 <= k < |front| - 1
      ensures (front[k] == site.home || front[k] in fetched) && Leads(site, front[k], front[k + 1])
    {
      assert Leads(site, path[k], path[k + 1]);
    }
  }

  lemma FollowedFromHome(site: Site, opts: CrawlOptions, t: State, reason: Reason, i: nat)
    requires Final(site, opts, t, reason) && reason != Raised && NoRedirects(site, t.pages)
    requires i < |t.found| && Leads(site, site.home, t.found[i].url)
    ensures t.found[i].depth <= 1
  {
    assert FollowedWithin(site, t, site.home, 1);
  }

  lemma FollowedFromPage(site: Site, opts: CrawlOptions, t: State, reason: Reason, page: Item, i: nat)
    requires Final(site, opts, t, reason) && reason != Raised && NoRedirects(site, t.pages)
    requires i < |t.found| && page in t.pages && Leads(site, page.url, t.found[i].url)
    ensures t.found[i].depth <= page.depth + 1
  {
    var k :| 0 <= k < |t.pages| && t.pages[k] == page;
    assert FollowedWithin(site, t, t.pages[k].url, t.pages[k].depth + 1);
  }

  /**
   * Breadth first. In a crawl in which no fetched page redirected, the depth of each page is the length of the
   * shortest route to it through fetched pages, and URLs were queued in order of depth.
   */
  lemma DepthIsShortest(site: Site, opts: CrawlOptions, clock: nat -> real, k: nat, path: seq<Url>)
    requires opts.Valid()
    requires var (t, reason) := Run(site, opts, clock);
      && reason != Raised && NoRedirects(site, t.pages) && k < |t.pages|
      && Route(site, Urls(t.pages), path) && path[|path| - 1] == t.pages[k].url
    ensures var (t, reason) := Run(site, opts, clock);
      && t.pages[k].depth <= |path| - 1
      && Ascending(t.found)
      && exists best :: Route(site, Urls(t.pages), best) && best[|best| - 1] == t.pages[k].url
           && |best| - 1 == t.pages[k].depth
  {
    var (t, reason) := Run(site, opts, clock);
    CrawlIsFinal(site, opts, clock);
    hide Run;
    PagesWereFound(site, opts, t, reason, k);
    assert |path| > 1 by { assert t.pages[k].url != site.home; }
    var i :| 0 <= i < |t.found| && t.found[i] == t.pages[k];
    RouteBoundsDepth(site, opts, t, reason, path, i);
    assert Explored(site, t);
    ShortestExists(site, t, t.pages[k]);
  }

  lemma ShortestExists(site: Site, t: State, item: Item)
    requires NoRedirects(site, t.pages) && Realised(site, Urls(t.pages), item)
    ensures exists best :: Route(site, Urls(t.pages), best) && best[|best| - 1] == item.url && |best| - 1 == item.depth
  {
    var best :| RouteTo(site, Urls(t.pages), best, item);
    forall k | 0 <= k < |best| - 1 ensures !Redirects(site, best[k]) {
      if best[k] in Urls(t.pages) {
        var j :| 0 <= j < |t.pages| && t.pages[j].url == best[k];
      }
    }
    CostIsLength(site, best);
  }

  // --- completeness ------------------------------------------------------------------------------------------

  /**
   * Completeness. When the crawl ran to the end and nothing of the site was left out - no link beyond the depth, excluded
   * or over a limit, no page disallowed or unreachable - then the home page and the fetched pages are exactly the URLs
   * of the home page's origin that links and redirects lead to.
   */
  lemma CompleteCrawlIsExact(site: Site, opts: CrawlOptions, clock: nat -> real, u: Url)
    requires opts.Valid()
    requires var (t, reason) := Run(site, opts, clock);
      reason == Complete && RefusedHere(t.skipped) == 0 && Passed(t.skipped) == 0
    ensures var (t, reason) := Run(site, opts, clock);
      Reachable(site, u) <==> u == site.home || u in Urls(t.pages)
  {
    var (t, reason) := Run(site, opts, clock);
    CrawlIsFinal(site, opts, clock);
    hide Run, Final, Leads, Walk;
    HomeIsReachable(site);
    if u in Urls(t.pages) {
      FinalPagesAreReached(site, opts, t, reason);
      var k :| 0 <= k < |t.pages| && t.pages[k].url == u;
    } else if Reachable(site, u) {
      FinalIsClosed(site, opts, t, reason);
      var path :| WalkTo(site, path, u);
      ClosedSetHoldsWalk(site, Urls(t.pages) + {site.home}, path);
    }
  }

  lemma HomeIsReachable(site: Site)
    ensures Reachable(site, site.home)
  {
    assert WalkTo(site, [site.home], site.home);
  }

  lemma FinalIsClosed(site: Site, opts: CrawlOptions, t: State, reason: Reason)
    requires Final(site, opts, t, reason) && reason == Complete
    requires RefusedHere(t.skipped) == 0 && Passed(t.skipped) == 0
    ensures var closed := Urls(t.pages) + {site.home};
      forall u, v :: u in closed && Leads(site, u, v) && SameOrigin(site, v) ==> v in closed
  {
    var closed := Urls(t.pages) + {site.home};
    FinalFacts(site, opts, t, reason);
    hide Final, Leads, AllFollowed, SeenExplained, PagesOk, RefusedHere, Passed;
    forall u, v | u in closed && Leads(site, u, v) && SameOrigin(site, v) ensures v in closed {
      SeenWhenFollowed(site, t, u, v);
      SeenWasFound(site, t, v);
      if v != site.home {
        var i :| 0 <= i < |t.found| && t.found[i].url == v;
        FoundWasFetched(t, i);
      }
    }
  }

  lemma FinalFacts(site: Site, opts: CrawlOptions, t: State, reason: Reason)
    requires Final(site, opts, t, reason) && reason == Complete
    ensures AllFollowed(site, t) && SeenExplained(site, t) && PagesOk(t, 0) && t.queue == []
    ensures Count(t.skipped, BeyondDepth) == 0
  {
    hide RoutesOk, PagesOk, AllFollowed, SeenExplained, SeenCounted, QueueOk, VariantsOk;
  }

  /** With nothing of the origin refused, what was seen of it was queued. */
  lemma SeenWasFound(site: Site, t: State, v: Url)
    requires SeenExplained(site, t) && RefusedHere(t.skipped) == 0
    requires v in t.seen && SameOrigin(site, v)
    ensures v == site.home || exists i :: 0 <= i < |t.found| && t.found[i].url == v
  {
    assert v == site.home || v in Urls(t.found);
  }

  lemma SeenWhenFollowed(site: Site, t: State, u: Url, v: Url)
    requires AllFollowed(site, t) && (u == site.home || u in Urls(t.pages)) && Leads(site, u, v)
    ensures v in t.seen
  {
    if u in Urls(t.pages) {
      var k :| 0 <= k < |t.pages| && t.pages[k].url == u;
      assert Followed(site, t, t.pages[k].url);
    }
  }

  lemma FoundWasFetched(t: State, i: nat)
    requires PagesOk(t, 0) && t.queue == [] && Passed(t.skipped) == 0 && i < |t.found|
    ensures t.found[i].url in Urls(t.pages)
  {
    assert t.found[i] in t.pages;
    var k :| 0 <= k < |t.pages| && t.pages[k] == t.found[i];
    assert t.pages[k].url == t.found[i].url;
  }

  // --- query variants ------------------------------------------------------------------------------------------

  function OnPath(site: Site, st: State, path: UrlPath): set<Url> {
    set u | u in Urls(st.found) && site.pathOf(u) == path
  }

  lemma {:induction false} InjectionSize(us: set<Url>, f: Url -> Query, qs: set<Query>)
    requires forall u :: u in us ==> f(u) in qs
    requires forall u, v :: u in us && v in us && f(u) == f(v) ==> u == v
    ensures |us| <= |qs|
  {
    if us != {} {
      var u :| u in us;
      InjectionSize(us - {u}, f, qs - {f(u)});
    }
  }

  /**
   * A path with endless queries cannot take the crawl over: at most five URLs of one path are ever queued, given that
   * a normalized URL is determined by its origin, path and query.
   */
  lemma AtMostFivePerPath(site: Site, opts: CrawlOptions, clock: nat -> real, path: UrlPath)
    requires opts.Valid()
    requires forall u, v :: (
      SameOrigin(site, u) && SameOrigin(site, v) && site.pathOf(u) == site.pathOf(v) && site.queryOf(u) == site.queryOf(v)
      ==> u == v)
    ensures |OnPath(site, Run(site, opts, clock).0, path)| <= MAX_QUERY_VARIANTS
  {
    var (t, reason) := Run(site, opts, clock);
    CrawlIsFinal(site, opts, clock);
    hide Run;
    FoundOnPath(site, opts, t, path);
    InjectionSize(OnPath(site, t, path), site.queryOf, Known(t, path));
  }

  lemma FoundOnPath(site: Site, opts: CrawlOptions, t: State, path: UrlPath)
    requires Books(site, opts, t)
    ensures |Known(t, path)| <= MAX_QUERY_VARIANTS
    ensures forall u :: u in OnPath(site, t, path) ==> site.queryOf(u) in Known(t, path) && SameOrigin(site, u)
  {
    forall u | u in OnPath(site, t, path) ensures site.queryOf(u) in Known(t, path) && SameOrigin(site, u) {
      var i :| 0 <= i < |t.found| && t.found[i].url == u;
      assert Legitimate(site, opts, t.found[i]);
    }
  }

  // --- robots.txt -----------------------------------------------------------------------------------------------

  /** Only allowed pages were fetched, and none at all before robots.txt was read. */
  ghost predicate RobotsKept(site: Site, opts: CrawlOptions, st: State) {
    && (forall k :: 0 <= k < |st.pages| ==> Allowed(site, opts, st.pages[k].url))
    && (opts.respectRobots && !st.robotsLoaded ==> st.pages == [])
  }

  lemma ConsideringKeepsPages(site: Site, opts: CrawlOptions, st: State, raw: Raw, depth: int)
    ensures var t := Consider(site, opts, st, raw, depth); t.pages == st.pages && t.robotsLoaded == st.robotsLoaded
  {
  }

  lemma {:induction false} ConsideringAllKeepsPages(
      site: Site, opts: CrawlOptions, st: State, raws: seq<Raw>, depth: int)
    ensures var t := ConsiderAll(site, opts, st, raws, depth); t.pages == st.pages && t.robotsLoaded == st.robotsLoaded
    decreases raws
  {
    if raws != [] {
      ConsideringKeepsPages(site, opts, st, raws[0], depth);
      ConsideringAllKeepsPages(site, opts, Consider(site, opts, st, raws[0], depth), raws[1..], depth);
    }
  }

  lemma TurnKeepsRobots(site: Site, opts: CrawlOptions, st: State, elapsed: real)
    requires RobotsKept(site, opts, st) && st.queue != []
    ensures var turn := TakeTurn(site, opts, st, elapsed);
      RobotsKept(site, opts, turn.st) && (turn.Stops? && turn.reason == RobotsUnavailable ==> turn.st.pages == [])
  {
    hide Consider, ConsiderAll;
    var item := st.queue[0];
    var kept := PoppedState(opts, st).(pages := st.pages + [item]);
    match site.answer(item.url) {
      case Redirect(To(raw)) => ConsideringKeepsPages(site, opts, kept, raw, item.depth);
      case Document(links) => ConsideringAllKeepsPages(site, opts, kept, links, item.depth + 1);
      case _ =>
    }
  }

  lemma {:induction false} RunKeepsRobots(site: Site, opts: CrawlOptions, clock: nat -> real, st: State, n: nat)
    requires RobotsKept(site, opts, st) && st.discovered <= MAX_DISCOVERED
    ensures var (t, reason) := RunFrom(site, opts, clock, st, n);
      RobotsKept(site, opts, t) && (reason == RobotsUnavailable ==> t.pages == [])
    decreases Left(st)
  {
    hide TakeTurn, RobotsKept;
    if st.queue != [] {
      TurnKeepsRobots(site, opts, st, clock(n));
      if TakeTurn(site, opts, st, clock(n)).Goes? {
        TurnLowersLeft(site, opts, st, clock(n));
        RunKeepsRobots(site, opts, clock, TakeTurn(site, opts, st, clock(n)).st, n + 1);
      }
    }
  }

  /** robots.txt is obeyed: no page it disallows is fetched, and when it cannot be read nothing is fetched. */
  lemma RobotsAreObeyed(site: Site, opts: CrawlOptions, clock: nat -> real)
    requires opts.Valid()
    ensures var (t, reason) := Run(site, opts, clock);
      && (forall k :: 0 <= k < |t.pages| ==> Allowed(site, opts, t.pages[k].url))
      && (reason == RobotsUnavailable ==> t.pages == [])
  {
    ConsideringAllKeepsPages(site, opts, Blank(site), site.homeLinks, 1);
    ConsiderAllKeepsLeft(site, opts, Blank(site), site.homeLinks, 1);
    RunKeepsRobots(site, opts, clock, Start(site, opts), 0);
  }
}
