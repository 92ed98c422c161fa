/**
 * How deep a page can be recorded when there are redirects: the queue is first in, first out by the number of steps, so
 * no depth exceeds the fewest steps of a route, redirects included.
 */
module CrawlLevels {
  import opened Options
  import opened CrawlRules
  import opened CrawlGraph
  import opened CrawlProofs
  import opened CrawlTheorems
  import opened CrawlRaises

  // --- what considering links and taking a turn adds -----------------------------------------------------------------

  /** The URLs found since `st` are new ones, all at this depth. */
  predicate Added(st: State, t: State, depth: int) {
    && |st.found| <= |t.found| && t.found[..|st.found|] == st.found && Taken(t) == Taken(st) && st.seen <= t.seen
    && (forall i :: |st.found| <= i < |t.found| ==> t.found[i].url !in st.seen && t.found[i].depth == depth)
    && t.pages == st.pages
  }

  lemma ConsiderAdds(site: Site, opts: CrawlOptions, st: State, raw: Raw, depth: int)
    ensures Added(st, Consider(site, opts, st, raw, depth), depth)
  {
  }

  lemma AddedTwice(a: State, b: State, c: State, depth: int)
    requires Added(a, b, depth) && Added(b, c, depth)
    ensures Added(a, c, depth)
  {
    assert c.found[..|a.found|] == c.found[..|b.found|][..|a.found|];
    forall i | |a.found| <= i < |c.found| ensures c.found[i].url !in a.seen && c.found[i].depth == depth {
      if i < |b.found| {
        assert c.found[..|b.found|][i] == b.found[i];
      }
    }
  }

  lemma {:induction false} ConsiderAllAdds(site: Site, opts: CrawlOptions, st: State, raws: seq<Raw>, depth: int)
    ensures Added(st, ConsiderAll(site, opts, st, raws, depth), depth)
    decreases raws
  {
    hide Consider;
    if raws != [] {
      var next := Consider(site, opts, st, raws[0], depth);
      ConsiderAdds(site, opts, st, raws[0], depth);
      ConsiderAllAdds(site, opts, next, raws[1..], depth);
      hide Added;
      AddedTwice(st, next, ConsiderAll(site, opts, st, raws, depth), depth);
    }
  }

  /** What one turn adds: URLs not seen before, at most one deeper than the URL whose turn it is. */
  predicate TurnAdded(st: State, t: State)
    requires st.queue != []
  {
    && |st.found| <= |t.found| && t.found[..|st.found|] == st.found && Taken(t) == Taken(st) + 1
    && (forall i :: |st.found| <= i < |t.found| ==>
          t.found[i].url !in st.seen && t.found[i].depth <= st.queue[0].depth + 1)
    && (t.pages == st.pages || t.pages == st.pages + [st.queue[0]])
  }

  lemma TurnAdds(site: Site, opts: CrawlOptions, st: State, elapsed: real)
    requires st.queue != [] && TakeTurn(site, opts, st, elapsed).Goes?
    ensures TurnAdded(st, TakeTurn(site, opts, st, elapsed).st)
  {
    hide Consider, ConsiderAll, Skipped;
    var item := st.queue[0];
    var popped := PoppedState(opts, st);
    var kept := popped.(pages := st.pages + [item]);
    forall s: State, why, item
      ensures var t := Skipped(s, why, item); t.found == s.found && t.queue == s.queue && t.pages == s.pages
    {
      SkippingAddsNothing(s, why, item);
    }
    match site.answer(item.url) {
      case Redirect(To(raw)) => ConsiderAdds(site, opts, kept, raw, item.depth);
      case Document(links) => ConsiderAllAdds(site, opts, kept, links, item.depth + 1);
      case _ =>
    }
  }

  lemma SkippingAddsNothing(st: State, why: Skip, item: Option<Item>)
    ensures var t := Skipped(st, why, item); t.found == st.found && t.queue == st.queue && t.pages == st.pages
  {
  }

  // --- levels -------------------------------------------------------------------------------------------------------

  /** What `u` leads to was found at most at this level. */
  ghost predicate LedWithin(site: Site, found: seq<Item>, levels: seq<nat>, u: Url, level: nat)
    requires |levels| == |found|
  {
    forall i :: 0 <= i < |found| && Leads(site, u, found[i].url) ==> levels[i] <= level
  }

  /** No depth exceeds its level, and one step leads at most one level on. */
  ghost predicate Stepped(site: Site, st: State, levels: seq<nat>) {
    && |levels| == |st.found|
    && (forall i :: 0 <= i < |levels| ==> st.found[i].depth <= levels[i])
    && LedWithin(site, st.found, levels, site.home, 1)
    && (forall j :: 0 <= j < |st.found| && st.found[j] in st.pages ==>
          LedWithin(site, st.found, levels, st.found[j].url, levels[j] + 1))
  }

  predicate Rising(levels: seq<nat>) {
    forall i, j :: 0 <= i < j < |levels| ==> levels[i] <= levels[j]
  }

  /** The queue spans at most two levels. */
  predicate TwoLevels(st: State, levels: seq<nat>) {
    |levels| == |st.found| && (st.queue != [] && 0 <= Taken(st) ==>
      forall i :: 0 <= i < |levels| ==> levels[i] <= levels[Taken(st)] + 1)
  }

  ghost predicate Leveled(site: Site, st: State, levels: seq<nat>) {
    Stepped(site, st, levels) && Rising(levels) && TwoLevels(st, levels)
  }

  function Extended(levels: seq<nat>, size: nat, level: nat): (more: seq<nat>)
    requires |levels| <= size
    ensures |more| == size && forall i :: 0 <= i < size ==> more[i] == if i < |levels| then levels[i] else level
  {
    levels + seq(size - |levels|, _ => level)
  }

  /** What the books of the crawl say that the levels rest on. */
  ghost predicate Grounded(site: Site, st: State) {
    && AllFollowed(site, st) && DistinctUrls(st.found)
    && st.queue != [] && 0 <= Taken(st) < |st.found| && st.queue[0] == st.found[Taken(st)]
    && (forall i :: 0 <= i < |st.found| ==> st.found[i].url in st.seen)
    && (forall k :: 0 <= k < |st.pages| ==> st.pages[k].url in st.seen)
  }

  lemma InvIsGrounded(site: Site, opts: CrawlOptions, st: State)
    requires CrawlInv(site, opts, st) && st.queue != []
    ensures Grounded(site, st)
  {
    hide RoutesOk, AllFollowed, Layered, VariantsOk, SeenCounted, SeenExplained;
    assert PagesOk(st, 0);
    forall k | 0 <= k < |st.pages| ensures st.pages[k].url in st.seen {
      assert st.pages[k] in st.found[..Taken(st)];
    }
  }

  lemma FollowedLeadsNowhereNew(site: Site, st: State, u: Url, v: Url)
    requires AllFollowed(site, st) && (u == site.home || u in Urls(st.pages)) && v !in st.seen
    ensures !Leads(site, u, v)
  {
    hide Leads;
    if u in Urls(st.pages) {
      var k :| 0 <= k < |st.pages| && st.pages[k].url == u;
      assert Followed(site, st, st.pages[k].url);
    }
  }

  lemma TurnKeepsStepped(site: Site, st: State, t: State, levels: seq<nat>)
    requires Grounded(site, st) && Leveled(site, st, levels) && TurnAdded(st, t)
    ensures Stepped(site, t, Extended(levels, |t.found|, levels[Taken(st)] + 1))
  {
    hide Leads, AllFollowed;
    var j0 := Taken(st);
    var more := Extended(levels, |t.found|, levels[j0] + 1);
    assert forall i :: 0 <= i < |st.found| ==> t.found[i] == st.found[i] by {
      assert forall i :: 0 <= i < |st.found| ==> t.found[..|st.found|][i] == st.found[i];
    }
    assert forall i :: 0 <= i < |more| ==> more[i] <= levels[j0] + 1;
    forall i | 0 <= i < |t.found| && Leads(site, site.home, t.found[i].url) ensures more[i] <= 1 {
      if i >= |st.found| {
        FollowedLeadsNowhereNew(site, st, site.home, t.found[i].url);
      }
    }
    forall j | 0 <= j < |t.found| && t.found[j] in t.pages
      ensures LedWithin(site, t.found, more, t.found[j].url, more[j] + 1)
    {
      if t.found[j] in st.pages {
        PageStepsOn(site, st, t, levels, more, j);
      } else {
        assert t.found[j] == st.found[j0];
        assert j < |st.found| by { assert st.found[j0].url in st.seen; }
        assert j == j0;
      }
    }
  }

  /** A page followed earlier leads to nothing that this turn found. */
  lemma PageStepsOn(site: Site, st: State, t: State, levels: seq<nat>, more: seq<nat>, j: nat)
    requires Grounded(site, st) && Stepped(site, st, levels) && TurnAdded(st, t)
    requires j < |t.found| && t.found[j] in st.pages && |more| == |t.found|
    requires forall i :: 0 <= i < |st.found| ==> t.found[i] == st.found[i] && more[i] == levels[i]
    ensures LedWithin(site, t.found, more, t.found[j].url, more[j] + 1)
  {
    hide Leads, AllFollowed;
    var k :| 0 <= k < |st.pages| && st.pages[k] == t.found[j];
    assert j < |st.found| by { assert st.pages[k].url in st.seen; }
    assert t.found[j].url in Urls(st.pages) by { assert st.pages[k].url == t.found[j].url; }
    forall i | 0 <= i < |t.found| && Leads(site, t.found[j].url, t.found[i].url) ensures more[i] <= more[j] + 1 {
      if i >= |st.found| {
        FollowedLeadsNowhereNew(site, st, t.found[j].url, t.found[i].url);
      }
    }
  }

  lemma TurnKeepsLevels(site: Site, st: State, t: State, levels: seq<nat>)
    requires Grounded(site, st) && Leveled(site, st, levels) && TurnAdded(st, t)
    ensures Leveled(site, t, Extended(levels, |t.found|, levels[Taken(st)] + 1))
  {
    TurnKeepsStepped(site, st, t, levels);
    hide Stepped, AllFollowed, LedWithin;
    var more := Extended(levels, |t.found|, levels[Taken(st)] + 1);
    assert |levels| == |st.found|;
    if t.queue != [] {
      assert Taken(t) < |t.found|;
      assert levels[Taken(st)] <= more[Taken(t)];
    }
  }

  lemma StartIsLeveled(site: Site, opts: CrawlOptions)
    ensures var st := Start(site, opts); Leveled(site, st, seq(|st.found|, _ => 1)) && st.pages == []
  {
    ConsiderAllAdds(site, opts, Blank(site), site.homeLinks, 1);
    assert Added(Blank(site), Start(site, opts), 1);
    hide Leads, Start;
  }

  lemma {:induction false} RunIsStepped(
      site: Site, opts: CrawlOptions, clock: nat -> real, st: State, n: nat, levels: seq<nat>)
    returns (more: seq<nat>)
    requires CrawlInv(site, opts, st) && Leveled(site, st, levels) && st.discovered <= MAX_DISCOVERED
    ensures var (t, reason) := RunFrom(site, opts, clock, st, n); reason != Raised ==> Stepped(site, t, more)
    decreases Left(st)
  {
    hide CrawlInv, Grounded, TakeTurn, Stepped, Rising, TwoLevels, TurnAdded;
    more := levels;
    if st.queue != [] {
      var turn := TakeTurn(site, opts, st, clock(n));
      if turn.Stops? {
        StopCases(site, opts, st, clock(n));
        PoppingKeepsStepped(site, opts, st, levels);
      } else {
        InvIsGrounded(site, opts, st);
        LevelsAreFound(site, st, levels);
        TurnAdds(site, opts, st, clock(n));
        TurnKeepsLevels(site, st, turn.st, levels);
        TurnKeeps(site, opts, st, clock(n));
        TurnLowersLeft(site, opts, st, clock(n));
        more := Extended(levels, |turn.st.found|, levels[Taken(st)] + 1);
        more := RunIsStepped(site, opts, clock, turn.st, n + 1, more);
      }
    }
  }

  lemma LevelsAreFound(site: Site, st: State, levels: seq<nat>)
    requires Leveled(site, st, levels) && Grounded(site, st)
    ensures 0 <= Taken(st) < |levels| == |st.found|
  {
    hide LedWithin, AllFollowed;
  }

  lemma PoppingKeepsStepped(site: Site, opts: CrawlOptions, st: State, levels: seq<nat>)
    requires Stepped(site, st, levels) && st.queue != []
    ensures Stepped(site, PoppedState(opts, st), levels)
  {
    hide LedWithin;
  }

  // --- the bound ---------------------------------------------------------------------------------------------------------

  lemma {:induction false} RouteBoundsLevel(site: Site, opts: CrawlOptions, t: State, reason: Reason,
                                            levels: seq<nat>, path: seq<Url>, i: nat)
    requires Final(site, opts, t, reason) && Stepped(site, t, levels)
    requires Route(site, Urls(t.pages), path) && |path| > 1
    requires i < |t.found| && t.found[i].url == path[|path| - 1]
    ensures levels[i] <= |path| - 1
    decreases |path|
  {
    var front := path[..|path| - 1];
    var u := front[|front| - 1];
    assert Leads(site, path[|path| - 2], path[|path| - 2 + 1]);
    if u == site.home {
      assert LedWithin(site, t.found, levels, site.home, 1);
    } else {
      assert path[|path| - 2] == site.home || path[|path| - 2] in Urls(t.pages);
      PageDepth(site, opts, t, reason, u);
      var j :| 0 <= j < |t.found| && t.found[j].url == u && t.found[j] in t.pages;
      FrontIsRoute(site, Urls(t.pages), path);
      hide Final, Leads, Route;
      RouteBoundsLevel(site, opts, t, reason, levels, front, j);
      assert LedWithin(site, t.found, levels, t.found[j].url, levels[j] + 1);
    }
  }

  /**
   * The depth of a page, redirects or not, lies between the cost of its cheapest route through fetched pages, on which a
   * redirect is free, and the fewest steps of any such route.
   */
  lemma DepthIsBetween(site: Site, opts: CrawlOptions, clock: nat -> real, k: nat, path: seq<Url>)
    requires opts.Valid()
    requires var (t, reason) := Run(site, opts, clock);
      && reason != Raised && k < |t.pages|
      && Route(site, Urls(t.pages), path) && path[|path| - 1] == t.pages[k].url
    ensures var (t, reason) := Run(site, opts, clock);
      && t.pages[k].depth <= |path| - 1
      && exists cheap :: RouteTo(site, Urls(t.pages), cheap, t.pages[k])
  {
    var (t, reason) := Run(site, opts, clock);
    CrawlIsFinal(site, opts, clock);
    var levels := CrawlIsStepped(site, opts, clock);
    hide Run;
    PagesWereFound(site, opts, t, reason, k);
    var i :| 0 <= i < |t.found| && t.found[i] == t.pages[k];
    hide Final, Leads;
    assert |path| > 1 by { assert Legitimate(site, opts, t.pages[k]); }
    RouteBoundsLevel(site, opts, t, reason, levels, path, i);
  }

  lemma CrawlIsStepped(site: Site, opts: CrawlOptions, clock: nat -> real) returns (levels: seq<nat>)
    requires opts.Valid()
    ensures var (t, reason) := Run(site, opts, clock); reason != Raised ==> Stepped(site, t, levels)
  {
    hide CrawlInv, Leveled, Stepped, RunFrom;
    ConsiderAllKeepsLeft(site, opts, Blank(site), site.homeLinks, 1);
    StartIsGood(site, opts);
    StartIsLeveled(site, opts);
    levels := RunIsStepped(site, opts, clock, Start(site, opts), 0, seq(|Start(site, opts).found|, _ => 1));
  }

  /**
   * On a site without redirects, whose pages and robots.txt decode, every crawl is breadth first: whatever its limits,
   * the depth of each page is the length of the shortest route to it through fetched pages.
   */
  lemma PlainSiteIsBreadthFirst(site: Site, opts: CrawlOptions, clock: nat -> real, k: nat, path: seq<Url>)
    requires opts.Valid() && (opts.respectRobots ==> !site.robots.RobotsUndecodable?)
    requires forall u :: SameOrigin(site, u) && u != site.home ==>
      !site.answer(u).Redirect? && site.answer(u) != Undecodable
    requires var t := Run(site, opts, clock).0;
      k < |t.pages| && Route(site, Urls(t.pages), path) && path[|path| - 1] == t.pages[k].url
    ensures var t := Run(site, opts, clock).0;
      && t.pages[k].depth <= |path| - 1 && Ascending(t.found)
      && exists best :: Route(site, Urls(t.pages), best) && best[|best| - 1] == t.pages[k].url
           && |best| - 1 == t.pages[k].depth
  {
    var t := Run(site, opts, clock).0;
    DecodableSiteNeverRaises(site, opts, clock);
    EveryPageIsReached(site, opts, clock);
    assert NoRedirects(site, t.pages) by {
      hide Run, Reachable, Realised;
      forall j | 0 <= j < |t.pages| ensures !Redirects(site, t.pages[j].url) {
        assert Legitimate(site, opts, t.pages[j]);
      }
    }
    hide Run, Reachable, Realised, Route, NoRedirects;
    DepthIsShortest(site, opts, clock, k, path);
  }
}
