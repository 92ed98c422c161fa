/** What every crawl keeps, turn by turn, and what its result therefore means. */
module CrawlProofs {
  import opened Options
  import opened CrawlRules
  import opened CrawlGraph

  function Urls(items: seq<Item>): set<Url> {
    set i | 0 <= i < |items| :: items[i].url
  }

  predicate DistinctUrls(items: seq<Item>) {
    forall i, j :: 0 <= i < j < |items| ==> items[i].url != items[j].url
  }

  /** How many of the URLs ever queued have been taken from the queue. */
  function Taken(st: State): int { |st.found| - |st.queue| }

  // --- the queue ------------------------------------------------------------------------------------------

  predicate Legitimate(site: Site, opts: CrawlOptions, item: Item) {
    item.url != site.home && SameOrigin(site, item.url) && item.depth <= opts.maxDepth && !site.excluded(item.url)
  }

  /** The queue is the untaken end of what was found, and everything found was seen once and may be visited. */
  predicate QueueOk(site: Site, opts: CrawlOptions, st: State) {
    && st.discovered == |st.found| <= MAX_DISCOVERED
    && |st.queue| <= |st.found| && st.queue == st.found[Taken(st)..]
    && site.home in st.seen
    && (forall i :: 0 <= i < |st.found| ==> st.found[i].url in st.seen && Legitimate(site, opts, st.found[i]))
    && DistinctUrls(st.found)
  }

  /** For each path, the queries of the URLs found on it are known, and never more than five are. */
  predicate VariantsOk(site: Site, st: State) {
    && (forall path :: path in st.variants ==> |st.variants[path]| <= MAX_QUERY_VARIANTS)
    && (forall i :: 0 <= i < |st.found| ==> site.queryOf(st.found[i].url) in Known(st, site.pathOf(st.found[i].url)))
  }

  /** URLs that were seen and then counted instead of queued. */
  function Refused(skipped: map<Skip, nat>): nat {
    Count(skipped, OtherOrigin) + RefusedHere(skipped)
  }

  /** Those among them that belong to the crawled origin. */
  function RefusedHere(skipped: map<Skip, nat>): nat {
    Count(skipped, BeyondDepth) + Count(skipped, Excluded) + Count(skipped, QueryVariants) + Count(skipped, QueueFull)
  }

  function Passed(skipped: map<Skip, nat>): nat {
    Count(skipped, RobotsDisallowed) + Count(skipped, FetchFailed)
  }

  /** Conservation of URLs: each one seen besides the home page was queued or counted under one reason. */
  predicate SeenCounted(st: State) {
    |st.seen| == 1 + Refused(st.skipped) + st.discovered
  }

  predicate SeenExplained(site: Site, st: State) {
    RefusedHere(st.skipped) == 0 ==>
      forall u :: u in st.seen ==> u == site.home || u in Urls(st.found) || !SameOrigin(site, u)
  }

  // --- one link --------------------------------------------------------------------------------------------

  /** What considering links may change. */
  predicate Grew(st: State, t: State) {
    && |st.found| <= |t.found| && t.found[..|st.found|] == st.found
    && Taken(t) == Taken(st) && t.pages == st.pages && t.robotsLoaded == st.robotsLoaded
    && st.seen <= t.seen
    && Passed(t.skipped) == Passed(st.skipped)
    && Count(t.skipped, NotFollowable) >= Count(st.skipped, NotFollowable)
    && RefusedHere(t.skipped) >= RefusedHere(st.skipped)
    && (forall i :: |st.found| <= i < |t.found| ==> t.found[i].url !in st.seen)
  }

  ghost predicate Books(site: Site, opts: CrawlOptions, st: State) {
    QueueOk(site, opts, st) && VariantsOk(site, st) && SeenCounted(st) && SeenExplained(site, st)
  }

  lemma QueuedKeepsBooks(site: Site, opts: CrawlOptions, st: State, url: Url, depth: int)
    requires Books(site, opts, st) && url !in st.seen
    requires Refusal(site, opts, st.(seen := st.seen + {url}), url, depth).None?
    ensures var t := Queued(site, st.(seen := st.seen + {url}), Item(url, depth));
            Books(site, opts, t) && Grew(st, t)
  {
    var t := Queued(site, st.(seen := st.seen + {url}), Item(url, depth));
    assert t.found[..|st.found|] == st.found;
    assert QueueOk(site, opts, t) by { QueuedKeepsQueue(site, opts, st, url, depth); }
    hide QueueOk, VariantsOk;
    assert VariantsOk(site, t) by { QueuedKeepsVariants(site, opts, st, url, depth); }
    forall u | u in t.seen && RefusedHere(t.skipped) == 0
      ensures u == site.home || u in Urls(t.found) || !SameOrigin(site, u)
    {
      if u == url {
        assert t.found[|st.found|].url == url;
      } else if u in Urls(st.found) {
        var i :| 0 <= i < |st.found| && st.found[i].url == u;
        assert t.found[i].url == u;
      }
    }
  }

  lemma QueuedKeepsQueue(site: Site, opts: CrawlOptions, st: State, url: Url, depth: int)
    requires QueueOk(site, opts, st) && url !in st.seen
    requires Refusal(site, opts, st.(seen := st.seen + {url}), url, depth).None?
    ensures QueueOk(site, opts, Queued(site, st.(seen := st.seen + {url}), Item(url, depth)))
  {
    var t := Queued(site, st.(seen := st.seen + {url}), Item(url, depth));
    assert Legitimate(site, opts, Item(url, depth));
    hide Legitimate;
    forall i | 0 <= i < |t.found| ensures t.found[i].url in t.seen && Legitimate(site, opts, t.found[i]) {
      if i < |st.found| { assert t.found[i] == st.found[i]; }
    }
  }

  lemma QueuedKeepsVariants(site: Site, opts: CrawlOptions, st: State, url: Url, depth: int)
    requires VariantsOk(site, st) && Refusal(site, opts, st.(seen := st.seen + {url}), url, depth).None?
    ensures VariantsOk(site, Queued(site, st.(seen := st.seen + {url}), Item(url, depth)))
  {
    var known := Known(st, site.pathOf(url));
    var query := site.queryOf(url);
    if query in known {
      assert known + {query} == known;
    }
  }

  /** What counting one more skip does to the totals. */
  lemma OneMoreSkip(skipped: map<Skip, nat>, why: Skip)
    ensures var more := skipped[why := Count(skipped, why) + 1];
      && Refused(more) == Refused(skipped)
           + (if why in {OtherOrigin, BeyondDepth, Excluded, QueryVariants, QueueFull} then 1 else 0)
      && RefusedHere(more) == RefusedHere(skipped)
           + (if why in {BeyondDepth, Excluded, QueryVariants, QueueFull} then 1 else 0)
      && Passed(more) == Passed(skipped) + (if why in {RobotsDisallowed, FetchFailed} then 1 else 0)
      && Count(more, NotFollowable) >= Count(skipped, NotFollowable)
  {
  }

  /** A state that differs from `st` only in one more skip, one more seen URL and untouched or empty variants. */
  lemma SkippedKeepsBooks(site: Site, opts: CrawlOptions, st: State, t: State)
    requires Books(site, opts, st)
    requires t.queue == st.queue && t.discovered == st.discovered && t.found == st.found
    requires VariantsOk(site, t) && SeenCounted(t) && SeenExplained(site, t) && st.seen <= t.seen
    ensures Books(site, opts, t)
  {
    hide VariantsOk, SeenCounted, SeenExplained;
  }

  lemma TouchedKeepsVariants(site: Site, st: State, url: Url, why: Skip)
    requires VariantsOk(site, st)
    ensures VariantsOk(site, Touched(site, st, url, why))
    ensures var t := Touched(site, st, url, why); t == st.(variants := t.variants)
  {
  }

  lemma RefusedKeepsBooks(site: Site, opts: CrawlOptions, st: State, url: Url, depth: int, why: Skip)
    requires Books(site, opts, st) && url !in st.seen
    requires (why == OtherOrigin && !SameOrigin(site, url))
          || why in {BeyondDepth, Excluded, QueryVariants, QueueFull}
    ensures var t := Skipped(Touched(site, st.(seen := st.seen + {url}), url, why), why, Some(Item(url, depth)));
            Books(site, opts, t) && Grew(st, t)
  {
    var marked := st.(seen := st.seen + {url});
    var t := Skipped(Touched(site, marked, url, why), why, Some(Item(url, depth)));
    TouchedKeepsVariants(site, marked, url, why);
    assert VariantsOk(site, t);
    hide VariantsOk, Touched;
    RefusedIsCounted(site, st, t, url, why);
    RefusedGrew(site, st, t, why);
    hide QueueOk, SeenCounted, SeenExplained, Count, Grew;
    SkippedKeepsBooks(site, opts, st, t);
  }

  lemma RefusedIsCounted(site: Site, st: State, t: State, url: Url, why: Skip)
    requires SeenCounted(st) && SeenExplained(site, st) && url !in st.seen
    requires (why == OtherOrigin && !SameOrigin(site, url))
          || why in {BeyondDepth, Excluded, QueryVariants, QueueFull}
    requires t.seen == st.seen + {url} && t.discovered == st.discovered && t.found == st.found
    requires t.skipped == st.skipped[why := Count(st.skipped, why) + 1]
    ensures SeenCounted(t) && SeenExplained(site, t)
  {
    OneMoreSkip(st.skipped, why);
    hide Refused, RefusedHere, Count;
  }

  lemma RefusedGrew(site: Site, st: State, t: State, why: Skip)
    requires why in {OtherOrigin, BeyondDepth, Excluded, QueryVariants, QueueFull}
    requires st.seen <= t.seen && t.queue == st.queue && t.found == st.found && |st.queue| <= |st.found|
    requires t.pages == st.pages && t.robotsLoaded == st.robotsLoaded
    requires t.skipped == st.skipped[why := Count(st.skipped, why) + 1]
    ensures Grew(st, t)
  {
    OneMoreSkip(st.skipped, why);
    hide Refused, RefusedHere, Passed, Count;
  }

  lemma UnfollowableKeepsBooks(site: Site, opts: CrawlOptions, st: State)
    requires Books(site, opts, st)
    ensures Books(site, opts, Skipped(st, NotFollowable, None)) && Grew(st, Skipped(st, NotFollowable, None))
  {
    OneMoreSkip(st.skipped, NotFollowable);
    NothingGrew(st);
    hide Refused, RefusedHere, Passed, Count, QueueOk;
    assert VariantsOk(site, Skipped(st, NotFollowable, None));
    hide VariantsOk;
    SkippedKeepsBooks(site, opts, st, Skipped(st, NotFollowable, None));
  }

  lemma ConsiderKeepsBooks(site: Site, opts: CrawlOptions, st: State, raw: Raw, depth: int)
    requires Books(site, opts, st)
    ensures Books(site, opts, Consider(site, opts, st, raw, depth))
    ensures Grew(st, Consider(site, opts, st, raw, depth))
  {
    NothingGrew(st);
    hide Books, Grew, Queued, Touched;
    match site.normalize(raw) {
      case None => UnfollowableKeepsBooks(site, opts, st);
      case Some(url) =>
        if url !in st.seen {
          var why := Refusal(site, opts, st.(seen := st.seen + {url}), url, depth);
          if why.Some? {
            RefusedKeepsBooks(site, opts, st, url, depth, why.value);
          } else {
            QueuedKeepsBooks(site, opts, st, url, depth);
          }
        }
    }
  }

  lemma NothingGrew(st: State)
    requires |st.queue| <= |st.found|
    ensures Grew(st, st)
  {
  }

  // --- routes, and what was followed ------------------------------------------------------------------------

  /** Every queued URL has a route through fetched pages that costs its depth. */
  ghost predicate RoutesOk(site: Site, st: State) {
    forall i :: 0 <= i < |st.found| ==> Realised(site, Urls(st.pages), st.found[i])
  }

  /** Everything `u` leads to has been looked at. */
  ghost predicate Followed(site: Site, st: State, u: Url) {
    forall v :: Leads(site, u, v) ==> v in st.seen
  }

  /** ... and what of it was queued has at most this depth. */
  ghost predicate FollowedWithin(site: Site, st: State, u: Url, depth: int) {
    && Followed(site, st, u)
    && forall i :: 0 <= i < |st.found| && Leads(site, u, st.found[i].url) ==> st.found[i].depth <= depth
  }

  predicate Ascending(found: seq<Item>) {
    forall i, j :: 0 <= i < j < |found| ==> found[i].depth <= found[j].depth
  }

  predicate AtMost(found: seq<Item>, depth: int) {
    forall i :: 0 <= i < |found| ==> found[i].depth <= depth
  }

  lemma GrewKeepsFollowed(site: Site, st: State, t: State, u: Url, depth: int)
    requires Grew(st, t)
    ensures Followed(site, st, u) ==> Followed(site, t, u)
    ensures FollowedWithin(site, st, u, depth) ==> FollowedWithin(site, t, u, depth)
  {
    if FollowedWithin(site, st, u, depth) {
      forall i | 0 <= i < |t.found| && Leads(site, u, t.found[i].url) ensures t.found[i].depth <= depth {
        assert t.found[i].url in st.seen;
        assert t.found[..|st.found|][i] == st.found[i];
      }
    }
  }

  lemma GrewIsTransitive(a: State, b: State, c: State)
    requires Grew(a, b) && Grew(b, c)
    ensures Grew(a, c)
  {
    assert c.found[..|a.found|] == c.found[..|b.found|][..|a.found|];
    forall i | |a.found| <= i < |c.found| ensures c.found[i].url !in a.seen {
      if i < |b.found| {
        assert c.found[..|b.found|][i] == b.found[i];
      }
    }
  }

  /** `from` may be read for links: it is the home page or a fetched page, and its depth is realised. */
  ghost predicate Source(site: Site, st: State, from: Item) {
    Realised(site, Urls(st.pages), from) && (from.url == site.home || from.url in Urls(st.pages))
  }

  /** At most one URL is added to `found`: the one the link names, at the given depth. */
  lemma ConsiderAddsAtMostOne(site: Site, opts: CrawlOptions, st: State, raw: Raw, depth: int)
    ensures var t := Consider(site, opts, st, raw, depth);
      && (t.found == st.found
          || (site.normalize(raw).Some? && t.found == st.found + [Item(site.normalize(raw).value, depth)]))
      && (site.normalize(raw).Some? ==> site.normalize(raw).value in t.seen)
      && t.pages == st.pages
  {
  }

  lemma ConsiderKeepsRoutes(site: Site, opts: CrawlOptions, st: State, from: Item, raw: Raw, depth: int)
    requires RoutesOk(site, st) && Source(site, st, from)
    requires raw in Offers(site, from.url) && depth == from.depth + StepCost(site, from.url)
    ensures RoutesOk(site, Consider(site, opts, st, raw, depth))
  {
    hide Consider, Realised;
    ConsiderAddsAtMostOne(site, opts, st, raw, depth);
    var t := Consider(site, opts, st, raw, depth);
    if t.found != st.found {
      var url := site.normalize(raw).value;
      assert Leads(site, from.url, url);
      RouteGoesOn(site, Urls(st.pages), from, url);
    }
  }

  lemma {:induction false} ConsiderAllFollows(
      site: Site, opts: CrawlOptions, st: State, from: Item, raws: seq<Raw>, depth: int)
    requires Books(site, opts, st) && RoutesOk(site, st) && Source(site, st, from)
    requires depth == from.depth + StepCost(site, from.url)
    requires forall raw :: raw in raws ==> raw in Offers(site, from.url)
    ensures var t := ConsiderAll(site, opts, st, raws, depth);
      && Books(site, opts, t) && Grew(st, t) && RoutesOk(site, t)
      && forall raw :: raw in raws && site.normalize(raw).Some? ==> site.normalize(raw).value in t.seen
    decreases raws
  {
    NothingGrew(st);
    hide Books, Realised, RoutesOk, Consider, Offers;
    if raws != [] {
      var next := Consider(site, opts, st, raws[0], depth);
      assert raws[0] in raws;
      ConsiderKeepsBooks(site, opts, st, raws[0], depth);
      ConsiderKeepsRoutes(site, opts, st, from, raws[0], depth);
      ConsiderAddsAtMostOne(site, opts, st, raws[0], depth);
      assert forall raw :: raw in raws[1..] ==> raw in raws;
      ConsiderAllFollows(site, opts, next, from, raws[1..], depth);
      GrewIsTransitive(st, next, ConsiderAll(site, opts, st, raws, depth));
    }
  }

  /** Links considered at the greatest depth so far leave the depths ascending. */
  lemma {:induction false} ConsiderAllAscends(site: Site, opts: CrawlOptions, st: State, raws: seq<Raw>, depth: int)
    requires Ascending(st.found) && AtMost(st.found, depth)
    ensures Ascending(ConsiderAll(site, opts, st, raws, depth).found)
    ensures AtMost(ConsiderAll(site, opts, st, raws, depth).found, depth)
    decreases raws
  {
    hide Consider;
    if raws != [] {
      ConsiderAddsAtMostOne(site, opts, st, raws[0], depth);
      ConsiderAllAscends(site, opts, Consider(site, opts, st, raws[0], depth), raws[1..], depth);
    }
  }

  // --- the invariant of the loop ----------------------------------------------------------------------------

  /** The taken URLs are the fetched pages, in order, and those passed over; `pending` of them are in neither group. */
  ghost predicate PagesOk(st: State, pending: nat) {
    && 0 <= Taken(st) - pending
    && Taken(st) == |st.pages| + Passed(st.skipped) + pending
    && DistinctUrls(st.pages)
    && (forall k :: 0 <= k < |st.pages| ==> st.pages[k] in st.found[..Taken(st) - pending])
    && (Passed(st.skipped) == 0 ==> forall i :: 0 <= i < Taken(st) - pending ==> st.found[i] in st.pages)
  }

  ghost predicate AllFollowed(site: Site, st: State) {
    Followed(site, st, site.home) && forall k :: 0 <= k < |st.pages| ==> Followed(site, st, st.pages[k].url)
  }

  predicate NoRedirects(site: Site, pages: seq<Item>) {
    forall k :: 0 <= k < |pages| ==> !Redirects(site, pages[k].url)
  }

  /** Breadth first: depths ascend, the queue spans at most two of them, and pages lead at most one level deeper. */
  ghost predicate Layered(site: Site, st: State) {
    && Ascending(st.found)
    && (st.queue != [] ==> AtMost(st.found, st.queue[0].depth + 1))
    && FollowedWithin(site, st, site.home, 1)
    && (forall k :: 0 <= k < |st.pages| ==> FollowedWithin(site, st, st.pages[k].url, st.pages[k].depth + 1))
  }

  ghost predicate CrawlInv(site: Site, opts: CrawlOptions, st: State) {
    && Books(site, opts, st) && PagesOk(st, 0) && RoutesOk(site, st) && AllFollowed(site, st)
    && (NoRedirects(site, st.pages) ==> Layered(site, st))
    && |st.pages| + 1 <= opts.maxPages
  }

  lemma AllLinksFollowed(site: Site, st: State, u: Url)
    requires forall raw :: raw in Offers(site, u) && site.normalize(raw).Some? ==> site.normalize(raw).value in st.seen
    ensures Followed(site, st, u)
  {
    forall v | Leads(site, u, v) ensures v in st.seen {
      var raw :| raw in Offers(site, u) && site.normalize(raw) == Some(v);
    }
  }

  function Blank(site: Site): State {
    State({site.home}, map[], [], 0, map[], [], false, [], [])
  }

  lemma BlankIsGood(site: Site, opts: CrawlOptions)
    ensures Books(site, opts, Blank(site)) && RoutesOk(site, Blank(site))
    ensures Source(site, Blank(site), Item(site.home, 0))
  {
    HomeIsRealised(site, Urls(Blank(site).pages));
  }

  lemma StartIsGood(site: Site, opts: CrawlOptions)
    requires opts.Valid()
    ensures CrawlInv(site, opts, Start(site, opts))
  {
    var st := Blank(site);
    var t := Start(site, opts);
    BlankIsGood(site, opts);
    assert forall raw :: raw in site.homeLinks ==> raw in Offers(site, site.home);
    ConsiderAllFollows(site, opts, st, Item(site.home, 0), site.homeLinks, 1);
    ConsiderAllAscends(site, opts, st, site.homeLinks, 1);
    StartAfterBlank(site, opts, st, t);
  }

  lemma StartAfterBlank(site: Site, opts: CrawlOptions, st: State, t: State)
    requires opts.Valid() && st == Blank(site) && Grew(st, t) && Books(site, opts, t) && RoutesOk(site, t)
    requires Ascending(t.found) && AtMost(t.found, 1)
    requires forall raw :: raw in site.homeLinks && site.normalize(raw).Some? ==> site.normalize(raw).value in t.seen
    ensures CrawlInv(site, opts, t)
  {
    AllLinksFollowed(site, t, site.home);
    assert t.queue == t.found;
    forall i | 0 <= i < |t.found| ensures t.found[i].depth >= 0 {
      RealisedIsNatural(site, Urls(t.pages), t.found[i]);
    }
    hide Books, RoutesOk, Leads;
    StartIsLayered(site, t);
    assert PagesOk(t, 0) by { assert Taken(t) == 0; }
  }

  lemma StartIsLayered(site: Site, t: State)
    requires Ascending(t.found) && AtMost(t.found, 1) && Followed(site, t, site.home) && t.pages == []
    requires t.queue == t.found && forall i :: 0 <= i < |t.found| ==> t.found[i].depth >= 0
    ensures Layered(site, t)
  {
    hide Leads;
  }

  // --- one turn ------------------------------------------------------------------------------------------------

  function PoppedState(opts: CrawlOptions, st: State): State
    requires st.queue != []
  {
    st.(queue := st.queue[1..], robotsLoaded := opts.respectRobots || st.robotsLoaded)
  }

  lemma PopKeepsBooks(site: Site, opts: CrawlOptions, st: State)
    requires Books(site, opts, st) && st.queue != []
    ensures Books(site, opts, PoppedState(opts, st))
    ensures var t := PoppedState(opts, st);
            Taken(t) == Taken(st) + 1 && st.queue[0] == st.found[Taken(st)] && Legitimate(site, opts, st.queue[0])
  {
    var t := PoppedState(opts, st);
    assert t.queue == t.found[Taken(t)..];
  }

  lemma PopKeepsPages(opts: CrawlOptions, st: State)
    requires PagesOk(st, 0) && st.queue != []
    ensures PagesOk(PoppedState(opts, st), 1)
  {
  }

  lemma PopKeepsLayers(site: Site, opts: CrawlOptions, st: State)
    requires Layered(site, st) && st.queue != [] && |st.queue| <= |st.found| && st.queue == st.found[Taken(st)..]
    ensures LayeredBehind(site, PoppedState(opts, st), st.queue[0].depth)
  {
    hide Leads;
    var t := PoppedState(opts, st);
    if t.queue != [] {
      assert t.queue[0] == st.found[Taken(st) + 1];
    }
  }

  /** Between two turns: the last URL taken was at `depth`, and everything found lies at most one deeper. */
  ghost predicate LayeredBehind(site: Site, st: State, depth: int) {
    && Ascending(st.found) && AtMost(st.found, depth + 1)
    && (st.queue != [] ==> depth <= st.queue[0].depth)
    && FollowedWithin(site, st, site.home, 1)
    && (forall k :: 0 <= k < |st.pages| ==> FollowedWithin(site, st, st.pages[k].url, st.pages[k].depth + 1))
  }

  lemma BehindIsLayered(site: Site, st: State, depth: int)
    requires LayeredBehind(site, st, depth)
    ensures Layered(site, st)
  {
    hide Leads;
  }

  /** All pages but the last one, which was just fetched, have been followed. */
  ghost predicate OthersFollowed(site: Site, st: State) {
    Followed(site, st, site.home) && forall k :: 0 <= k < |st.pages| - 1 ==> Followed(site, st, st.pages[k].url)
  }

  ghost predicate OthersLayered(site: Site, st: State, depth: int) {
    && Ascending(st.found) && AtMost(st.found, depth + 1)
    && FollowedWithin(site, st, site.home, 1)
    && (forall k :: 0 <= k < |st.pages| - 1 ==> FollowedWithin(site, st, st.pages[k].url, st.pages[k].depth + 1))
  }

  predicate LastTaken(st: State, item: Item) {
    0 < Taken(st) <= |st.found| && st.found[Taken(st) - 1] == item
  }

  predicate LastPage(st: State, item: Item) {
    st.pages != [] && st.pages[|st.pages| - 1] == item
  }

  /** The item was taken from the queue and its answer is not known yet. */
  ghost predicate Pending(site: Site, opts: CrawlOptions, st: State, item: Item) {
    && Books(site, opts, st) && PagesOk(st, 1) && RoutesOk(site, st) && AllFollowed(site, st)
    && |st.pages| + 2 <= opts.maxPages && LastTaken(st, item) && Legitimate(site, opts, item)
    && (NoRedirects(site, st.pages) ==> LayeredBehind(site, st, item.depth))
  }

  ghost predicate KeptFollows(site: Site, st: State, item: Item) {
    OthersFollowed(site, st) && (NoRedirects(site, st.pages) ==> OthersLayered(site, st, item.depth))
  }

  /** The state in which the page is kept and nothing it offers has been looked at. */
  ghost predicate Kept(site: Site, opts: CrawlOptions, st: State, item: Item) {
    && Books(site, opts, st) && PagesOk(st, 0) && RoutesOk(site, st) && |st.pages| + 1 <= opts.maxPages
    && LastPage(st, item) && Legitimate(site, opts, item) && LastTaken(st, item)
    && Source(site, st, item) && KeptFollows(site, st, item)
  }

  /** A URL that is passed over with a count. */
  lemma PassedOver(site: Site, opts: CrawlOptions, st: State, why: Skip, item: Item)
    requires Pending(site, opts, st, item) && why in {RobotsDisallowed, FetchFailed}
    ensures CrawlInv(site, opts, Skipped(st, why, Some(item)))
  {
    var t := Skipped(st, why, Some(item));
    OneMoreSkip(st.skipped, why);
    hide Refused, RefusedHere, Passed, Count, Leads, Realised;
    assert Books(site, opts, t) by {
      assert VariantsOk(site, t);
      hide VariantsOk, QueueOk;
      SkippedKeepsBooks(site, opts, st, t);
    }
    hide Books;
    assert PagesOk(t, 0);
    if NoRedirects(site, t.pages) {
      assert LayeredBehind(site, t, item.depth);
      BehindIsLayered(site, t, item.depth);
    }
  }

  lemma KeepPageBooks(site: Site, opts: CrawlOptions, st: State, item: Item)
    requires Books(site, opts, st)
    ensures Books(site, opts, st.(pages := st.pages + [item]))
  {
  }

  lemma KeepPagePages(st: State, item: Item)
    requires PagesOk(st, 1) && LastTaken(st, item) && DistinctUrls(st.found)
    ensures PagesOk(st.(pages := st.pages + [item]), 0)
  {
    var t := st.(pages := st.pages + [item]);
    forall k | 0 <= k < |st.pages| ensures t.pages[k] in t.found[..Taken(t)] && st.pages[k].url != item.url {
      assert st.pages[k] in st.found[..Taken(st) - 1];
      var i :| 0 <= i < Taken(st) - 1 && st.found[i] == st.pages[k];
      assert t.found[..Taken(t)][i] == st.pages[k];
    }
    assert t.found[..Taken(t)][Taken(st) - 1] == item;
    if Passed(t.skipped) == 0 {
      forall i | 0 <= i < Taken(t) ensures t.found[i] in t.pages {
        if i == Taken(t) - 1 {
          assert t.pages[|st.pages|] == item;
        } else {
          assert st.found[i] in st.pages;
        }
      }
    }
  }

  lemma KeepPageRoutes(site: Site, st: State, item: Item)
    requires RoutesOk(site, st) && LastTaken(st, item)
    ensures var t := st.(pages := st.pages + [item]); RoutesOk(site, t) && Source(site, t, item)
  {
    hide Realised;
    var t := st.(pages := st.pages + [item]);
    assert forall k :: 0 <= k < |st.pages| ==> t.pages[k] == st.pages[k];
    assert Urls(st.pages) <= Urls(t.pages);
    assert t.pages[|st.pages|].url in Urls(t.pages);
    forall i | 0 <= i < |t.found| ensures Realised(site, Urls(t.pages), t.found[i]) {
      RealisedStays(site, Urls(st.pages), Urls(t.pages), t.found[i]);
    }
  }

  lemma KeepPageFollows(site: Site, st: State, item: Item)
    requires AllFollowed(site, st) && (NoRedirects(site, st.pages) ==> LayeredBehind(site, st, item.depth))
    ensures KeptFollows(site, st.(pages := st.pages + [item]), item)
  {
    hide Leads;
    var t := st.(pages := st.pages + [item]);
    assert forall k :: 0 <= k < |st.pages| ==> t.pages[k] == st.pages[k];
    if NoRedirects(site, t.pages) {
      assert NoRedirects(site, st.pages);
    }
  }

  lemma BooksAreDistinct(site: Site, opts: CrawlOptions, st: State)
    requires Books(site, opts, st)
    ensures DistinctUrls(st.found) && |st.queue| <= |st.found|
  {
  }

  lemma SameLast(st: State, item: Item)
    requires LastTaken(st, item)
    ensures var t := st.(pages := st.pages + [item]); LastTaken(t, item) && LastPage(t, item)
  {
  }

  lemma KeepPage(site: Site, opts: CrawlOptions, st: State, item: Item)
    requires Pending(site, opts, st, item)
    ensures Kept(site, opts, st.(pages := st.pages + [item]), item)
  {
    hide Books, PagesOk, RoutesOk, Source, Legitimate, AllFollowed, KeptFollows, LayeredBehind,
      NoRedirects, DistinctUrls, LastTaken, LastPage;
    BooksAreDistinct(site, opts, st);
    SameLast(st, item);
    KeepPageBooks(site, opts, st, item);
    KeepPagePages(st, item);
    KeepPageRoutes(site, st, item);
    KeepPageFollows(site, st, item);
  }

  /** The page is followed once everything it offers was considered. */
  lemma KeptIsDone(site: Site, opts: CrawlOptions, st: State, t: State, item: Item)
    requires Kept(site, opts, st, item) && Grew(st, t) && Books(site, opts, t) && RoutesOk(site, t)
    requires Followed(site, t, item.url)
    requires NoRedirects(site, st.pages) ==> Ascending(t.found) && AtMost(t.found, item.depth + 1)
    ensures CrawlInv(site, opts, t)
  {
    assert t.pages == st.pages;
    GrewKeepsPages(st, t);
    DoneIsFollowed(site, st, t, item);
    if NoRedirects(site, st.pages) {
      GrewKeepsFront(site, opts, st, t, item.depth);
      DoneIsLayered(site, st, t, item);
    }
    hide Books, RoutesOk, PagesOk, Source, Legitimate, AllFollowed, Layered, KeptFollows, Grew;
  }

  lemma DoneIsFollowed(site: Site, st: State, t: State, item: Item)
    requires OthersFollowed(site, st) && Grew(st, t) && Followed(site, t, item.url)
    requires st.pages != [] && st.pages[|st.pages| - 1] == item
    ensures AllFollowed(site, t)
  {
    forall k | 0 <= k < |t.pages| ensures Followed(site, t, t.pages[k].url) {
      GrewKeepsFollowed(site, st, t, st.pages[k].url, 0);
    }
    GrewKeepsFollowed(site, st, t, site.home, 1);
  }

  lemma DoneIsLayered(site: Site, st: State, t: State, item: Item)
    requires OthersLayered(site, st, item.depth) && Grew(st, t) && Followed(site, t, item.url)
    requires st.pages != [] && st.pages[|st.pages| - 1] == item
    requires Ascending(t.found) && AtMost(t.found, item.depth + 1)
    requires t.queue != [] ==> item.depth <= t.queue[0].depth
    ensures Layered(site, t)
  {
    forall k | 0 <= k < |t.pages| ensures FollowedWithin(site, t, t.pages[k].url, t.pages[k].depth + 1) {
      GrewKeepsFollowed(site, st, t, st.pages[k].url, st.pages[k].depth + 1);
    }
    GrewKeepsFollowed(site, st, t, site.home, 1);
  }

  lemma GrewKeepsPages(st: State, t: State)
    requires PagesOk(st, 0) && Grew(st, t)
    ensures PagesOk(t, 0)
  {
    assert t.found[..Taken(t)] == t.found[..|st.found|][..Taken(st)];
    assert forall i :: 0 <= i < Taken(st) ==> t.found[i] == t.found[..|st.found|][i];
  }

  /** The front of the queue is no shallower than the page just followed. */
  lemma GrewKeepsFront(site: Site, opts: CrawlOptions, st: State, t: State, depth: int)
    requires Books(site, opts, st) && Books(site, opts, t) && Grew(st, t) && Ascending(t.found)
    requires 0 < Taken(st) && st.found[Taken(st) - 1].depth == depth
    ensures t.queue != [] ==> depth <= t.queue[0].depth
  {
    if t.queue != [] {
      assert t.queue[0] == t.found[Taken(t)];
      assert t.found[..|st.found|][Taken(st) - 1] == st.found[Taken(st) - 1];
    }
  }

  lemma SkippedIsGrowth(site: Site, opts: CrawlOptions, st: State)
    requires Books(site, opts, st) && RoutesOk(site, st)
    ensures var t := Skipped(st, NotFollowable, None);
            Books(site, opts, t) && Grew(st, t) && RoutesOk(site, t) && t.seen == st.seen && t.found == st.found
  {
    hide Realised;
    UnfollowableKeepsBooks(site, opts, st);
  }

  /** An answer without links or a target to follow. */
  predicate Barren(answer: Answer) {
    match answer
    case Redirect(To(_)) => false
    case Document(_) => false
    case _ => true
  }

  lemma OffersNothing(site: Site, st: State, u: Url)
    requires u != site.home && Barren(site.answer(u))
    ensures Followed(site, st, u)
  {
  }

  lemma VisitKeeps(site: Site, opts: CrawlOptions, st: State, item: Item)
    requires Pending(site, opts, st, item)
    ensures Visit(site, opts, st, item).Goes? ==> CrawlInv(site, opts, Visit(site, opts, st, item).st)
  {
    var kept := st.(pages := st.pages + [item]);
    hide Pending, CrawlInv, Kept, Skipped, Consider, ConsiderAll;
    match site.answer(item.url) {
      case NoAnswer => PassedOver(site, opts, st, FetchFailed, item);
      case LimitReached =>
      case Undecodable =>
      case _ =>
        KeepPage(site, opts, st, item);
        FollowKept(site, opts, kept, item);
    }
  }

  /** What a kept page's answer makes of the state. */
  function AfterFollowing(site: Site, opts: CrawlOptions, kept: State, item: Item): State {
    match site.answer(item.url)
    case Redirect(To(raw)) => Consider(site, opts, kept, raw, item.depth)
    case Redirect(Malformed) => Skipped(kept, NotFollowable, None)
    case Document(links) => ConsiderAll(site, opts, kept, links, item.depth + 1)
    case _ => kept
  }

  lemma FollowKept(site: Site, opts: CrawlOptions, kept: State, item: Item)
    requires Kept(site, opts, kept, item)
    ensures CrawlInv(site, opts, AfterFollowing(site, opts, kept, item))
  {
    hide CrawlInv, Kept, Skipped, Consider, ConsiderAll;
    match site.answer(item.url) {
      case Redirect(To(raw)) => FollowRedirect(site, opts, kept, item, raw);
      case Redirect(Malformed) => FollowMalformed(site, opts, kept, item);
      case Document(links) => FollowDocument(site, opts, kept, item, links);
      case _ => FollowNothing(site, opts, kept, item);
    }
  }

  lemma FollowNothing(site: Site, opts: CrawlOptions, kept: State, item: Item)
    requires Kept(site, opts, kept, item) && Barren(site.answer(item.url))
    ensures CrawlInv(site, opts, kept)
  {
    hide Kept, Grew, CrawlInv, Books, RoutesOk, Ascending, AtMost, NoRedirects, Followed, Source, Barren;
    KeptFacts(site, opts, kept, item);
    OffersNothing(site, kept, item.url);
    NothingGrew(kept);
    KeptIsDone(site, opts, kept, kept, item);
  }

  lemma FollowMalformed(site: Site, opts: CrawlOptions, kept: State, item: Item)
    requires Kept(site, opts, kept, item) && site.answer(item.url) == Redirect(Malformed)
    ensures CrawlInv(site, opts, Skipped(kept, NotFollowable, None))
  {
    assert Barren(site.answer(item.url));
    hide Kept, Grew, CrawlInv, Books, RoutesOk, Ascending, AtMost, NoRedirects, Followed, Source, Barren, Skipped;
    KeptFacts(site, opts, kept, item);
    SkippedIsGrowth(site, opts, kept);
    OffersNothing(site, Skipped(kept, NotFollowable, None), item.url);
    KeptIsDone(site, opts, kept, Skipped(kept, NotFollowable, None), item);
  }

  lemma KeptFacts(site: Site, opts: CrawlOptions, kept: State, item: Item)
    requires Kept(site, opts, kept, item)
    ensures item.url != site.home && Books(site, opts, kept) && RoutesOk(site, kept) && Source(site, kept, item)
    ensures |kept.queue| <= |kept.found|
    ensures NoRedirects(site, kept.pages) ==>
              (!Redirects(site, item.url) && Ascending(kept.found) && AtMost(kept.found, item.depth + 1))
  {
    hide RoutesOk, Source, Followed, FollowedWithin;
  }

  lemma RedirectOffersItsTarget(site: Site, u: Url, raw: Raw)
    requires u != site.home && site.answer(u) == Redirect(To(raw))
    ensures Offers(site, u) == [raw] && Redirects(site, u) && StepCost(site, u) == 0
  {
  }

  lemma DocumentOffersItsLinks(site: Site, u: Url, links: seq<Raw>)
    requires u != site.home && site.answer(u) == Document(links)
    ensures Offers(site, u) == links && StepCost(site, u) == 1
  {
  }

  lemma FollowRedirect(site: Site, opts: CrawlOptions, kept: State, item: Item, raw: Raw)
    requires Kept(site, opts, kept, item) && site.answer(item.url) == Redirect(To(raw))
    ensures CrawlInv(site, opts, Consider(site, opts, kept, raw, item.depth))
  {
    hide Redirects, Offers, StepCost, Kept, Grew, CrawlInv, Books, RoutesOk, Source, Consider, Ascending, AtMost, NoRedirects;
    hide Realised;
    var t := Consider(site, opts, kept, raw, item.depth);
    KeptFacts(site, opts, kept, item);
    RedirectOffersItsTarget(site, item.url, raw);
    ConsiderKeepsBooks(site, opts, kept, raw, item.depth);
    ConsiderKeepsRoutes(site, opts, kept, item, raw, item.depth);
    ConsiderAddsAtMostOne(site, opts, kept, raw, item.depth);
    AllLinksFollowed(site, t, item.url);
    KeptIsDone(site, opts, kept, t, item);
  }

  lemma FollowDocument(site: Site, opts: CrawlOptions, kept: State, item: Item, links: seq<Raw>)
    requires Kept(site, opts, kept, item) && site.answer(item.url) == Document(links)
    ensures CrawlInv(site, opts, ConsiderAll(site, opts, kept, links, item.depth + 1))
  {
    var t := ConsiderAll(site, opts, kept, links, item.depth + 1);
    KeptFacts(site, opts, kept, item);
    DocumentOffersItsLinks(site, item.url, links);
    hide Redirects, Offers, StepCost, Kept, Grew, CrawlInv, Books, RoutesOk, Source, ConsiderAll, Ascending, AtMost, NoRedirects;
    ConsiderAllFollows(site, opts, kept, item, links, item.depth + 1);
    AllLinksFollowed(site, t, item.url);
    if NoRedirects(site, kept.pages) {
      ConsiderAllAscends(site, opts, kept, links, item.depth + 1);
    }
    KeptIsDone(site, opts, kept, t, item);
  }

  lemma PopKeepsFollowed(site: Site, opts: CrawlOptions, st: State)
    requires RoutesOk(site, st) && AllFollowed(site, st) && st.queue != []
    ensures RoutesOk(site, PoppedState(opts, st)) && AllFollowed(site, PoppedState(opts, st))
  {
    hide Realised, Leads;
  }

  lemma TakenNow(site: Site, opts: CrawlOptions, st: State)
    requires Books(site, opts, st) && st.queue != []
    ensures LastTaken(PoppedState(opts, st), st.queue[0]) && Legitimate(site, opts, st.queue[0])
    ensures |st.queue| <= |st.found| && st.queue == st.found[Taken(st)..]
  {
  }

  lemma PopKeeps(site: Site, opts: CrawlOptions, st: State)
    requires CrawlInv(site, opts, st) && st.queue != [] && |st.pages| + 2 <= opts.maxPages
    ensures Pending(site, opts, PoppedState(opts, st), st.queue[0])
  {
    hide Books, PagesOk, Layered, LayeredBehind, Legitimate, RoutesOk, AllFollowed, LastTaken, NoRedirects;
    TakenNow(site, opts, st);
    PopKeepsBooks(site, opts, st);
    PopKeepsPages(opts, st);
    PopKeepsFollowed(site, opts, st);
    if NoRedirects(site, st.pages) {
      PopKeepsLayers(site, opts, st);
    }
  }

  lemma TurnKeeps(site: Site, opts: CrawlOptions, st: State, elapsed: real)
    requires CrawlInv(site, opts, st) && st.queue != []
    ensures TakeTurn(site, opts, st, elapsed).Goes? ==> CrawlInv(site, opts, TakeTurn(site, opts, st, elapsed).st)
  {
    if TakeTurn(site, opts, st, elapsed).Goes? {
      var popped := PoppedState(opts, st);
      PopKeeps(site, opts, st);
      hide CrawlInv, Visit, Pending;
      if Allowed(site, opts, st.queue[0].url) {
        VisitKeeps(site, opts, popped, st.queue[0]);
      } else {
        PassedOver(site, opts, popped, RobotsDisallowed, st.queue[0]);
      }
    }
  }
}
