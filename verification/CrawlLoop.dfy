/** The crawl as it is written: a loop over mutable variables, proved to compute `CrawlRules.Run`. */
module CrawlLoop {
  import opened Options
  import opened CrawlRules

  class Crawl {
    const site: Site
    const opts: CrawlOptions
    var seen: set<Url>
    var variants: map<UrlPath, set<Query>>
    var queue: seq<Item>
    var discovered: nat
    var skipped: map<Skip, nat>
    var pages: seq<Item>
    var robotsLoaded: bool
    ghost var found: seq<Item>
    ghost var notes: seq<Note>

    /** The mutable variables as one value. */
    ghost function Now(): State
      reads this
    {
      State(seen, variants, queue, discovered, skipped, pages, robotsLoaded, found, notes)
    }

    constructor (site: Site, opts: CrawlOptions)
      ensures this.site == site && this.opts == opts
      ensures Now() == State({site.home}, map[], [], 0, map[], [], false, [], [])
    {
      this.site, this.opts := site, opts;
      seen, variants, queue, discovered := {site.home}, map[], [], 0;
      skipped, pages, robotsLoaded, found, notes := map[], [], false, [], [];
    }

    method SkipOne(why: Skip, ghost item: Option<Item>)
      modifies this`skipped, this`notes
      ensures Now() == Skipped(old(Now()), why, item)
    {
      var before := if why in skipped then skipped[why] else 0;
      skipped := skipped[why := before + 1];
      notes := notes + [Note(item, why)];
    }

    /** Queue a link if this crawl may visit it, else count why not. */
    method ConsiderLink(raw: Raw, depth: int)
      modifies this
      ensures Now() == Consider(site, opts, old(Now()), raw, depth)
    {
      var normal := site.normalize(raw);
      if normal.None? {
        SkipOne(NotFollowable, None);
        return;
      }
      var url := normal.value;
      if url in seen {
        return;
      }
      seen := seen + {url};
      ConsiderNew(url, depth);
    }

    /** A URL seen for the first time. */
    method ConsiderNew(url: Url, depth: int)
      modifies this
      ensures Now() == match Refusal(site, opts, old(Now()), url, depth)
                       case Some(why) => Skipped(Touched(site, old(Now()), url, why), why, Some(Item(url, depth)))
                       case None => Queued(site, old(Now()), Item(url, depth))
    {
      hide Queued, Touched, Known;
      TouchedAndQueued(site, Now(), Item(url, depth));
      if site.originOf(url) != site.originOf(site.home) {
        SkipOne(OtherOrigin, Some(Item(url, depth)));
        return;
      }
      if depth > opts.maxDepth {
        SkipOne(BeyondDepth, Some(Item(url, depth)));
        return;
      }
      if site.excluded(url) {
        SkipOne(Excluded, Some(Item(url, depth)));
        return;
      }
      var path := site.pathOf(url);
      ghost var before := Now();
      if path !in variants {
        variants := variants[path := {}];
      }
      ghost var touched := before.variants[path := Known(before, path)];
      assert Now() == before.(variants := touched) by { KnownIs(before, path); }
      assert variants[path] == Known(before, path);
      if site.queryOf(url) !in variants[path] && |variants[path]| >= MAX_QUERY_VARIANTS {
        SkipOne(QueryVariants, Some(Item(url, depth)));
        return;
      }
      if discovered >= MAX_DISCOVERED {
        SkipOne(QueueFull, Some(Item(url, depth)));
        return;
      }
      variants := variants[path := variants[path] + {site.queryOf(url)}];
      discovered := discovered + 1;
      queue := queue + [Item(url, depth)];
      found := found + [Item(url, depth)];
    }

    method ConsiderLinks(raws: seq<Raw>, depth: int)
      modifies this
      ensures Now() == ConsiderAll(site, opts, old(Now()), raws, depth)
    {
      for i := 0 to |raws|
        invariant ConsiderAll(site, opts, Now(), raws[i..], depth) == ConsiderAll(site, opts, old(Now()), raws, depth)
      {
        assert raws[i..][0] == raws[i] && raws[i..][1..] == raws[i + 1..];
        ConsiderLink(raws[i], depth);
      }
    }

    /** What is done with an answer once its page is kept; false when decoding it raises. */
    method Follow(item: Item, answer: Answer) returns (decoded: bool)
      requires answer == site.answer(item.url) && !answer.LimitReached? && !answer.NoAnswer?
      modifies this
      ensures Visit(site, opts, old(Now()), item) == if decoded then Goes(Now()) else Stops(Now(), Raised)
    {
      pages := pages + [item];
      decoded := true;
      match answer {
        case Redirect(To(raw)) => ConsiderLink(raw, item.depth);
        case Redirect(Malformed) => SkipOne(NotFollowable, None);
        case Document(links) => ConsiderLinks(links, item.depth + 1);
        case Undecodable => decoded := false;
        case _ =>
      }
    }

    /**
     * The main loop: what it leaves in the variables, and the reason it gives, are those of the run of the rules.
     * `clock(n)` is the time passed when turn `n` begins.
     */
    method Loop(clock: nat -> real) returns (reason: Reason)
      requires discovered <= MAX_DISCOVERED
      modifies this
      ensures (Now(), reason) == RunFrom(site, opts, clock, old(Now()), 0)
    {
      reason := Complete;
      var n := 0;
      ghost var result := RunFrom(site, opts, clock, Now(), 0);
      while queue != []
        invariant reason == Complete && discovered <= MAX_DISCOVERED
        invariant RunFrom(site, opts, clock, Now(), n) == result
        decreases Left(Now())
      {
        ghost var before := Now();
        TurnFacts(site, opts, before, clock(n));
        hide Visit, Left;
        if clock(n) >= opts.maxDuration {
          return MaxDuration;
        }
        if |pages| + 1 >= opts.maxPages {
          return MaxPages;
        }
        var item := queue[0];
        queue := queue[1..];
        if opts.respectRobots && !robotsLoaded {
          robotsLoaded := true;
          match site.robots {
            case RobotsLimitReached => return ScanLimit;
            case RobotsUnreadable => return RobotsUnavailable;
            case RobotsUndecodable => return Raised;
            case _ =>
          }
        }
        if opts.respectRobots && site.robots.Rules? && !site.robots.allowed(item.url) {
          SkipOne(RobotsDisallowed, Some(item));
        } else {
          var answer := site.answer(item.url);
          if answer.LimitReached? {
            VisitUnanswered(site, opts, Now(), item);
            return ScanLimit;
          }
          if answer.NoAnswer? {
            VisitUnanswered(site, opts, Now(), item);
            SkipOne(FetchFailed, Some(item));
          } else {
            var decoded := Follow(item, answer);
            if !decoded {
              return Raised;
            }
          }
        }
        assert TakeTurn(site, opts, before, clock(n)) == Goes(Now());
        n := n + 1;
      }
      if Count(skipped, BeyondDepth) > 0 {
        reason := MaxDepth;
      }
    }

    /** The whole crawl: the links of the home page, then the loop. */
    method Start(clock: nat -> real) returns (reason: Reason)
      requires Now() == State({site.home}, map[], [], 0, map[], [], false, [], [])
      modifies this
      ensures (Now(), reason) == Run(site, opts, clock)
    {
      ConsiderAllKeepsLeft(site, opts, Now(), site.homeLinks, 1);
      ConsiderLinks(site.homeLinks, 1);
      reason := Loop(clock);
    }
  }

  /** What `setdefault` and `add` do to the sets of queries, together. */
  lemma TouchedAndQueued(site: Site, st: State, item: Item)
    ensures var path := site.pathOf(item.url);
      var touched := st.(variants := st.variants[path := Known(st, path)]);
      && (forall why :: Touched(site, st, item.url, why) == if why == QueryVariants || why == QueueFull then touched else st)
      && Queued(site, st, item) == touched.(
           variants := touched.variants[path := touched.variants[path] + {site.queryOf(item.url)}],
           discovered := st.discovered + 1, queue := st.queue + [item], found := st.found + [item])
  {
  }

  lemma KnownIs(st: State, path: UrlPath)
    ensures Known(st, path) == if path in st.variants then st.variants[path] else {}
  {
  }

  lemma VisitUnanswered(site: Site, opts: CrawlOptions, st: State, item: Item)
    requires site.answer(item.url).LimitReached? || site.answer(item.url).NoAnswer?
    ensures Visit(site, opts, st, item)
         == if site.answer(item.url).LimitReached? then Stops(st, ScanLimit) else Goes(Skipped(st, FetchFailed, Some(item)))
  {
  }

  lemma TurnFacts(site: Site, opts: CrawlOptions, st: State, elapsed: real)
    requires st.queue != [] && st.discovered <= MAX_DISCOVERED
    ensures TakeTurn(site, opts, st, elapsed).Goes? ==>
      var t := TakeTurn(site, opts, st, elapsed).st;
      Left(t) < Left(st) && t.discovered <= MAX_DISCOVERED
    ensures Left(st) >= 0
  {
    if TakeTurn(site, opts, st, elapsed).Goes? {
      TurnLowersLeft(site, opts, st, elapsed);
    }
  }
}
