/**
 * The crawl as functions: what one link and one turn of the loop do to the crawl's state. The site is arbitrary: what
 * a URL answers, where links lead, what is excluded and what robots.txt allows are functions the crawl does not know.
 */
module CrawlRules {
  import opened Options

  type Raw(==, !new)  // the text of a link, already absolute
  type Url(==, !new)  // a normalized URL
  type Origin(==, !new)
  type UrlPath(==, !new)
  type Query(==, !new)

  const MAX_QUERY_VARIANTS: nat := 5
  const MAX_DISCOVERED: nat := 5000

  datatype Location = Absent | Malformed | To(raw: Raw)

  /** What fetching one URL gives. */
  datatype Answer =
    | LimitReached  // a cap of the whole scan was hit instead: the fetch raises
    | NoAnswer
    | Redirect(location: Location)
    | Document(links: seq<Raw>)  // a 2xx HTML page
    | Undecodable  // a 2xx HTML page that names a character set Python does not know: decoding it raises
    | Other

  datatype RobotsAnswer = RobotsLimitReached | RobotsUnreadable | RobotsUndecodable | NoRules | Rules(allowed: Url -> bool)

  datatype Site = Site(
    home: Url, homeLinks: seq<Raw>, normalize: Raw -> Option<Url>,
    originOf: Url -> Origin, pathOf: Url -> UrlPath, queryOf: Url -> Query,
    excluded: Url -> bool, robots: RobotsAnswer, answer: Url -> Answer)

  datatype CrawlOptions = CrawlOptions(maxDepth: int, maxPages: int, maxDuration: real, respectRobots: bool)
  {
    predicate Valid() { maxDepth >= 0 && maxPages >= 1 && maxDuration > 0.0 }
  }

  datatype Skip =
    | NotFollowable | OtherOrigin | BeyondDepth | Excluded | QueryVariants | QueueFull | RobotsDisallowed | FetchFailed

  datatype Reason =
    | Complete | MaxDepth | MaxPages | MaxDuration | ScanLimit | RobotsUnavailable
    | Raised  // LookupError leaves crawl(): there is no result

  /** A URL with the depth it was queued at; also a fetched page. */
  datatype Item = Item(url: Url, depth: int)

  /** A link or a URL that was counted instead of queued or fetched; without a URL when there was none to follow. */
  datatype Note = Note(item: Option<Item>, why: Skip)

  datatype State = State(
    seen: set<Url>, variants: map<UrlPath, set<Query>>, queue: seq<Item>, discovered: nat,
    skipped: map<Skip, nat>, pages: seq<Item>, robotsLoaded: bool,
    // history for the theorems: everything ever queued, and everything counted, in order
    found: seq<Item>, notes: seq<Note>)

  function Count(skipped: map<Skip, nat>, why: Skip): nat {
    if why in skipped then skipped[why] else 0
  }

  function Skipped(st: State, why: Skip, item: Option<Item>): State {
    st.(skipped := st.skipped[why := Count(st.skipped, why) + 1], notes := st.notes + [Note(item, why)])
  }

  function Known(st: State, path: UrlPath): set<Query> {
    if path in st.variants then st.variants[path] else {}
  }

  /** Why a URL seen for the first time is not queued, if it is not. */
  function Refusal(site: Site, opts: CrawlOptions, st: State, url: Url, depth: int): Option<Skip> {
    var known := Known(st, site.pathOf(url));
    if site.originOf(url) != site.originOf(site.home) then Some(OtherOrigin)
    else if depth > opts.maxDepth then Some(BeyondDepth)
    else if site.excluded(url) then Some(Excluded)
    else if site.queryOf(url) !in known && |known| >= MAX_QUERY_VARIANTS then Some(QueryVariants)
    else if st.discovered >= MAX_DISCOVERED then Some(QueueFull)
    else None
  }

  function Queued(site: Site, st: State, item: Item): State {
    var path := site.pathOf(item.url);
    st.(variants := st.variants[path := Known(st, path) + {site.queryOf(item.url)}],
        discovered := st.discovered + 1, queue := st.queue + [item], found := st.found + [item])
  }

  /** `setdefault` leaves an empty set for a path even when the URL is then refused. */
  function Touched(site: Site, st: State, url: Url, why: Skip): State {
    var path := site.pathOf(url);
    if why == QueryVariants || why == QueueFull then st.(variants := st.variants[path := Known(st, path)]) else st
  }

  function ConsiderUrl(site: Site, opts: CrawlOptions, st: State, url: Url, depth: int): State {
    if url in st.seen then st
    else
      var marked := st.(seen := st.seen + {url});
      match Refusal(site, opts, marked, url, depth)
      case Some(why) => Skipped(Touched(site, marked, url, why), why, Some(Item(url, depth)))
      case None => Queued(site, marked, Item(url, depth))
  }

  function Consider(site: Site, opts: CrawlOptions, st: State, raw: Raw, depth: int): State {
    match site.normalize(raw)
    case None => Skipped(st, NotFollowable, None)
    case Some(url) => ConsiderUrl(site, opts, st, url, depth)
  }

  function ConsiderAll(site: Site, opts: CrawlOptions, st: State, raws: seq<Raw>, depth: int): State
    decreases raws
  {
    if raws == [] then st
    else ConsiderAll(site, opts, Consider(site, opts, st, raws[0], depth), raws[1..], depth)
  }

  function Start(site: Site, opts: CrawlOptions): State {
    ConsiderAll(site, opts, State({site.home}, map[], [], 0, map[], [], false, [], []), site.homeLinks, 1)
  }

  // --- one turn of the loop ---------------------------------------------------------------------------

  datatype Turn = Goes(st: State) | Stops(st: State, reason: Reason)

  predicate Allowed(site: Site, opts: CrawlOptions, url: Url) {
    opts.respectRobots && site.robots.Rules? ==> site.robots.allowed(url)
  }

  /** The page was answered: keep it and follow what it offers. */
  function Visit(site: Site, opts: CrawlOptions, st: State, item: Item): Turn {
    var kept := st.(pages := st.pages + [item]);
    match site.answer(item.url)
    case LimitReached => Stops(st, ScanLimit)
    case NoAnswer => Goes(Skipped(st, FetchFailed, Some(item)))
    case Redirect(To(raw)) => Goes(Consider(site, opts, kept, raw, item.depth))
    case Redirect(Malformed) => Goes(Skipped(kept, NotFollowable, None))
    case Redirect(Absent) => Goes(kept)
    case Document(links) => Goes(ConsiderAll(site, opts, kept, links, item.depth + 1))
    case Undecodable => Stops(kept, Raised)
    case Other => Goes(kept)
  }

  /** What reading robots.txt, done before the first fetch, makes the crawl stop for. */
  function RobotsStop(site: Site, opts: CrawlOptions, st: State): Option<Reason> {
    if !opts.respectRobots || st.robotsLoaded then None
    else match site.robots
      case RobotsLimitReached => Some(ScanLimit)
      case RobotsUnreadable => Some(RobotsUnavailable)
      case RobotsUndecodable => Some(Raised)
      case _ => None
  }

  function TakeTurn(site: Site, opts: CrawlOptions, st: State, elapsed: real): Turn
    requires st.queue != []
  {
    if elapsed >= opts.maxDuration then Stops(st, MaxDuration)
    else if |st.pages| + 1 >= opts.maxPages then Stops(st, MaxPages)
    else
      var item := st.queue[0];
      var popped := st.(queue := st.queue[1..], robotsLoaded := opts.respectRobots || st.robotsLoaded);
      if RobotsStop(site, opts, st).Some? then Stops(popped, RobotsStop(site, opts, st).value)
      else if !Allowed(site, opts, item.url) then Goes(Skipped(popped, RobotsDisallowed, Some(item)))
      else Visit(site, opts, popped, item)
  }

  // --- the loop ends ------------------------------------------------------------------------------------

  /** Queue length plus what may still be queued: each turn that goes on lowers it by exactly one. */
  function Left(st: State): int { MAX_DISCOVERED - st.discovered + |st.queue| }

  lemma ConsiderKeepsLeft(site: Site, opts: CrawlOptions, st: State, raw: Raw, depth: int)
    requires st.discovered <= MAX_DISCOVERED
    ensures var t := Consider(site, opts, st, raw, depth);
            Left(t) == Left(st) && t.discovered <= MAX_DISCOVERED && t.pages == st.pages
  {
  }

  lemma {:induction false} ConsiderAllKeepsLeft(site: Site, opts: CrawlOptions, st: State, raws: seq<Raw>, depth: int)
    requires st.discovered <= MAX_DISCOVERED
    ensures var t := ConsiderAll(site, opts, st, raws, depth);
            Left(t) == Left(st) && t.discovered <= MAX_DISCOVERED && t.pages == st.pages
    decreases raws
  {
    if raws != [] {
      ConsiderKeepsLeft(site, opts, st, raws[0], depth);
      ConsiderAllKeepsLeft(site, opts, Consider(site, opts, st, raws[0], depth), raws[1..], depth);
    }
  }

  lemma TurnLowersLeft(site: Site, opts: CrawlOptions, st: State, elapsed: real)
    requires st.queue != [] && st.discovered <= MAX_DISCOVERED && TakeTurn(site, opts, st, elapsed).Goes?
    ensures var t := TakeTurn(site, opts, st, elapsed).st;
            Left(t) == Left(st) - 1 && t.discovered <= MAX_DISCOVERED
  {
    hide Consider, ConsiderAll;
    var item := st.queue[0];
    var popped := st.(queue := st.queue[1..], robotsLoaded := opts.respectRobots || st.robotsLoaded);
    var kept := popped.(pages := popped.pages + [item]);
    match site.answer(item.url) {
      case Redirect(To(raw)) => ConsiderKeepsLeft(site, opts, kept, raw, item.depth);
      case Document(links) => ConsiderAllKeepsLeft(site, opts, kept, links, item.depth + 1);
      case _ =>
    }
  }

  function Named(st: State, reason: Reason): Reason {
    if reason == Complete && Count(st.skipped, BeyondDepth) > 0 then MaxDepth else reason
  }

  /** The whole loop from a state; `clock(n)` is the time that has passed when turn `n` begins. */
  function RunFrom(site: Site, opts: CrawlOptions, clock: nat -> real, st: State, n: nat): (State, Reason)
    requires st.discovered <= MAX_DISCOVERED
    decreases Left(st)
  {
    if st.queue == [] then (st, Named(st, Complete))
    else
      match TakeTurn(site, opts, st, clock(n))
      case Stops(t, reason) => (t, reason)
      case Goes(t) => TurnLowersLeft(site, opts, st, clock(n)); RunFrom(site, opts, clock, t, n + 1)
  }

  function Run(site: Site, opts: CrawlOptions, clock: nat -> real): (State, Reason) {
    ConsiderAllKeepsLeft(site, opts, State({site.home}, map[], [], 0, map[], [], false, [], []), site.homeLinks, 1);
    RunFrom(site, opts, clock, Start(site, opts), 0)
  }
}
