/** Why each URL was counted instead of queued or fetched, and why the crawl stopped: exactly, for every site. */
module CrawlLedger {
  import opened Options
  import opened CrawlRules
  import opened CrawlGraph
  import opened CrawlProofs
  import opened CrawlTheorems

  // --- what a count means ------------------------------------------------------------------------------------------

  /** The queries of the URLs queued on this path. */
  function QueriesOn(site: Site, found: seq<Item>, path: UrlPath): set<Query> {
    set i | 0 <= i < |found| && site.pathOf(found[i].url) == path :: site.queryOf(found[i].url)
  }

  /** Of this origin, within the depth and not excluded: only a limit can keep it from being queued. */
  predicate Admissible(site: Site, opts: CrawlOptions, item: Item) {
    SameOrigin(site, item.url) && item.depth <= opts.maxDepth && !site.excluded(item.url)
  }

  /** The path of the URL has its five queries, and this is another one. */
  predicate PathIsFull(site: Site, found: seq<Item>, url: Url) {
    && |QueriesOn(site, found, site.pathOf(url))| >= 5
    && site.queryOf(url) !in QueriesOn(site, found, site.pathOf(url))
  }

  /** The reason a URL is counted under is the first that applies to it. */
  predicate Justified(site: Site, opts: CrawlOptions, found: seq<Item>, note: Note) {
    match note
    case Note(None, why) => why == NotFollowable
    case Note(Some(item), why) =>
      match why
      case NotFollowable => false
      case OtherOrigin => !SameOrigin(site, item.url)
      case BeyondDepth => SameOrigin(site, item.url) && item.depth > opts.maxDepth
      case Excluded => SameOrigin(site, item.url) && item.depth <= opts.maxDepth && site.excluded(item.url)
      case QueryVariants => Admissible(site, opts, item) && PathIsFull(site, found, item.url)
      case QueueFull => Admissible(site, opts, item) && |found| >= 5000
      case RobotsDisallowed => item in found && !Allowed(site, opts, item.url)
      case FetchFailed => item in found && Allowed(site, opts, item.url) && site.answer(item.url) == NoAnswer
  }

  /** The URLs counted when they were met. */
  function RefusedUrls(notes: seq<Note>): set<Url> {
    set k | 0 <= k < |notes| && notes[k].item.Some? && notes[k].why != RobotsDisallowed && notes[k].why != FetchFailed
      :: notes[k].item.value.url
  }

  function NotesOf(notes: seq<Note>, why: Skip): set<nat> {
    set k: nat | k < |notes| && notes[k].why == why
  }

  /** Each counter is the number of notes of its kind. */
  ghost predicate Counted(st: State) {
    forall why :: Count(st.skipped, why) == |NotesOf(st.notes, why)|
  }

  ghost predicate AllJustified(site: Site, opts: CrawlOptions, st: State) {
    forall k :: 0 <= k < |st.notes| ==> Justified(site, opts, st.found, st.notes[k])
  }

  /** Each URL met, the home page aside, was queued or noted. */
  predicate SeenIsTold(site: Site, st: State) {
    st.seen == {site.home} + Urls(st.found) + RefusedUrls(st.notes)
  }

  /** Exactly the queries of what was queued are known. */
  ghost predicate VariantsExact(site: Site, st: State) {
    forall path :: Known(st, path) == QueriesOn(site, st.found, path)
  }

  ghost predicate Ledger(site: Site, opts: CrawlOptions, st: State) {
    Counted(st) && AllJustified(site, opts, st) && SeenIsTold(site, st) && VariantsExact(site, st)
  }

  // --- one link ----------------------------------------------------------------------------------------------------

  lemma OneMoreNote(notes: seq<Note>, note: Note, why: Skip)
    ensures |NotesOf(notes + [note], why)| == |NotesOf(notes, why)| + if note.why == why then 1 else 0
  {
    var here: set<nat> := if note.why == why then {|notes|} else {};
    assert NotesOf(notes + [note], why) == NotesOf(notes, why) + here;
  }

  lemma SkippingCounts(st: State, why: Skip, item: Option<Item>)
    requires Counted(st)
    ensures Counted(Skipped(st, why, item))
  {
    hide NotesOf;
    forall other ensures Count(Skipped(st, why, item).skipped, other) == |NotesOf(Skipped(st, why, item).notes, other)| {
      OneMoreNote(st.notes, Note(item, why), other);
    }
  }

  lemma OneMoreRefusedUrl(notes: seq<Note>, note: Note)
    ensures RefusedUrls(notes + [note]) == RefusedUrls(notes)
      + if note.item.Some? && note.why != RobotsDisallowed && note.why != FetchFailed then {note.item.value.url} else {}
  {
    var all := notes + [note];
    forall u | u in RefusedUrls(notes) ensures u in RefusedUrls(all) {
      var k :| 0 <= k < |notes| && notes[k].item.Some? && notes[k].why != RobotsDisallowed
        && notes[k].why != FetchFailed && notes[k].item.value.url == u;
      assert all[k] == notes[k];
    }
    assert all[|notes|] == note;
    forall u | u in RefusedUrls(all) && u !in RefusedUrls(notes)
      ensures note.item.Some? && note.why != RobotsDisallowed && note.why != FetchFailed && u == note.item.value.url
    {
      var k :| 0 <= k < |all| && all[k].item.Some? && all[k].why != RobotsDisallowed
        && all[k].why != FetchFailed && all[k].item.value.url == u;
      assert k < |notes| ==> all[k] == notes[k];
    }
  }

  lemma OneMoreQuery(site: Site, found: seq<Item>, item: Item, path: UrlPath)
    ensures QueriesOn(site, found + [item], path)
         == QueriesOn(site, found, path) + if site.pathOf(item.url) == path then {site.queryOf(item.url)} else {}
  {
    var all := found + [item];
    forall q | q in QueriesOn(site, found, path) ensures q in QueriesOn(site, all, path) {
      var i :| 0 <= i < |found| && site.pathOf(found[i].url) == path && site.queryOf(found[i].url) == q;
      assert all[i] == found[i];
    }
    assert all[|found|] == item;
    forall q | q in QueriesOn(site, all, path) && q !in QueriesOn(site, found, path)
      ensures site.pathOf(item.url) == path && q == site.queryOf(item.url)
    {
      var i :| 0 <= i < |all| && site.pathOf(all[i].url) == path && site.queryOf(all[i].url) == q;
      assert i < |found| ==> all[i] == found[i];
    }
  }

  lemma OneMoreUrl(found: seq<Item>, item: Item)
    ensures Urls(found + [item]) == Urls(found) + {item.url}
  {
    var all := found + [item];
    assert all[|found|] == item && forall i :: 0 <= i < |found| ==> all[i] == found[i];
    forall u | u in Urls(found) ensures u in Urls(all) {
      var i :| 0 <= i < |found| && found[i].url == u;
      assert all[i].url == u;
    }
  }

  lemma FullPathStaysFull(site: Site, found: seq<Item>, item: Item, url: Url)
    requires PathIsFull(site, found, url)
    requires var path := site.pathOf(item.url);
      site.queryOf(item.url) in QueriesOn(site, found, path) || |QueriesOn(site, found, path)| < 5
    ensures PathIsFull(site, found + [item], url)
  {
    OneMoreQuery(site, found, item, site.pathOf(url));
    hide QueriesOn;
    assert QueriesOn(site, found + [item], site.pathOf(url)) == QueriesOn(site, found, site.pathOf(url));
  }

  /** A note stays justified when a URL is queued that its path has room for. */
  lemma StaysJustified(site: Site, opts: CrawlOptions, found: seq<Item>, item: Item, note: Note)
    requires Justified(site, opts, found, note)
    requires var path := site.pathOf(item.url);
      site.queryOf(item.url) in QueriesOn(site, found, path) || |QueriesOn(site, found, path)| < 5
    ensures Justified(site, opts, found + [item], note)
  {
    if note.why == QueryVariants {
      FullPathStaysFull(site, found, item, note.item.value.url);
    }
    hide QueriesOn, PathIsFull;
  }

  lemma NoteKeepsLedger(site: Site, opts: CrawlOptions, st: State, t: State, why: Skip, item: Option<Item>)
    requires Counted(st) && AllJustified(site, opts, st)
    requires Justified(site, opts, st.found, Note(item, why))
    requires t.found == st.found && t.notes == st.notes + [Note(item, why)]
    requires t.skipped == st.skipped[why := Count(st.skipped, why) + 1]
    ensures Counted(t) && AllJustified(site, opts, t)
  {
    SkippingCounts(st, why, item);
    hide Justified, NotesOf;
  }

  lemma RefusalIsJustified(site: Site, opts: CrawlOptions, st: State, url: Url, depth: int, why: Skip)
    requires VariantsExact(site, st) && st.discovered == |st.found| && Refusal(site, opts, st, url, depth) == Some(why)
    ensures Justified(site, opts, st.found, Note(Some(Item(url, depth)), why))
    ensures why != RobotsDisallowed && why != FetchFailed
  {
    assert Known(st, site.pathOf(url)) == QueriesOn(site, st.found, site.pathOf(url));
    hide QueriesOn, Known;
  }

  lemma RefusedKeepsLedger(site: Site, opts: CrawlOptions, st: State, url: Url, depth: int, why: Skip)
    requires Ledger(site, opts, st) && url !in st.seen
    requires Refusal(site, opts, st.(seen := st.seen + {url}), url, depth) == Some(why) && st.discovered == |st.found|
    ensures Ledger(site, opts,
      Skipped(Touched(site, st.(seen := st.seen + {url}), url, why), why, Some(Item(url, depth))))
  {
    hide Touched, Refusal, Justified, RefusedUrls, NotesOf, QueriesOn, Urls, Known, Count, Counted, AllJustified,
      VariantsExact;
    var marked := st.(seen := st.seen + {url});
    var note := Note(Some(Item(url, depth)), why);
    var t := Skipped(Touched(site, marked, url, why), why, note.item);
    SameVariants(site, st, marked);
    RefusalIsJustified(site, opts, marked, url, depth, why);
    TouchingKeepsKnown(site, marked, url, why);
    TouchesVariantsOnly(site, marked, url, why);
    SameKnown(site, marked, t);
    OneMoreRefusedUrl(st.notes, note);
    NoteKeepsLedger(site, opts, st, t, why, note.item);
  }

  lemma SameKnown(site: Site, st: State, t: State)
    requires VariantsExact(site, st) && t.found == st.found
    requires exists s: State :: t.variants == s.variants && forall path :: Known(s, path) == Known(st, path)
    ensures VariantsExact(site, t)
  {
    hide QueriesOn;
  }

  lemma TouchesVariantsOnly(site: Site, st: State, url: Url, why: Skip)
    ensures Touched(site, st, url, why) == st.(variants := Touched(site, st, url, why).variants)
  {
  }

  lemma TouchingKeepsKnown(site: Site, st: State, url: Url, why: Skip)
    ensures forall path :: Known(Touched(site, st, url, why), path) == Known(st, path)
  {
  }

  lemma QueuedKeepsLedger(site: Site, opts: CrawlOptions, st: State, url: Url, depth: int)
    requires Ledger(site, opts, st) && url !in st.seen
    requires Refusal(site, opts, st.(seen := st.seen + {url}), url, depth).None?
    ensures Ledger(site, opts, Queued(site, st.(seen := st.seen + {url}), Item(url, depth)))
  {
    var item := Item(url, depth);
    var t := Queued(site, st.(seen := st.seen + {url}), item);
    assert Known(st, site.pathOf(url)) == QueriesOn(site, st.found, site.pathOf(url));
    forall path ensures Known(t, path) == QueriesOn(site, t.found, path) {
      OneMoreQuery(site, st.found, item, path);
      assert Known(st, path) == QueriesOn(site, st.found, path);
    }
    OneMoreUrl(st.found, item);
    hide Justified, QueriesOn, NotesOf, RefusedUrls, Urls;
    forall k | 0 <= k < |t.notes| ensures Justified(site, opts, t.found, t.notes[k]) {
      assert Justified(site, opts, st.found, st.notes[k]);
      StaysJustified(site, opts, st.found, item, st.notes[k]);
    }
  }

  lemma UnfollowableKeepsLedger(site: Site, opts: CrawlOptions, st: State)
    requires Ledger(site, opts, st)
    ensures Ledger(site, opts, Skipped(st, NotFollowable, None))
  {
    hide Count, NotesOf, RefusedUrls, QueriesOn, Urls, Known, Counted, AllJustified, VariantsExact;
    var t := Skipped(st, NotFollowable, None);
    OneMoreRefusedUrl(st.notes, Note(None, NotFollowable));
    assert Justified(site, opts, st.found, Note(None, NotFollowable));
    hide Justified;
    SameVariants(site, st, t);
    NoteKeepsLedger(site, opts, st, t, NotFollowable, None);
  }

  lemma SameVariants(site: Site, st: State, t: State)
    requires VariantsExact(site, st) && t.variants == st.variants && t.found == st.found
    ensures VariantsExact(site, t)
  {
    hide QueriesOn;
  }

  lemma ConsiderKeepsLedger(site: Site, opts: CrawlOptions, st: State, raw: Raw, depth: int)
    requires Ledger(site, opts, st) && st.discovered == |st.found|
    ensures var t := Consider(site, opts, st, raw, depth); Ledger(site, opts, t) && t.discovered == |t.found|
  {
    hide Ledger, Refusal;
    match site.normalize(raw) {
      case None => UnfollowableKeepsLedger(site, opts, st);
      case Some(url) =>
        if url !in st.seen {
          var why := Refusal(site, opts, st.(seen := st.seen + {url}), url, depth);
          if why.Some? {
            RefusedKeepsLedger(site, opts, st, url, depth, why.value);
          } else {
            QueuedKeepsLedger(site, opts, st, url, depth);
          }
        }
    }
  }

  lemma {:induction false} ConsiderAllKeepsLedger(site: Site, opts: CrawlOptions, st: State, raws: seq<Raw>, depth: int)
    requires Ledger(site, opts, st) && st.discovered == |st.found|
    ensures var t := ConsiderAll(site, opts, st, raws, depth); Ledger(site, opts, t) && t.discovered == |t.found|
    decreases raws
  {
    hide Ledger, Consider;
    if raws != [] {
      ConsiderKeepsLedger(site, opts, st, raws[0], depth);
      ConsiderAllKeepsLedger(site, opts, Consider(site, opts, st, raws[0], depth), raws[1..], depth);
    }
  }

  // --- what was taken ----------------------------------------------------------------------------------------------

  /** What became of a URL taken from the queue: it was disallowed, could not be fetched, or is a page. */
  predicate Told(site: Site, opts: CrawlOptions, pages: seq<Item>, notes: seq<Note>, item: Item) {
    if !Allowed(site, opts, item.url) then Note(Some(item), RobotsDisallowed) in notes
    else if site.answer(item.url) == NoAnswer then Note(Some(item), FetchFailed) in notes
    else item in pages
  }

  predicate Fetched(site: Site, opts: CrawlOptions, url: Url) {
    Allowed(site, opts, url) && site.answer(url) != NoAnswer && site.answer(url) != LimitReached
  }

  ghost predicate TakenAreTold(site: Site, opts: CrawlOptions, st: State, pending: nat) {
    && 0 <= Taken(st) - pending
    && (forall i :: 0 <= i < Taken(st) - pending ==> Told(site, opts, st.pages, st.notes, st.found[i]))
    && (forall k :: 0 <= k < |st.pages| ==> st.pages[k] in st.found && Fetched(site, opts, st.pages[k].url))
  }

  /** What considering links leaves: everything that was there, in the same order. */
  predicate Extends(st: State, t: State) {
    && Taken(t) == Taken(st) && t.pages == st.pages && t.robotsLoaded == st.robotsLoaded
    && |st.found| <= |t.found| && t.found[..|st.found|] == st.found
    && |st.notes| <= |t.notes| && t.notes[..|st.notes|] == st.notes
  }

  lemma ConsiderExtends(site: Site, opts: CrawlOptions, st: State, raw: Raw, depth: int)
    ensures Extends(st, Consider(site, opts, st, raw, depth))
  {
  }

  lemma {:induction false} ConsiderAllExtends(site: Site, opts: CrawlOptions, st: State, raws: seq<Raw>, depth: int)
    ensures Extends(st, ConsiderAll(site, opts, st, raws, depth))
    decreases raws
  {
    hide Consider;
    if raws != [] {
      var next := Consider(site, opts, st, raws[0], depth);
      ConsiderExtends(site, opts, st, raws[0], depth);
      ConsiderAllExtends(site, opts, next, raws[1..], depth);
      ExtendsOn(st, next, ConsiderAll(site, opts, next, raws[1..], depth));
    }
  }

  lemma ExtendsOn(a: State, b: State, c: State)
    requires Extends(a, b) && Extends(b, c)
    ensures Extends(a, c)
  {
    assert c.found[..|a.found|] == c.found[..|b.found|][..|a.found|];
    assert c.notes[..|a.notes|] == c.notes[..|b.notes|][..|a.notes|];
  }

  // --- one turn ----------------------------------------------------------------------------------------------------

  /** Counted URLs lie at the end of a route, and their depth is its cost. */
  ghost predicate NotesOnRoutes(site: Site, st: State) {
    forall k :: 0 <= k < |st.notes| && st.notes[k].item.Some? ==> Realised(site, Urls(st.pages), st.notes[k].item.value)
  }

  lemma ConsiderNotesOne(site: Site, opts: CrawlOptions, st: State, raw: Raw, depth: int)
    ensures var t := Consider(site, opts, st, raw, depth);
      && t.pages == st.pages
      && (t.notes == st.notes
          || (|t.notes| == |st.notes| + 1 && t.notes[..|st.notes|] == st.notes
              && (t.notes[|st.notes|].item.Some? ==>
                    site.normalize(raw).Some? && t.notes[|st.notes|].item.value == Item(site.normalize(raw).value, depth))))
  {
  }

  lemma ConsiderKeepsRoutedNotes(site: Site, opts: CrawlOptions, st: State, from: Item, raw: Raw, depth: int)
    requires NotesOnRoutes(site, st) && Source(site, st, from)
    requires raw in Offers(site, from.url) && depth == from.depth + StepCost(site, from.url)
    ensures NotesOnRoutes(site, Consider(site, opts, st, raw, depth))
  {
    hide Consider, Realised;
    ConsiderNotesOne(site, opts, st, raw, depth);
    if site.normalize(raw).Some? {
      var url := site.normalize(raw).value;
      assert Leads(site, from.url, url);
      RouteGoesOn(site, Urls(st.pages), from, url);
    }
  }

  lemma {:induction false} ConsiderAllKeepsRoutedNotes(
      site: Site, opts: CrawlOptions, st: State, from: Item, raws: seq<Raw>, depth: int)
    requires NotesOnRoutes(site, st) && Source(site, st, from)
    requires depth == from.depth + StepCost(site, from.url)
    requires forall raw :: raw in raws ==> raw in Offers(site, from.url)
    ensures NotesOnRoutes(site, ConsiderAll(site, opts, st, raws, depth))
    decreases raws
  {
    hide Consider, Realised, NotesOnRoutes, Offers;
    if raws != [] {
      assert raws[0] in raws && forall raw :: raw in raws[1..] ==> raw in raws;
      ConsiderKeepsRoutedNotes(site, opts, st, from, raws[0], depth);
      ConsiderExtends(site, opts, st, raws[0], depth);
      ConsiderAllKeepsRoutedNotes(site, opts, Consider(site, opts, st, raws[0], depth), from, raws[1..], depth);
    }
  }

  /** What the last URL taken, or reading robots.txt before the first, makes the crawl stop for. */
  function HaltOf(site: Site, opts: CrawlOptions, st: State): Option<Reason>
    requires 0 <= Taken(st) <= |st.found|
  {
    if Taken(st) == 0 then None
    else if opts.respectRobots && site.robots.RobotsLimitReached? then Some(ScanLimit)
    else if opts.respectRobots && site.robots.RobotsUnreadable? then Some(RobotsUnavailable)
    else if opts.respectRobots && site.robots.RobotsUndecodable? then Some(Raised)
    else
      var last := st.found[Taken(st) - 1].url;
      if !Allowed(site, opts, last) then None
      else match site.answer(last)
        case LimitReached => Some(ScanLimit)
        case Undecodable => Some(Raised)
        case _ => None
  }

  ghost predicate Told0(site: Site, opts: CrawlOptions, st: State) {
    Ledger(site, opts, st) && TakenAreTold(site, opts, st, 0) && NotesOnRoutes(site, st)
  }

  lemma SameBooksLedger(site: Site, opts: CrawlOptions, st: State, t: State)
    requires Ledger(site, opts, st)
    requires t == st.(queue := t.queue, pages := t.pages, robotsLoaded := t.robotsLoaded)
    ensures Ledger(site, opts, t)
  {
    hide Justified, NotesOf, QueriesOn;
  }

  /** The item in hand is told: by a note, or as a page. */
  lemma LastIsTold(site: Site, opts: CrawlOptions, st: State, t: State, item: Item)
    requires TakenAreTold(site, opts, st, 0) && 0 <= Taken(st) < |st.found| && st.found[Taken(st)] == item
    requires Taken(t) == Taken(st) + 1 && |st.found| <= |t.found| && t.found[..|st.found|] == st.found
    requires |st.notes| <= |t.notes| && t.notes[..|st.notes|] == st.notes
    requires t.pages == st.pages || (t.pages == st.pages + [item] && Fetched(site, opts, item.url))
    requires Told(site, opts, t.pages, t.notes, item)
    ensures TakenAreTold(site, opts, t, 0)
  {
    hide Allowed;
    assert forall i :: 0 <= i < |st.found| ==> t.found[i] == t.found[..|st.found|][i];
    assert forall note :: note in st.notes ==> note in t.notes by {
      assert t.notes == st.notes + t.notes[|st.notes|..];
    }
    forall i | 0 <= i < Taken(t) ensures Told(site, opts, t.pages, t.notes, t.found[i]) {
      if i < Taken(st) {
        assert Told(site, opts, st.pages, st.notes, st.found[i]);
      }
    }
    forall k | 0 <= k < |t.pages| ensures t.pages[k] in t.found && Fetched(site, opts, t.pages[k].url) {
      if k < |st.pages| {
        assert st.pages[k] in st.found;
        var i :| 0 <= i < |st.found| && st.found[i] == st.pages[k];
        assert t.found[i] == st.found[i];
      } else {
        assert t.found[Taken(st)] == item;
      }
    }
  }

  lemma SkippedTurn(site: Site, opts: CrawlOptions, st: State, popped: State, why: Skip)
    requires Told0(site, opts, st) && st.queue != [] && popped == PoppedState(opts, st) && RoutesOk(site, st)
    requires 0 <= Taken(st) && st.queue == st.found[Taken(st)..]
    requires if Allowed(site, opts, st.queue[0].url)
             then why == FetchFailed && site.answer(st.queue[0].url) == NoAnswer
             else why == RobotsDisallowed
    ensures Told0(site, opts, Skipped(popped, why, Some(st.queue[0])))
  {
    var item := st.queue[0];
    var t := Skipped(popped, why, Some(item));
    assert st.found[Taken(st)] == item && item in popped.found;
    SameBooksLedger(site, opts, st, popped);
    PassingKeepsLedger(site, opts, popped, why, item);
    PassingIsRouted(site, st, t, why, item);
    assert t.notes[|st.notes|] == Note(Some(item), why);
    hide Ledger, NotesOnRoutes, RoutesOk, Allowed;
    LastIsTold(site, opts, st, t, item);
  }

  lemma PassingKeepsLedger(site: Site, opts: CrawlOptions, st: State, why: Skip, item: Item)
    requires Ledger(site, opts, st) && item in st.found
    requires if Allowed(site, opts, item.url) then why == FetchFailed && site.answer(item.url) == NoAnswer
             else why == RobotsDisallowed
    ensures Ledger(site, opts, Skipped(st, why, Some(item)))
  {
    hide Count, NotesOf, RefusedUrls, QueriesOn, Urls, Known, Counted, AllJustified, VariantsExact, Allowed;
    var t := Skipped(st, why, Some(item));
    assert Justified(site, opts, st.found, Note(Some(item), why));
    OneMoreRefusedUrl(st.notes, Note(Some(item), why));
    hide Justified;
    SameVariants(site, st, t);
    NoteKeepsLedger(site, opts, st, t, why, Some(item));
  }

  lemma PassingIsRouted(site: Site, st: State, t: State, why: Skip, item: Item)
    requires RoutesOk(site, st) && NotesOnRoutes(site, st) && 0 <= Taken(st) < |st.found| && st.found[Taken(st)] == item
    requires t.pages == st.pages && t.notes == st.notes + [Note(Some(item), why)]
    ensures NotesOnRoutes(site, t)
  {
    hide Realised;
  }

  /** A page is kept and what it offers is considered. */
  lemma KeptTurn(site: Site, opts: CrawlOptions, st: State, t: State)
    requires Told0(site, opts, st) && st.queue != [] && RoutesOk(site, st)
    requires st.discovered == |st.found| && 0 <= Taken(st) && st.queue == st.found[Taken(st)..]
    requires st.queue[0].url != site.home && Fetched(site, opts, st.queue[0].url)
    requires var kept := PoppedState(opts, st).(pages := st.pages + [st.queue[0]]);
      t == AfterFollowing(site, opts, kept, st.queue[0])
    ensures Told0(site, opts, t)
  {
    var item := st.queue[0];
    var kept := PoppedState(opts, st).(pages := st.pages + [item]);
    SameBooksLedger(site, opts, st, kept);
    assert st.found[Taken(st)] == item;
    KeptNotes(site, st, kept, item);
    assert kept.pages[|st.pages|] == item;
    assert item in kept.pages && kept.notes[..|st.notes|] == st.notes && kept.found[..|st.found|] == st.found;
    assert Taken(kept) == Taken(st) + 1;
    FollowingKeepsLedger(site, opts, kept, t, item);
    hide Ledger, NotesOnRoutes, Source, AfterFollowing, Consider, ConsiderAll;
    LastIsTold(site, opts, st, t, item);
  }

  lemma KeptNotes(site: Site, st: State, kept: State, item: Item)
    requires RoutesOk(site, st) && NotesOnRoutes(site, st) && 0 <= Taken(st) < |st.found| && st.found[Taken(st)] == item
    requires kept.pages == st.pages + [item] && kept.notes == st.notes
    ensures NotesOnRoutes(site, kept) && Source(site, kept, item)
  {
    hide Realised;
    assert forall k :: 0 <= k < |st.pages| ==> kept.pages[k] == st.pages[k];
    assert Urls(st.pages) <= Urls(kept.pages);
    assert kept.pages[|st.pages|].url in Urls(kept.pages);
    RealisedStays(site, Urls(st.pages), Urls(kept.pages), st.found[Taken(st)]);
    forall k | 0 <= k < |kept.notes| && kept.notes[k].item.Some?
      ensures Realised(site, Urls(kept.pages), kept.notes[k].item.value)
    {
      RealisedStays(site, Urls(st.pages), Urls(kept.pages), st.notes[k].item.value);
    }
  }

  lemma FollowingKeepsLedger(site: Site, opts: CrawlOptions, kept: State, t: State, item: Item)
    requires Ledger(site, opts, kept) && NotesOnRoutes(site, kept) && Source(site, kept, item) && item.url != site.home
    requires kept.discovered == |kept.found| && t == AfterFollowing(site, opts, kept, item)
    ensures Ledger(site, opts, t) && NotesOnRoutes(site, t) && Extends(kept, t)
  {
    hide Ledger, NotesOnRoutes, Source, Consider, ConsiderAll, Skipped;
    match site.answer(item.url) {
      case Redirect(To(raw)) =>
        RedirectOffersItsTarget(site, item.url, raw);
        ConsiderKeepsLedger(site, opts, kept, raw, item.depth);
        ConsiderKeepsRoutedNotes(site, opts, kept, item, raw, item.depth);
        ConsiderExtends(site, opts, kept, raw, item.depth);
      case Redirect(Malformed) =>
        UnfollowableKeepsLedger(site, opts, kept);
        UnfollowableIsRouted(site, kept);
      case Document(links) =>
        DocumentOffersItsLinks(site, item.url, links);
        ConsiderAllKeepsLedger(site, opts, kept, links, item.depth + 1);
        ConsiderAllKeepsRoutedNotes(site, opts, kept, item, links, item.depth + 1);
        ConsiderAllExtends(site, opts, kept, links, item.depth + 1);
      case _ =>
    }
  }

  lemma UnfollowableIsRouted(site: Site, st: State)
    requires NotesOnRoutes(site, st)
    ensures var t := Skipped(st, NotFollowable, None); NotesOnRoutes(site, t) && Extends(st, t)
  {
    hide Realised;
  }

  // --- the run -----------------------------------------------------------------------------------------------------

  lemma InvFacts(site: Site, opts: CrawlOptions, st: State)
    requires CrawlInv(site, opts, st)
    ensures RoutesOk(site, st) && st.discovered == |st.found| && 0 <= Taken(st) && st.queue == st.found[Taken(st)..]
    ensures st.queue != [] ==>
      Taken(st) < |st.found| && st.found[Taken(st)] == st.queue[0] && st.queue[0].url != site.home
  {
    hide RoutesOk, AllFollowed, Layered, VariantsOk, SeenCounted, SeenExplained, PagesOk;
    if st.queue != [] {
      assert Legitimate(site, opts, st.found[Taken(st)]);
    }
  }

  /** Robots.txt is read before the first fetch, and no stop has been met. */
  ghost predicate Underway(site: Site, opts: CrawlOptions, st: State)
    requires 0 <= Taken(st) <= |st.found|
  {
    (opts.respectRobots ==> (st.robotsLoaded <==> Taken(st) > 0)) && HaltOf(site, opts, st) == None
  }

  /** The ways a turn goes on. */
  lemma GoingTurn(site: Site, opts: CrawlOptions, st: State, elapsed: real)
    requires st.queue != [] && TakeTurn(site, opts, st, elapsed).Goes?
    ensures var t := TakeTurn(site, opts, st, elapsed).st; var item, popped := st.queue[0], PoppedState(opts, st);
      && elapsed < opts.maxDuration && RobotsStop(site, opts, st) == None
      && if !Allowed(site, opts, item.url) then t == Skipped(popped, RobotsDisallowed, Some(item))
         else if site.answer(item.url) == NoAnswer then t == Skipped(popped, FetchFailed, Some(item))
         else site.answer(item.url) != LimitReached && site.answer(item.url) != Undecodable
              && t == AfterFollowing(site, opts, popped.(pages := st.pages + [item]), item)
  {
    hide Consider, ConsiderAll, Skipped, Allowed;
  }

  /** The ways a turn stops the crawl. */
  lemma StoppingTurn(site: Site, opts: CrawlOptions, st: State, elapsed: real)
    requires st.queue != [] && TakeTurn(site, opts, st, elapsed).Stops?
    ensures var Stops(t, reason) := TakeTurn(site, opts, st, elapsed);
      var item, popped := st.queue[0], PoppedState(opts, st);
      if elapsed >= opts.maxDuration then t == st && reason == MaxDuration
      else if t == st then |st.pages| + 1 >= opts.maxPages && reason == MaxPages
      else if RobotsStop(site, opts, st).Some? then t == popped && reason == RobotsStop(site, opts, st).value
      else Allowed(site, opts, item.url) &&
           if site.answer(item.url) == LimitReached then t == popped && reason == ScanLimit
           else site.answer(item.url) == Undecodable && t == popped.(pages := st.pages + [item]) && reason == Raised
  {
    hide Consider, ConsiderAll, Skipped, Allowed;
  }

  /** A turn that goes on tells what became of its URL. */
  lemma TurnTells(site: Site, opts: CrawlOptions, st: State, elapsed: real)
    requires CrawlInv(site, opts, st) && Told0(site, opts, st) && st.queue != [] && TakeTurn(site, opts, st, elapsed).Goes?
    ensures Told0(site, opts, TakeTurn(site, opts, st, elapsed).st)
  {
    hide CrawlInv, Told0, Skipped, AfterFollowing, RoutesOk, Allowed, TakeTurn, RobotsStop;
    InvFacts(site, opts, st);
    GoingTurn(site, opts, st, elapsed);
    var item, popped := st.queue[0], PoppedState(opts, st);
    if !Allowed(site, opts, item.url) {
      SkippedTurn(site, opts, st, popped, RobotsDisallowed);
    } else if site.answer(item.url) == NoAnswer {
      SkippedTurn(site, opts, st, popped, FetchFailed);
    } else {
      KeptTurn(site, opts, st, AfterFollowing(site, opts, popped.(pages := st.pages + [item]), item));
    }
  }

  lemma FollowingExtends(site: Site, opts: CrawlOptions, kept: State, item: Item)
    ensures Extends(kept, AfterFollowing(site, opts, kept, item))
  {
    hide Consider, ConsiderAll;
    match site.answer(item.url) {
      case Redirect(To(raw)) => ConsiderExtends(site, opts, kept, raw, item.depth);
      case Document(links) => ConsiderAllExtends(site, opts, kept, links, item.depth + 1);
      case _ =>
    }
  }

  lemma TurnIsUnderway(site: Site, opts: CrawlOptions, st: State, elapsed: real)
    requires CrawlInv(site, opts, st) && st.queue != [] && 0 <= Taken(st) <= |st.found| && Underway(site, opts, st)
    requires TakeTurn(site, opts, st, elapsed).Goes?
    ensures var t := TakeTurn(site, opts, st, elapsed).st;
      && 0 <= Taken(t) == Taken(st) + 1 <= |t.found| && Underway(site, opts, t) && elapsed < opts.maxDuration
  {
    hide CrawlInv, AfterFollowing, Allowed, RoutesOk, TakeTurn;
    InvFacts(site, opts, st);
    GoingTurn(site, opts, st, elapsed);
    var item, popped := st.queue[0], PoppedState(opts, st);
    var kept := popped.(pages := st.pages + [item]);
    FollowingExtends(site, opts, kept, item);
    var t := TakeTurn(site, opts, st, elapsed).st;
    assert Taken(t) == Taken(st) + 1 && t.found[..|st.found|] == st.found;
    assert t.found[Taken(st)] == t.found[..|st.found|][Taken(st)] == item;
  }

  /** Why a crawl that left this behind stopped, where `clock(n)` is the time that had passed when turn `n` began. */
  function WhyStopped(site: Site, opts: CrawlOptions, clock: nat -> real, t: State): Reason
    requires 0 <= Taken(t) <= |t.found|
  {
    if HaltOf(site, opts, t).Some? then HaltOf(site, opts, t).value
    else if t.queue == [] then
      if exists k :: 0 <= k < |t.notes| && t.notes[k].why == BeyondDepth then MaxDepth else Complete
    else if clock(Taken(t)) >= opts.maxDuration then MaxDuration
    else MaxPages
  }

  /** What is true of every result. */
  ghost predicate Explained(site: Site, opts: CrawlOptions, clock: nat -> real, t: State, reason: Reason) {
    && 0 <= Taken(t) <= |t.found| && reason == WhyStopped(site, opts, clock, t)
    && (reason == MaxPages ==> |t.pages| + 1 >= opts.maxPages)
    && (forall n: nat :: n < Taken(t) ==> clock(n) < opts.maxDuration)
    && Ledger(site, opts, t) && NotesOnRoutes(site, t)
    && TakenAreTold(site, opts, t, if HaltOf(site, opts, t).Some? then 1 else 0)
  }

  lemma StopIsExplained(site: Site, opts: CrawlOptions, clock: nat -> real, st: State)
    requires CrawlInv(site, opts, st) && Told0(site, opts, st) && st.queue != [] && 0 <= Taken(st) <= |st.found|
    requires Underway(site, opts, st) && TakeTurn(site, opts, st, clock(Taken(st))).Stops?
    requires forall n: nat :: n < Taken(st) ==> clock(n) < opts.maxDuration
    ensures var turn := TakeTurn(site, opts, st, clock(Taken(st))); Explained(site, opts, clock, turn.st, turn.reason)
  {
    hide CrawlInv, Ledger, Allowed, RoutesOk, TakeTurn, NotesOnRoutes, TakenAreTold;
    InvFacts(site, opts, st);
    var turn := TakeTurn(site, opts, st, clock(Taken(st)));
    StoppingTurn(site, opts, st, clock(Taken(st)));
    if turn.st != st {
      HaltIs(site, opts, st, clock(Taken(st)));
      hide HaltOf, Underway, RobotsStop;
      SameBooksLedger(site, opts, st, turn.st);
      PoppedIsTold(site, opts, st, turn.st);
    } else {
      hide RobotsStop, HaltOf;
    }
  }

  lemma HaltIs(site: Site, opts: CrawlOptions, st: State, elapsed: real)
    requires CrawlInv(site, opts, st) && st.queue != [] && 0 <= Taken(st) <= |st.found| && Underway(site, opts, st)
    requires TakeTurn(site, opts, st, elapsed).Stops? && TakeTurn(site, opts, st, elapsed).st != st
    ensures var Stops(t, reason) := TakeTurn(site, opts, st, elapsed);
      && Taken(t) == Taken(st) + 1 <= |t.found| && HaltOf(site, opts, t) == Some(reason)
      && t == st.(queue := t.queue, pages := t.pages, robotsLoaded := t.robotsLoaded)
      && elapsed < opts.maxDuration
      && (t.pages == st.pages || (t.pages == st.pages + [st.queue[0]] && Fetched(site, opts, st.queue[0].url)))
  {
    hide CrawlInv, Allowed, RoutesOk, TakeTurn;
    InvFacts(site, opts, st);
    StoppingTurn(site, opts, st, elapsed);
  }

  lemma PoppedIsTold(site: Site, opts: CrawlOptions, st: State, t: State)
    requires TakenAreTold(site, opts, st, 0) && NotesOnRoutes(site, st) && 0 <= Taken(st) < |st.found|
    requires Taken(t) == Taken(st) + 1
    requires t == st.(queue := t.queue, pages := t.pages, robotsLoaded := t.robotsLoaded)
    requires t.pages == st.pages
          || (t.pages == st.pages + [st.found[Taken(st)]] && Fetched(site, opts, st.found[Taken(st)].url))
    ensures TakenAreTold(site, opts, t, 1) && NotesOnRoutes(site, t)
  {
    hide Realised, Allowed;
    forall k | 0 <= k < |t.notes| && t.notes[k].item.Some? ensures Realised(site, Urls(t.pages), t.notes[k].item.value) {
      assert Urls(st.pages) <= Urls(t.pages) by {
        assert forall j :: 0 <= j < |st.pages| ==> t.pages[j] == st.pages[j];
      }
      RealisedStays(site, Urls(st.pages), Urls(t.pages), st.notes[k].item.value);
    }
  }

  lemma NotesDecideDepth(st: State)
    requires Counted(st)
    ensures Count(st.skipped, BeyondDepth) > 0 <==> exists k :: 0 <= k < |st.notes| && st.notes[k].why == BeyondDepth
  {
    assert Count(st.skipped, BeyondDepth) == |NotesOf(st.notes, BeyondDepth)|;
    if k :| 0 <= k < |st.notes| && st.notes[k].why == BeyondDepth {
      assert k in NotesOf(st.notes, BeyondDepth);
    }
    if Count(st.skipped, BeyondDepth) > 0 {
      assert NotesOf(st.notes, BeyondDepth) != {};
      var k :| k in NotesOf(st.notes, BeyondDepth);
    }
  }

  lemma {:induction false} RunIsExplained(site: Site, opts: CrawlOptions, clock: nat -> real, st: State)
    requires CrawlInv(site, opts, st) && Told0(site, opts, st) && st.discovered <= MAX_DISCOVERED
    requires 0 <= Taken(st) <= |st.found| && Underway(site, opts, st)
    requires forall n: nat :: n < Taken(st) ==> clock(n) < opts.maxDuration
    ensures var (t, reason) := RunFrom(site, opts, clock, st, Taken(st)); Explained(site, opts, clock, t, reason)
    decreases Left(st)
  {
    hide CrawlInv, Ledger, TakenAreTold, NotesOnRoutes, Underway, HaltOf, TakeTurn;
    if st.queue == [] {
      assert Counted(st) by { LedgerCounts(site, opts, st); }
      NotesDecideDepth(st);
      assert HaltOf(site, opts, st) == None by { NothingHalts(site, opts, st); }
    } else {
      var turn := TakeTurn(site, opts, st, clock(Taken(st)));
      if turn.Stops? {
        StopIsExplained(site, opts, clock, st);
      } else {
        TurnKeeps(site, opts, st, clock(Taken(st)));
        TurnTells(site, opts, st, clock(Taken(st)));
        TurnIsUnderway(site, opts, st, clock(Taken(st)));
        TurnLowersLeft(site, opts, st, clock(Taken(st)));
        RunIsExplained(site, opts, clock, turn.st);
      }
    }
  }

  lemma LedgerCounts(site: Site, opts: CrawlOptions, st: State)
    requires Ledger(site, opts, st)
    ensures Counted(st)
  {
  }

  lemma NothingHalts(site: Site, opts: CrawlOptions, st: State)
    requires 0 <= Taken(st) <= |st.found| && Underway(site, opts, st)
    ensures HaltOf(site, opts, st) == None
  {
  }

  // --- links that could not be followed ----------------------------------------------------------------------------

  function Unfollowable(site: Site, raws: seq<Raw>): nat {
    if raws == [] then 0 else (if site.normalize(raws[0]).None? then 1 else 0) + Unfollowable(site, raws[1..])
  }

  /** The links a page offers that lead nowhere; a redirect to a malformed address is one. */
  function DeadLinks(site: Site, url: Url): nat {
    match site.answer(url)
    case Redirect(To(raw)) => Unfollowable(site, [raw])
    case Redirect(Malformed) => 1
    case Document(links) => Unfollowable(site, links)
    case _ => 0
  }

  function DeadLinksOf(site: Site, pages: seq<Item>): nat {
    if pages == [] then 0
    else DeadLinksOf(site, pages[..|pages| - 1]) + DeadLinks(site, pages[|pages| - 1].url)
  }

  predicate DeadCounted(site: Site, st: State) {
    Count(st.skipped, NotFollowable) == Unfollowable(site, site.homeLinks) + DeadLinksOf(site, st.pages)
  }

  lemma ConsiderCountsDead(site: Site, opts: CrawlOptions, st: State, raw: Raw, depth: int)
    ensures Count(Consider(site, opts, st, raw, depth).skipped, NotFollowable)
         == Count(st.skipped, NotFollowable) + if site.normalize(raw).None? then 1 else 0
    ensures Consider(site, opts, st, raw, depth).pages == st.pages
  {
  }

  lemma {:induction false} ConsiderAllCountsDead(site: Site, opts: CrawlOptions, st: State, raws: seq<Raw>, depth: int)
    ensures Count(ConsiderAll(site, opts, st, raws, depth).skipped, NotFollowable)
         == Count(st.skipped, NotFollowable) + Unfollowable(site, raws)
    ensures ConsiderAll(site, opts, st, raws, depth).pages == st.pages
    decreases raws
  {
    hide Consider, Count;
    if raws != [] {
      ConsiderCountsDead(site, opts, st, raws[0], depth);
      ConsiderAllCountsDead(site, opts, Consider(site, opts, st, raws[0], depth), raws[1..], depth);
    }
  }

  lemma FollowingCountsDead(site: Site, opts: CrawlOptions, kept: State, item: Item)
    ensures var t := AfterFollowing(site, opts, kept, item);
      && Count(t.skipped, NotFollowable) == Count(kept.skipped, NotFollowable) + DeadLinks(site, item.url)
      && t.pages == kept.pages
  {
    hide Consider, ConsiderAll;
    match site.answer(item.url) {
      case Redirect(To(raw)) =>
        ConsiderCountsDead(site, opts, kept, raw, item.depth);
        assert [raw][1..] == [] && Unfollowable(site, []) == 0;
        assert Unfollowable(site, [raw]) == if site.normalize(raw).None? then 1 else 0;
      case Document(links) => ConsiderAllCountsDead(site, opts, kept, links, item.depth + 1);
      case _ =>
    }
  }

  lemma TurnCountsDead(site: Site, opts: CrawlOptions, st: State, elapsed: real)
    requires st.queue != [] && DeadCounted(site, st)
    ensures DeadCounted(site, TakeTurn(site, opts, st, elapsed).st)
  {
    hide TakeTurn, AfterFollowing, RobotsStop, Allowed, Count, DeadLinks, Skipped, DeadLinksOf;
    var item, turn := st.queue[0], TakeTurn(site, opts, st, elapsed);
    var kept := PoppedState(opts, st).(pages := st.pages + [item]);
    OnePageMore(site, st.pages, item);
    FollowingCountsDead(site, opts, kept, item);
    PassingCountsNoDead(PoppedState(opts, st), RobotsDisallowed, item);
    PassingCountsNoDead(PoppedState(opts, st), FetchFailed, item);
    if turn.Goes? {
      GoingTurn(site, opts, st, elapsed);
    } else {
      StoppingTurn(site, opts, st, elapsed);
      if site.answer(item.url) == Undecodable {
        UndecodableHasNoDead(site, item.url);
      }
    }
  }

  lemma OnePageMore(site: Site, pages: seq<Item>, item: Item)
    ensures DeadLinksOf(site, pages + [item]) == DeadLinksOf(site, pages) + DeadLinks(site, item.url)
  {
    assert (pages + [item])[..|pages|] == pages;
  }

  lemma PassingCountsNoDead(st: State, why: Skip, item: Item)
    requires why != NotFollowable
    ensures var t := Skipped(st, why, Some(item));
      Count(t.skipped, NotFollowable) == Count(st.skipped, NotFollowable) && t.pages == st.pages
  {
  }

  lemma UndecodableHasNoDead(site: Site, url: Url)
    requires site.answer(url) == Undecodable
    ensures DeadLinks(site, url) == 0
  {
  }

  lemma {:induction false} RunCountsDead(site: Site, opts: CrawlOptions, clock: nat -> real, st: State, n: nat)
    requires DeadCounted(site, st) && st.discovered <= MAX_DISCOVERED
    ensures DeadCounted(site, RunFrom(site, opts, clock, st, n).0)
    decreases Left(st)
  {
    hide TakeTurn, DeadCounted;
    if st.queue != [] {
      TurnCountsDead(site, opts, st, clock(n));
      if TakeTurn(site, opts, st, clock(n)).Goes? {
        TurnLowersLeft(site, opts, st, clock(n));
        RunCountsDead(site, opts, clock, TakeTurn(site, opts, st, clock(n)).st, n + 1);
      }
    }
  }

  /** Links that cannot be followed are counted once for each time they stand on the home page or a fetched page. */
  lemma DeadLinksAreCounted(site: Site, opts: CrawlOptions, clock: nat -> real)
    ensures var t := Run(site, opts, clock).0;
      Count(t.skipped, NotFollowable) == Unfollowable(site, site.homeLinks) + DeadLinksOf(site, t.pages)
  {
    ConsiderAllCountsDead(site, opts, Blank(site), site.homeLinks, 1);
    StartFits(site, opts);
    RunCountsDead(site, opts, clock, Start(site, opts), 0);
  }

  // --- the theorems ------------------------------------------------------------------------------------------------

  lemma BlankIsTold(site: Site, opts: CrawlOptions)
    ensures Ledger(site, opts, Blank(site)) && NotesOnRoutes(site, Blank(site))
  {
    forall why ensures Count(Blank(site).skipped, why) == |NotesOf(Blank(site).notes, why)| {
      assert NotesOf([], why) == {};
    }
    assert Urls([]) == {} && RefusedUrls([]) == {};
    forall path ensures Known(Blank(site), path) == QueriesOn(site, [], path) {
    }
  }

  lemma StartKeepsLedger(site: Site, opts: CrawlOptions)
    ensures var st := Start(site, opts);
      Ledger(site, opts, st) && NotesOnRoutes(site, st) && Extends(Blank(site), st) && st.discovered == |st.found|
  {
    var st := Blank(site);
    BlankIsTold(site, opts);
    BlankIsGood(site, opts);
    assert forall raw :: raw in site.homeLinks ==> raw in Offers(site, site.home);
    assert StepCost(site, site.home) == 1;
    hide Ledger, NotesOnRoutes, Source, Offers, Extends, ConsiderAll, StepCost, Books, RoutesOk;
    ConsiderAllKeepsLedger(site, opts, st, site.homeLinks, 1);
    ConsiderAllKeepsRoutedNotes(site, opts, st, Item(site.home, 0), site.homeLinks, 1);
    ConsiderAllExtends(site, opts, st, site.homeLinks, 1);
  }

  lemma StartIsTold(site: Site, opts: CrawlOptions)
    ensures var st := Start(site, opts); Told0(site, opts, st) && 0 == Taken(st) <= |st.found| && Underway(site, opts, st)
  {
    hide Ledger, NotesOnRoutes, Start, Told;
    StartKeepsLedger(site, opts);
    BlankTakesNothing(site);
  }

  lemma BlankTakesNothing(site: Site)
    ensures Taken(Blank(site)) == 0 && Blank(site).pages == [] && !Blank(site).robotsLoaded
  {
  }

  lemma CrawlIsExplained(site: Site, opts: CrawlOptions, clock: nat -> real)
    requires opts.Valid()
    ensures var (t, reason) := Run(site, opts, clock); Explained(site, opts, clock, t, reason)
  {
    hide CrawlInv, Told0, Underway, Explained, Start;
    ConsiderAllKeepsLeft(site, opts, Blank(site), site.homeLinks, 1);
    StartIsGood(site, opts);
    StartIsTold(site, opts);
    assert Start(site, opts).discovered <= MAX_DISCOVERED by { InvFacts(site, opts, Start(site, opts)); StartFits(site, opts); }
    RunIsExplained(site, opts, clock, Start(site, opts));
  }

  lemma StartFits(site: Site, opts: CrawlOptions)
    ensures Start(site, opts).discovered <= MAX_DISCOVERED
  {
    ConsiderAllKeepsLeft(site, opts, Blank(site), site.homeLinks, 1);
  }

  /**
   * The counts exactly. Each counter is the number of notes of its kind, each note carries the first reason that applies
   * to its URL, a URL counted when it was met lies at the end of a route of that cost, and every URL met was queued or
   * noted.
   */
  lemma CountsAreExplained(site: Site, opts: CrawlOptions, clock: nat -> real)
    requires opts.Valid()
    ensures var t := Run(site, opts, clock).0;
      && (forall why :: Count(t.skipped, why) == |NotesOf(t.notes, why)|)
      && (forall k :: 0 <= k < |t.notes| ==> Justified(site, opts, t.found, t.notes[k]))
      && (forall k :: 0 <= k < |t.notes| && t.notes[k].item.Some? ==>
            Realised(site, Urls(t.pages), t.notes[k].item.value))
      && t.seen == {site.home} + Urls(t.found) + RefusedUrls(t.notes)
  {
    CrawlIsExplained(site, opts, clock);
    hide Run, Justified, Realised, NotesOf, RefusedUrls, TakenAreTold, VariantsExact, WhyStopped;
  }

  /**
   * The stop reason exactly: the last URL taken, or robots.txt, if that stops a crawl; else, with an empty queue, the
   * depth if a URL was met beyond it; else the time if it was over when the next turn began; else the number of pages.
   * No turn began after the time was over.
   */
  lemma StopIsWhatItSays(site: Site, opts: CrawlOptions, clock: nat -> real)
    requires opts.Valid()
    ensures var (t, reason) := Run(site, opts, clock);
      && 0 <= Taken(t) <= |t.found| && reason == WhyStopped(site, opts, clock, t)
      && (reason == MaxPages ==> |t.pages| + 1 == opts.maxPages)
      && (forall n: nat :: n < Taken(t) ==> clock(n) < opts.maxDuration)
  {
    CrawlIsExplained(site, opts, clock);
    NothingIsUnaccounted(site, opts, clock);
    hide Run, Ledger, NotesOnRoutes, TakenAreTold, WhyStopped;
  }

  /** Every URL taken, but for the one that stopped the crawl, is a page, or was disallowed, or gave no answer. */
  lemma TakenUrlsAreTold(site: Site, opts: CrawlOptions, clock: nat -> real, i: nat)
    requires opts.Valid()
    requires var t := Run(site, opts, clock).0;
      0 <= Taken(t) <= |t.found| && i < Taken(t) && (HaltOf(site, opts, t).Some? ==> i < Taken(t) - 1)
    ensures var t := Run(site, opts, clock).0; var url := t.found[i].url;
      && (t.found[i] in t.pages <==> Allowed(site, opts, url) && site.answer(url) != NoAnswer)
      && (!Allowed(site, opts, url) ==> Note(Some(t.found[i]), RobotsDisallowed) in t.notes)
      && (Allowed(site, opts, url) && site.answer(url) == NoAnswer ==> Note(Some(t.found[i]), FetchFailed) in t.notes)
  {
    CrawlIsExplained(site, opts, clock);
    var t := Run(site, opts, clock).0;
    hide Run, Ledger, NotesOnRoutes, WhyStopped, Allowed;
    assert Told(site, opts, t.pages, t.notes, t.found[i]);
    if t.found[i] in t.pages {
      var k :| 0 <= k < |t.pages| && t.pages[k] == t.found[i];
      assert Fetched(site, opts, t.pages[k].url);
    }
  }

  /** A crawl that says it was cut off by its depth met a URL of this origin, at the end of a route longer than allowed. */
  lemma CutOffByDepth(site: Site, opts: CrawlOptions, clock: nat -> real)
    requires opts.Valid() && Run(site, opts, clock).1 == MaxDepth
    ensures var t := Run(site, opts, clock).0;
      exists item: Item :: (Note(Some(item), BeyondDepth) in t.notes && SameOrigin(site, item.url)
                            && item.depth > opts.maxDepth && Realised(site, Urls(t.pages), item))
  {
    StopIsWhatItSays(site, opts, clock);
    CountsAreExplained(site, opts, clock);
    var t := Run(site, opts, clock).0;
    hide Run, Realised, NotesOf, RefusedUrls;
    assert HaltOf(site, opts, t) == None;
    var k :| 0 <= k < |t.notes| && t.notes[k].why == BeyondDepth;
    assert Justified(site, opts, t.found, t.notes[k]);
    var item := t.notes[k].item.value;
    assert t.notes[k] == Note(Some(item), BeyondDepth) && t.notes[k] in t.notes;
  }

  /** On a site that excludes nothing, no URL is counted as excluded. */
  lemma NothingExcluded(site: Site, opts: CrawlOptions, clock: nat -> real)
    requires opts.Valid() && forall u :: !site.excluded(u)
    ensures Count(Run(site, opts, clock).0.skipped, Excluded) == 0
  {
    CountsAreExplained(site, opts, clock);
    var t := Run(site, opts, clock).0;
    hide Run, Realised, RefusedUrls;
    forall k | 0 <= k < |t.notes| ensures t.notes[k].why != Excluded {
      assert Justified(site, opts, t.found, t.notes[k]);
    }
    assert NotesOf(t.notes, Excluded) == {};
  }

  /** What can keep a URL of the origin out of a crawl that ran to its end within its depth. */
  predicate LeftOut(site: Site, opts: CrawlOptions, t: State, v: Url) {
    || site.excluded(v) || PathIsFull(site, t.found, v) || |t.found| >= 5000
    || !Allowed(site, opts, v) || site.answer(v) == NoAnswer
  }

  lemma MetIsTold(site: Site, opts: CrawlOptions, t: State, v: Url)
    requires AllJustified(site, opts, t) && SeenIsTold(site, t) && v in t.seen && SameOrigin(site, v)
    requires forall k :: 0 <= k < |t.notes| ==> t.notes[k].why != BeyondDepth
    ensures v == site.home || v in Urls(t.found) || site.excluded(v) || PathIsFull(site, t.found, v) || |t.found| >= 5000
  {
    if v in RefusedUrls(t.notes) {
      var k :| 0 <= k < |t.notes| && t.notes[k].item.Some? && t.notes[k].why != RobotsDisallowed
        && t.notes[k].why != FetchFailed && t.notes[k].item.value.url == v;
      hide QueriesOn, PathIsFull;
      assert Justified(site, opts, t.found, t.notes[k]);
    }
  }

  /**
   * Complete means complete: the links and redirects of the home page and of the pages lead, within the origin, to
   * nothing but these again and to URLs that are excluded, disallowed, unanswered, or over one of the two limits on
   * queueing. None was beyond the depth.
   */
  lemma CompleteMissesNothing(site: Site, opts: CrawlOptions, clock: nat -> real, u: Url, v: Url)
    requires opts.Valid() && Run(site, opts, clock).1 == Complete
    requires var t := Run(site, opts, clock).0;
      (u == site.home || u in Urls(t.pages)) && Leads(site, u, v) && SameOrigin(site, v)
    ensures var t := Run(site, opts, clock).0; v == site.home || v in Urls(t.pages) || LeftOut(site, opts, t, v)
  {
    CrawlIsExplained(site, opts, clock);
    CrawlIsFinal(site, opts, clock);
    hide Run, Explained, Final, Leads, LeftOut;
    MissesNothing(site, opts, clock, Run(site, opts, clock).0, u, v);
  }

  lemma CompleteFacts(site: Site, opts: CrawlOptions, clock: nat -> real, t: State)
    requires Explained(site, opts, clock, t, Complete)
    ensures AllJustified(site, opts, t) && SeenIsTold(site, t) && t.queue == [] && TakenAreTold(site, opts, t, 0)
    ensures forall k :: 0 <= k < |t.notes| ==> t.notes[k].why != BeyondDepth
  {
    hide AllJustified, SeenIsTold, TakenAreTold, NotesOnRoutes, VariantsExact, Allowed;
    assert HaltOf(site, opts, t) == None;
  }

  lemma MissesNothing(site: Site, opts: CrawlOptions, clock: nat -> real, t: State, u: Url, v: Url)
    requires Explained(site, opts, clock, t, Complete) && Final(site, opts, t, Complete)
    requires (u == site.home || u in Urls(t.pages)) && Leads(site, u, v) && SameOrigin(site, v)
    ensures v == site.home || v in Urls(t.pages) || LeftOut(site, opts, t, v)
  {
    hide Explained, Final, Leads, AllFollowed, SeenExplained, PagesOk, AllJustified, SeenIsTold, TakenAreTold, Urls,
      PathIsFull, Allowed;
    CompleteFacts(site, opts, clock, t);
    FinalFacts(site, opts, t, Complete);
    SeenWhenFollowed(site, t, u, v);
    MetIsTold(site, opts, t, v);
    if v in Urls(t.found) {
      FoundIsTold(site, opts, t, v);
    }
  }

  lemma FoundIsTold(site: Site, opts: CrawlOptions, t: State, v: Url)
    requires t.queue == [] && TakenAreTold(site, opts, t, 0) && v in Urls(t.found)
    ensures v in Urls(t.pages) || !Allowed(site, opts, v) || site.answer(v) == NoAnswer
  {
    hide Allowed;
    var i :| 0 <= i < |t.found| && t.found[i].url == v;
    assert Told(site, opts, t.pages, t.notes, t.found[i]);
    if t.found[i] in t.pages {
      var k :| 0 <= k < |t.pages| && t.pages[k] == t.found[i];
      assert t.pages[k].url == v;
    }
  }
}
