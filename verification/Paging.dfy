/**
 * Keyset paging of the client and scan listings. A key is the number of an id (the order of ids is the order of their
 * numbers, `Ulid.OrderIsNumeric`); the keys of a listing are those of the rows that its filter lets through. Clients
 * are listed upwards, scans downwards.
 */
module Paging {
  import opened Options
  import opened OrderedKeys

  datatype Page = Page(items: seq<nat>, next: Option<nat>)

  predicate Past(desc: bool, cursor: Option<nat>, key: nat) {
    cursor.None? || Before(desc, cursor.value, key)
  }

  function Rest(keys: set<nat>, desc: bool, cursor: Option<nat>): set<nat> {
    set k | k in keys && Past(desc, cursor, k)
  }

  function Upto(rows: seq<nat>, limit: nat): seq<nat> {
    if |rows| <= limit then rows else rows[..limit]
  }

  /** What the repository returns: one row more than the page, when there is one. */
  function Rows(keys: set<nat>, desc: bool, cursor: Option<nat>, limit: nat): seq<nat> {
    Upto(Listing(Rest(keys, desc, cursor), desc), limit + 1)
  }

  /** One request: the page, and the cursor of the next one if there is more. */
  function PageOf(keys: set<nat>, desc: bool, cursor: Option<nat>, limit: nat): Page
    requires limit > 0
  {
    var rows := Rows(keys, desc, cursor, limit);
    var items := Upto(rows, limit);
    Page(items, if |rows| > limit then Some(items[|items| - 1]) else None)
  }

  // --- one page ------------------------------------------------------------------------------------------------------

  /** A page is the next keys in order; it names a cursor exactly when keys are left, and then its own last key. */
  lemma PageIsNext(keys: set<nat>, desc: bool, cursor: Option<nat>, limit: nat)
    requires limit > 0
    ensures var page := PageOf(keys, desc, cursor, limit); var rest := Rest(keys, desc, cursor);
      && Ordered(desc, page.items) && (forall k :: k in page.items ==> k in rest) && |page.items| <= limit
      && (page.next.None? <==> |rest| <= limit)
      && (page.next.None? ==> forall k :: k in rest ==> k in page.items)
      && (page.next.Some? ==> |page.items| == limit && page.next.value == page.items[limit - 1])
      && (page.next.Some? ==> forall k :: k in rest ==> (k in page.items <==> !Before(desc, page.next.value, k)))
  {
    var rest := Rest(keys, desc, cursor);
    var all := Listing(rest, desc);
    hide Listing, Rest;
    if |all| > limit {
      assert PageOf(keys, desc, cursor, limit).items == all[..limit];
      FrontOfListing(all, desc, limit);
    }
  }

  lemma FrontOfListing(all: seq<nat>, desc: bool, limit: nat)
    requires Ordered(desc, all) && 0 < limit < |all|
    ensures Ordered(desc, all[..limit])
    ensures forall k :: k in all ==> (k in all[..limit] <==> !Before(desc, all[limit - 1], k))
  {
    forall k | k in all ensures k in all[..limit] <==> !Before(desc, all[limit - 1], k) {
      var i :| 0 <= i < |all| && all[i] == k;
      if i < limit {
        assert all[..limit][i] == k;
        assert i < limit - 1 ==> Before(desc, all[i], all[limit - 1]);
      } else {
        assert Before(desc, all[limit - 1], all[i]);
        forall j | 0 <= j < limit ensures all[j] != k {
          assert Before(desc, all[j], all[i]);
        }
      }
    }
  }

  // --- all pages -----------------------------------------------------------------------------------------------------

  lemma RestShrinks(keys: set<nat>, desc: bool, cursor: Option<nat>, limit: nat)
    requires limit > 0 && PageOf(keys, desc, cursor, limit).next.Some?
    ensures Rest(keys, desc, PageOf(keys, desc, cursor, limit).next) < Rest(keys, desc, cursor)
  {
    PageIsNext(keys, desc, cursor, limit);
    var next := PageOf(keys, desc, cursor, limit).next.value;
    hide PageOf;
    assert next in Rest(keys, desc, cursor) && next !in Rest(keys, desc, Some(next));
  }

  /** Following `next_cursor` to the end while nothing changes. */
  function AllPages(keys: set<nat>, desc: bool, cursor: Option<nat>, limit: nat): seq<nat>
    requires limit > 0
    decreases Rest(keys, desc, cursor)
  {
    var page := PageOf(keys, desc, cursor, limit);
    if page.next.None? then page.items
    else
      RestShrinks(keys, desc, cursor, limit);
      page.items + AllPages(keys, desc, page.next, limit)
  }

  lemma AllPagesStep(keys: set<nat>, desc: bool, cursor: Option<nat>, limit: nat, k: nat)
    requires limit > 0
    ensures var page := PageOf(keys, desc, cursor, limit);
      k in AllPages(keys, desc, cursor, limit)
      <==> k in page.items || (page.next.Some? && k in AllPages(keys, desc, page.next, limit))
  {
    hide PageOf;
  }

  lemma {:induction false} AllPagesHold(keys: set<nat>, desc: bool, cursor: Option<nat>, limit: nat, k: nat)
    requires limit > 0
    ensures k in AllPages(keys, desc, cursor, limit) <==> k in Rest(keys, desc, cursor)
    decreases Rest(keys, desc, cursor)
  {
    var page := PageOf(keys, desc, cursor, limit);
    AllPagesStep(keys, desc, cursor, limit, k);
    PageIsNext(keys, desc, cursor, limit);
    hide PageOf, AllPages;
    if page.next.Some? {
      RestShrinks(keys, desc, cursor, limit);
      AllPagesHold(keys, desc, page.next, limit, k);
    }
  }

  lemma {:induction false} AllPagesAreOrdered(keys: set<nat>, desc: bool, cursor: Option<nat>, limit: nat)
    requires limit > 0
    ensures Ordered(desc, AllPages(keys, desc, cursor, limit))
    decreases Rest(keys, desc, cursor)
  {
    var page := PageOf(keys, desc, cursor, limit);
    PageIsNext(keys, desc, cursor, limit);
    hide PageOf;
    if page.next.Some? {
      RestShrinks(keys, desc, cursor, limit);
      AllPagesAreOrdered(keys, desc, page.next, limit);
      var more := AllPages(keys, desc, page.next, limit);
      forall k | k in more ensures Before(desc, page.next.value, k) {
        AllPagesHold(keys, desc, page.next, limit, k);
      }
      hide AllPages;
      OrderedAppend(desc, page.items, more);
    }
  }

  lemma OrderedAppend(desc: bool, a: seq<nat>, b: seq<nat>)
    requires Ordered(desc, a) && Ordered(desc, b) && a != []
    requires forall k :: k in b ==> Before(desc, a[|a| - 1], k)
    ensures Ordered(desc, a + b)
  {
    forall i, j | 0 <= i < j < |a + b| ensures Before(desc, (a + b)[i], (a + b)[j]) {
      if i < |a| <= j {
        assert b[j - |a|] in b;
        assert i < |a| - 1 ==> Before(desc, a[i], a[|a| - 1]);
      }
    }
  }

  /** The pages one after the other are the whole listing, each row once. */
  lemma PagesAreTheListing(keys: set<nat>, desc: bool, limit: nat)
    requires limit > 0
    ensures AllPages(keys, desc, None, limit) == Listing(keys, desc)
  {
    hide AllPages, Listing;
    AllPagesAreOrdered(keys, desc, None, limit);
    forall k: nat ensures k in AllPages(keys, desc, None, limit) <==> k in Listing(keys, desc) {
      AllPagesHold(keys, desc, None, limit, k);
    }
    OrderedListingIsUnique(desc, AllPages(keys, desc, None, limit), Listing(keys, desc));
  }

  // --- pages while the table changes -------------------------------------------------------------------------------

  /** The items of page after page when `tables[n]` holds the keys at the time of request `n`. */
  function Browse(tables: seq<set<nat>>, desc: bool, cursor: Option<nat>, limit: nat): seq<nat>
    requires limit > 0
    decreases tables
  {
    if tables == [] then []
    else
      var page := PageOf(tables[0], desc, cursor, limit);
      page.items + if page.next.None? then [] else Browse(tables[1..], desc, page.next, limit)
  }

  /** The requests went on until there was no next page. */
  predicate ReachesEnd(tables: seq<set<nat>>, desc: bool, cursor: Option<nat>, limit: nat)
    requires limit > 0
    decreases tables
  {
    tables != []
    && var page := PageOf(tables[0], desc, cursor, limit);
       page.next.None? || ReachesEnd(tables[1..], desc, page.next, limit)
  }

  lemma {:induction false} BrowseIsOrdered(tables: seq<set<nat>>, desc: bool, cursor: Option<nat>, limit: nat)
    requires limit > 0
    ensures Ordered(desc, Browse(tables, desc, cursor, limit))
    ensures forall k :: k in Browse(tables, desc, cursor, limit) ==> Past(desc, cursor, k)
    decreases tables
  {
    if tables != [] {
      var page := PageOf(tables[0], desc, cursor, limit);
      PageIsNext(tables[0], desc, cursor, limit);
      hide PageOf;
      if page.next.Some? {
        BrowseIsOrdered(tables[1..], desc, page.next, limit);
        OrderedAppend(desc, page.items, Browse(tables[1..], desc, page.next, limit));
        assert page.next.value in page.items;
      }
    }
  }

  lemma ItemIsThere(keys: set<nat>, desc: bool, cursor: Option<nat>, limit: nat, k: nat)
    requires limit > 0 && k in PageOf(keys, desc, cursor, limit).items
    ensures k in keys
  {
    PageIsNext(keys, desc, cursor, limit);
  }

  lemma BrowsedSomewhere(tables: seq<set<nat>>, desc: bool, cursor: Option<nat>, limit: nat, k: nat)
    requires limit > 0 && k in Browse(tables, desc, cursor, limit)
    ensures tables != []
    ensures var page := PageOf(tables[0], desc, cursor, limit);
      k in page.items || (page.next.Some? && k in Browse(tables[1..], desc, page.next, limit))
  {
    hide PageOf;
  }

  lemma {:induction false} BrowseWasThere(tables: seq<set<nat>>, desc: bool, cursor: Option<nat>, limit: nat, k: nat)
    returns (n: nat)
    requires limit > 0 && k in Browse(tables, desc, cursor, limit)
    ensures n < |tables| && k in tables[n]
    decreases tables
  {
    hide PageOf, Browse;
    BrowsedSomewhere(tables, desc, cursor, limit, k);
    var page := PageOf(tables[0], desc, cursor, limit);
    if k in page.items {
      ItemIsThere(tables[0], desc, cursor, limit, k);
      n := 0;
    } else {
      var m := BrowseWasThere(tables[1..], desc, page.next, limit, k);
      n := m + 1;
    }
  }

  lemma {:induction false} BrowseMissesNothing(tables: seq<set<nat>>, desc: bool, cursor: Option<nat>, limit: nat, k: nat)
    requires limit > 0 && ReachesEnd(tables, desc, cursor, limit) && Past(desc, cursor, k)
    requires forall n :: 0 <= n < |tables| ==> k in tables[n]
    ensures k in Browse(tables, desc, cursor, limit)
    decreases tables
  {
    var page := PageOf(tables[0], desc, cursor, limit);
    PageIsNext(tables[0], desc, cursor, limit);
    hide PageOf;
    assert k in Rest(tables[0], desc, cursor);
    if k !in page.items {
      BrowseMissesNothing(tables[1..], desc, page.next, limit, k);
    }
  }

  /**
   * However rows come and go between two pages, no row is listed twice or out of order, only rows that were there are
   * listed, and a row that is there all the time is listed once the end is reached.
   */
  lemma BrowsingIsStable(tables: seq<set<nat>>, desc: bool, limit: nat)
    requires limit > 0
    ensures var seen := Browse(tables, desc, None, limit);
      && Ordered(desc, seen)
      && (forall k :: k in seen ==> exists n :: 0 <= n < |tables| && k in tables[n])
      && (ReachesEnd(tables, desc, None, limit) ==> (
            forall k :: (forall n :: 0 <= n < |tables| ==> k in tables[n]) ==> k in seen))
  {
    var seen := Browse(tables, desc, None, limit);
    BrowseIsOrdered(tables, desc, None, limit);
    hide Browse, ReachesEnd;
    forall k | k in seen ensures exists n :: 0 <= n < |tables| && k in tables[n] {
      var n := BrowseWasThere(tables, desc, None, limit, k);
    }
    if ReachesEnd(tables, desc, None, limit) {
      forall k: nat | forall n :: 0 <= n < |tables| ==> k in tables[n] ensures k in seen {
        BrowseMissesNothing(tables, desc, None, limit, k);
      }
    }
  }
}
