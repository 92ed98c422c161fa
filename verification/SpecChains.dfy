/** A chain of references on its own, without budgets, and when `follow` reaches its end. */
module SpecChains {
  import opened Options
  import opened JsonPointer
  import opened SpecRefs

  /** The value at a place, if its file can be loaded and the pointer leads somewhere. */
  function SpotAt(world: World, place: Place): Option<Spot> {
    if !Loadable(world.disk(place.file)) then None
    else match Walk(world.unquote, world.disk(place.file).value, place.pointer)
      case None => None
      case Some(node) => Some(Spot(node, place.file))
  }

  function PlaceOf(world: World, spot: Spot): Option<Place> {
    if IsRef(spot.node) then Locate(world, RefOf(spot.node), spot.base) else None
  }

  function Hop(world: World, spot: Spot): Option<Spot> {
    match PlaceOf(world, spot)
    case None => None
    case Some(place) => SpotAt(world, place)
  }

  /** After exactly `k` references the chain is at a value that is not a reference. */
  predicate Ends(world: World, spot: Spot, k: nat, end: Spot)
    decreases k
  {
    if k == 0 then !IsRef(spot.node) && end == spot
    else Hop(world, spot).Some? && Ends(world, Hop(world, spot).value, k - 1, end)
  }

  /** The files that the first `k` references need and that are not there yet, in order. */
  function NewFiles(world: World, spot: Spot, have: set<File>, k: nat): seq<File>
    decreases k
  {
    if k == 0 || Hop(world, spot).None? then []
    else
      var file, next := PlaceOf(world, spot).value.file, Hop(world, spot).value;
      if file in have then NewFiles(world, next, have, k - 1)
      else [file] + NewFiles(world, next, have + {file}, k - 1)
  }

  /** What is left covers `k` references and these files. */
  predicate Covers(world: World, b: Budget, k: nat, more: seq<File>) {
    && b.refs + k <= MAX_REFS && b.included + |more| <= MAX_FILES
    && (more == [] || Bytes(world, more) <= b.bytesLeft)
  }

  /** What is left is enough for a chain of `k` references. */
  predicate Enough(world: World, b: Budget, spot: Spot, k: nat) {
    Covers(world, b, k, NewFiles(world, spot, b.files.Keys, k))
  }

  // --- one reference -----------------------------------------------------------------------------------------------

  /** The cost of getting one document, when it can be had. */
  predicate CanGet(world: World, b: Budget, file: File) {
    file in b.files || (b.included < MAX_FILES && Loadable(world.disk(file)) && world.disk(file).size <= b.bytesLeft)
  }

  lemma GetDocumentExactly(world: World, b: Budget, file: File)
    requires FilesOk(world, b)
    ensures var (after, value) := GetDocument(world, b, file);
      && (value.Some? <==> CanGet(world, b, file))
      && (value.Some? ==> Loadable(world.disk(file)) && value.value == world.disk(file).value)
      && (value.Some? && file in b.files ==> after == b)
      && (value.Some? && file !in b.files ==> (
            after.files.Keys == b.files.Keys + {file} && after.refs == b.refs && after.included == b.included + 1
            && after.bytesLeft == b.bytesLeft - world.disk(file).size))
  {
  }

  /** One reference is followed exactly when it can be: it leads somewhere, not back, and there is enough left. */
  lemma FollowOneExactly(world: World, b: Budget, spot: Spot, seen: set<Place>)
    requires FilesOk(world, b) && IsRef(spot.node)
    ensures var (after, step) := FollowOne(world, b, spot.node, spot.base, seen); var place := PlaceOf(world, spot);
      && (step.Some? <==> (
            b.refs < MAX_REFS && Hop(world, spot).Some? && place.value !in seen && CanGet(world, b, place.value.file)))
      && (step.Some? ==> step.value == (Hop(world, spot).value, place.value))
  {
    var kept := b.(refs := b.refs + 1, followed := b.followed + 1);
    var place := PlaceOf(world, spot);
    hide GetDocument, Walk, Locate, RefOf;
    if place.Some? {
      GetDocumentExactly(world, kept, place.value.file);
    }
  }

  /** What is left after one reference was followed. */
  ghost predicate Spent(world: World, b: Budget, after: Budget, spot: Spot) {
    && Hop(world, spot).Some? && after.refs == b.refs + 1
    && var file := PlaceOf(world, spot).value.file;
       if file in b.files then after.files == b.files && after.included == b.included && after.bytesLeft == b.bytesLeft
       else
         && after.files.Keys == b.files.Keys + {file} && after.included == b.included + 1
         && after.bytesLeft == b.bytesLeft - SizeOf(world.disk(file))
  }

  lemma CostOfOne(world: World, b: Budget, spot: Spot, seen: set<Place>)
    requires FilesOk(world, b) && IsRef(spot.node)
    requires FollowOne(world, b, spot.node, spot.base, seen).1.Some?
    ensures Spent(world, b, FollowOne(world, b, spot.node, spot.base, seen).0, spot)
  {
    FollowOneExactly(world, b, spot, seen);
    var kept := b.(refs := b.refs + 1, followed := b.followed + 1);
    hide GetDocument, Walk, Locate, RefOf, Hop;
    GetDocumentExactly(world, kept, PlaceOf(world, spot).value.file);
  }

  /** The files a chain needs are the file of its first reference, if it is not there yet, and those of the rest. */
  lemma NewFilesStep(world: World, spot: Spot, have: set<File>, k: nat)
    requires k > 0 && Hop(world, spot).Some? && PlaceOf(world, spot).Some?
    ensures var file, next := PlaceOf(world, spot).value.file, Hop(world, spot).value;
      NewFiles(world, spot, have, k)
      == if file in have then NewFiles(world, next, have, k - 1)
         else [file] + NewFiles(world, next, have + {file}, k - 1)
  {
    hide PlaceOf, Hop;
  }

  lemma OneMoreFile(world: World, file: File, more: seq<File>)
    ensures Bytes(world, [file] + more) == SizeOf(world.disk(file)) + Bytes(world, more)
  {
    assert ([file] + more)[1..] == more;
  }

  /** Enough for the chain is: enough for its first reference, and then enough for the rest. */
  lemma EnoughForOneAndRest(world: World, b: Budget, after: Budget, spot: Spot, k: nat)
    requires k > 0 && Spent(world, b, after, spot) && CanGet(world, b, PlaceOf(world, spot).value.file)
    ensures Enough(world, b, spot, k) <==> Enough(world, after, Hop(world, spot).value, k - 1)
  {
    PlaceOfHop(world, spot);
    hide PlaceOf, Hop, NewFiles, Bytes;
    var file, next := PlaceOf(world, spot).value.file, Hop(world, spot).value;
    var more := NewFiles(world, next, after.files.Keys, k - 1);
    NewFilesStep(world, spot, b.files.Keys, k);
    if file in b.files {
      assert NewFiles(world, spot, b.files.Keys, k) == more;
    } else {
      assert NewFiles(world, spot, b.files.Keys, k) == [file] + more;
      OneMoreFile(world, file, more);
    }
  }

  lemma PlaceOfHop(world: World, spot: Spot)
    requires Hop(world, spot).Some?
    ensures IsRef(spot.node) && PlaceOf(world, spot).Some? && SpotAt(world, PlaceOf(world, spot).value) == Hop(world, spot)
  {
  }

  /** All there is to know about one reference that was followed. */
  lemma OneFollowed(world: World, b: Budget, spot: Spot, seen: set<Place>)
    requires BudgetOk(world, b) && spot.base in b.files && IsRef(spot.node)
    requires FollowOne(world, b, spot.node, spot.base, seen).1.Some?
    ensures var (after, step) := FollowOne(world, b, spot.node, spot.base, seen);
      && Spent(world, b, after, spot) && BudgetOk(world, after) && step.value.0.base in after.files
      && step.value.0 == Hop(world, spot).value && step.value.1 == PlaceOf(world, spot).value
      && CanGet(world, b, step.value.1.file) && after.refs <= MAX_REFS
    ensures Hop(world, spot).Some? && PlaceOf(world, spot).Some?
  {
    FollowOneExactly(world, b, spot, seen);
    CostOfOne(world, b, spot, seen);
    FollowOneKeeps(world, b, spot, seen);
    hide FollowOne, CanGet, FilesOk, LimitsOk, Hop, PlaceOf;
  }

  lemma EnoughForOne(world: World, b: Budget, spot: Spot, k: nat)
    requires k > 0 && Enough(world, b, spot, k) && Hop(world, spot).Some?
    ensures b.refs < MAX_REFS && CanGet(world, b, PlaceOf(world, spot).value.file)
  {
    var file := PlaceOf(world, spot).value.file;
    if file !in b.files {
      assert NewFiles(world, spot, b.files.Keys, k)[0] == file;
    }
  }

  // --- a chain that ends never comes back ---------------------------------------------------------------------------

  lemma {:induction false} EndIsUnique(world: World, spot: Spot, k: nat, end: Spot, m: nat, other: Spot)
    requires Ends(world, spot, k, end) && Ends(world, spot, m, other)
    ensures k == m && end == other
    decreases k
  {
    if k > 0 && m > 0 {
      EndIsUnique(world, Hop(world, spot).value, k - 1, end, m - 1, other);
    }
  }

  /** The places the first `k` references lead to. */
  function Places(world: World, spot: Spot, k: nat): set<Place>
    decreases k
  {
    if k == 0 || Hop(world, spot).None? then {}
    else {PlaceOf(world, spot).value} + Places(world, Hop(world, spot).value, k - 1)
  }

  /** From each place on its way, a chain is nearer its end. */
  lemma {:induction false} EndsFromPlace(world: World, spot: Spot, k: nat, end: Spot, place: Place) returns (m: nat)
    requires Ends(world, spot, k, end) && place in Places(world, spot, k)
    ensures m < k && SpotAt(world, place).Some? && Ends(world, SpotAt(world, place).value, m, end)
    decreases k
  {
    if place == PlaceOf(world, spot).value {
      m := k - 1;
    } else {
      m := EndsFromPlace(world, Hop(world, spot).value, k - 1, end, place);
    }
  }

  lemma FirstPlaceIsNew(world: World, spot: Spot, k: nat, end: Spot)
    requires Ends(world, spot, k, end) && k > 0
    ensures PlaceOf(world, spot).value !in Places(world, Hop(world, spot).value, k - 1)
  {
    var first, next := PlaceOf(world, spot).value, Hop(world, spot).value;
    if first in Places(world, next, k - 1) {
      var m := EndsFromPlace(world, next, k - 1, end, first);
      hide Ends;
      EndIsUnique(world, next, k - 1, end, m, end);
    }
  }

  // --- exactness ---------------------------------------------------------------------------------------------------

  lemma {:induction false} ReachesEnd(world: World, b: Budget, spot: Spot, seen: set<Place>, hops: nat, k: nat, end: Spot)
    requires BudgetOk(world, b) && spot.base in b.files && hops + k <= MAX_REF_DEPTH
    requires Ends(world, spot, k, end) && Enough(world, b, spot, k) && seen !! Places(world, spot, k)
    ensures FollowFrom(world, b, spot, seen, hops).1 == Some(end)
    decreases k
  {
    hide FollowFrom, FollowOne, Ends, Enough, CanGet, PlaceOf, Hop, BudgetOk, FilesOk, Spent, Places;
    if k == 0 {
      NoHopsLeft(world, b, spot, seen, hops, end);
    } else {
      HopIsFollowed(world, b, spot, seen, k, end);
      var place, next := PlaceOf(world, spot).value, Hop(world, spot).value;
      FollowFromStep(world, b, spot, seen, hops);
      var after := FollowOne(world, b, spot.node, spot.base, seen).0;
      ReachesEnd(world, after, next, seen + {place}, hops + 1, k - 1, end);
    }
  }

  lemma NoHopsLeft(world: World, b: Budget, spot: Spot, seen: set<Place>, hops: nat, end: Spot)
    requires Ends(world, spot, 0, end) && hops <= MAX_REF_DEPTH
    ensures FollowFrom(world, b, spot, seen, hops).1 == Some(end)
  {
  }

  lemma FollowFromStep(world: World, b: Budget, spot: Spot, seen: set<Place>, hops: nat)
    requires IsRef(spot.node) && hops < MAX_REF_DEPTH && FollowOne(world, b, spot.node, spot.base, seen).1.Some?
    ensures var (after, step) := FollowOne(world, b, spot.node, spot.base, seen);
      FollowFrom(world, b, spot, seen, hops)
      == FollowFrom(world, after, step.value.0, seen + {step.value.1}, hops + 1)
  {
    hide FollowOne, IsRef;
  }

  /** A chain that ends further on is followed one reference, and what is left is enough for the rest. */
  lemma HopIsFollowed(world: World, b: Budget, spot: Spot, seen: set<Place>, k: nat, end: Spot)
    requires BudgetOk(world, b) && spot.base in b.files && k > 0
    requires Ends(world, spot, k, end) && Enough(world, b, spot, k) && seen !! Places(world, spot, k)
    ensures IsRef(spot.node) && Hop(world, spot).Some? && PlaceOf(world, spot).Some?
    ensures var (after, step) := FollowOne(world, b, spot.node, spot.base, seen);
      var place, next := PlaceOf(world, spot).value, Hop(world, spot).value;
      && step == Some((next, place)) && BudgetOk(world, after) && next.base in after.files
      && Enough(world, after, next, k - 1) && seen + {place} !! Places(world, next, k - 1)
      && Ends(world, next, k - 1, end)
  {
    hide FollowOne, Enough, CanGet, BudgetOk, Spent;
    PlaceOfHop(world, spot);
    hide PlaceOf, Hop;
    EnoughForOne(world, b, spot, k);
    FirstPlaceIsNew(world, spot, k, end);
    BudgetHasFiles(world, b);
    FollowOneExactly(world, b, spot, seen);
    OneFollowed(world, b, spot, seen);
    EnoughForOneAndRest(world, b, FollowOne(world, b, spot.node, spot.base, seen).0, spot, k);
  }

  lemma BudgetHasFiles(world: World, b: Budget)
    requires BudgetOk(world, b)
    ensures FilesOk(world, b)
  {
  }

  lemma {:induction false} EndWasReached(world: World, b: Budget, spot: Spot, seen: set<Place>, hops: nat) returns (k: nat)
    requires BudgetOk(world, b) && spot.base in b.files && hops <= MAX_REF_DEPTH
    requires FollowFrom(world, b, spot, seen, hops).1.Some?
    ensures hops + k <= MAX_REF_DEPTH && Ends(world, spot, k, FollowFrom(world, b, spot, seen, hops).1.value)
    ensures k > 0 ==> Enough(world, b, spot, k)
    decreases MAX_REF_DEPTH - hops
  {
    hide FollowFrom, FollowOne, Ends, Enough, PlaceOf, Hop, BudgetOk, FilesOk, Spent, CanGet;
    FollowFromEnds(world, b, spot, seen, hops);
    k := 0;
    if IsRef(spot.node) {
      OneFollowed(world, b, spot, seen);
      var (after, step) := FollowOne(world, b, spot.node, spot.base, seen);
      var m := EndWasReached(world, after, step.value.0, seen + {step.value.1}, hops + 1);
      k := m + 1;
      OneHopMore(world, b, after, spot, m, FollowFrom(world, b, spot, seen, hops).1.value);
    } else {
      NoHops(world, spot);
    }
  }

  lemma NoHops(world: World, spot: Spot)
    requires !IsRef(spot.node)
    ensures Ends(world, spot, 0, spot)
  {
  }

  /** The end of the rest is the end of the whole, and what was enough for the rest was enough for the whole. */
  lemma OneHopMore(world: World, b: Budget, after: Budget, spot: Spot, m: nat, end: Spot)
    requires Spent(world, b, after, spot) && BudgetOk(world, after) && after.refs <= MAX_REFS
    requires Hop(world, spot).Some? && PlaceOf(world, spot).Some? && CanGet(world, b, PlaceOf(world, spot).value.file)
    requires Ends(world, Hop(world, spot).value, m, end) && (m > 0 ==> Enough(world, after, Hop(world, spot).value, m))
    ensures Ends(world, spot, m + 1, end) && Enough(world, b, spot, m + 1)
  {
    hide Enough, PlaceOf, Hop, BudgetOk, Spent, CanGet;
    EnoughForOneAndRest(world, b, after, spot, m + 1);
    if m == 0 {
      EnoughForNone(world, after, Hop(world, spot).value);
    }
  }

  /** A result means there was nothing to follow, or that one reference was followed with room to go on. */
  lemma FollowFromEnds(world: World, b: Budget, spot: Spot, seen: set<Place>, hops: nat)
    requires hops <= MAX_REF_DEPTH && FollowFrom(world, b, spot, seen, hops).1.Some?
    ensures !IsRef(spot.node) ==> FollowFrom(world, b, spot, seen, hops).1.value == spot
    ensures IsRef(spot.node) ==> hops < MAX_REF_DEPTH && FollowOne(world, b, spot.node, spot.base, seen).1.Some?
    ensures IsRef(spot.node) ==>
      var (after, step) := FollowOne(world, b, spot.node, spot.base, seen);
      FollowFrom(world, b, spot, seen, hops)
      == FollowFrom(world, after, step.value.0, seen + {step.value.1}, hops + 1)
  {
    hide FollowOne, IsRef;
  }

  lemma EnoughForNone(world: World, b: Budget, spot: Spot)
    requires BudgetOk(world, b) && b.refs <= MAX_REFS
    ensures Enough(world, b, spot, 0)
  {
  }

  /** The chain ends here, within the depth limit, and what is left covers its references and the files they need. */
  ghost predicate Followable(world: World, b: Budget, spot: Spot, end: Spot) {
    exists k: nat :: k <= MAX_REF_DEPTH && Ends(world, spot, k, end) && (k == 0 || Enough(world, b, spot, k))
  }

  /** Following is exact: it gives the end of the chain whenever the chain can be followed to it, and fails otherwise. */
  lemma FollowIsExact(world: World, b: Budget, spot: Spot, end: Spot)
    requires BudgetOk(world, b) && spot.base in b.files
    ensures Follow(world, b, spot).1 == Some(end) <==> Followable(world, b, spot, end)
  {
    hide FollowFrom, Ends, Enough, BudgetOk;
    if Follow(world, b, spot).1 == Some(end) {
      var k := EndWasReached(world, b, spot, {}, 0);
    }
    if Followable(world, b, spot, end) {
      var k: nat :| k <= MAX_REF_DEPTH && Ends(world, spot, k, end) && (k == 0 || Enough(world, b, spot, k));
      if k > 0 {
        ReachesEnd(world, b, spot, {}, 0, k, end);
      } else {
        NothingToFollow(world, b, spot, end);
      }
    }
  }

  lemma NothingToFollow(world: World, b: Budget, spot: Spot, end: Spot)
    requires Ends(world, spot, 0, end)
    ensures Follow(world, b, spot).1 == Some(end)
  {
  }

  /** A chain that comes back to a place it has been at is refused. */
  lemma CyclesAreRefused(world: World, b: Budget, place: Place, k: nat)
    requires BudgetOk(world, b) && place.file in b.files && SpotAt(world, place).Some?
    requires place in Places(world, SpotAt(world, place).value, k)
    ensures Follow(world, b, SpotAt(world, place).value).1 == None
  {
    var spot := SpotAt(world, place).value;
    hide BudgetOk, SpotAt;
    if Follow(world, b, spot).1.Some? {
      var end := Follow(world, b, spot).1.value;
      var n := EndWasReached(world, b, spot, {}, 0);
      MorePlaces(world, spot, k, n, end, place);
      var m := EndsFromPlace(world, spot, n, end, place);
      EndIsUnique(world, spot, n, end, m, end);
    }
  }

  /** A chain that ends has no further places. */
  lemma {:induction false} MorePlaces(world: World, spot: Spot, k: nat, n: nat, end: Spot, place: Place)
    requires Ends(world, spot, n, end) && place in Places(world, spot, k)
    ensures place in Places(world, spot, n)
    decreases n
  {
    if n > 0 && place != PlaceOf(world, spot).value {
      MorePlaces(world, Hop(world, spot).value, k - 1, n - 1, end, place);
    }
  }
}
