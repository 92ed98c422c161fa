/** A loaded spec as an object: its budget and its files change while references are followed. */
module SpecLoader {
  import opened Options
  import opened JsonPointer
  import opened SpecRefs

  class Spec {
    const world: World
    var bytesLeft: int
    var refs: nat
    var included: nat
    var files: map<File, Json>
    ghost var loaded: seq<File>
    ghost var followed: nat

    /** The mutable fields as one value. */
    ghost function Now(): Budget
      reads this
    {
      Budget(bytesLeft, refs, included, files, loaded, followed)
    }

    /** A spec whose own file has been read. */
    constructor (world: World, file: File, value: Json, size: nat)
      ensures this.world == world && Now() == Opened(file, value, size)
    {
      this.world := world;
      bytesLeft, refs, included := MAX_TOTAL_BYTES - size, 0, 0;
      files, loaded, followed := map[file := value], [file], 0;
    }

    method ReadFile(file: File) returns (value: Option<Json>)
      modifies this`bytesLeft
      ensures (Now(), value) == LoadFile(world, old(Now()), file)
    {
      var stored := world.disk(file);
      if stored.Unreadable? || SizeOf(stored) > MAX_FILE_BYTES {
        return None;
      }
      bytesLeft := bytesLeft - SizeOf(stored);
      if bytesLeft < 0 || stored.Garbage? {
        return None;
      }
      value := Some(stored.value);
    }

    method Get(file: File) returns (value: Option<Json>)
      modifies this
      ensures (Now(), value) == GetDocument(world, old(Now()), file)
    {
      if file in files {
        return Some(files[file]);
      }
      if included >= MAX_FILES {
        return None;
      }
      included := included + 1;
      value := ReadFile(file);
      if value.Some? {
        files := files[file := value.value];
        loaded := loaded + [file];
      }
    }

    /** Resolve a value if it is a reference, repeatedly; the value and the file it is in. */
    method FollowRefs(start: Json, from: File) returns (end: Option<Spot>)
      modifies this
      ensures (Now(), end) == Follow(world, old(Now()), Spot(start, from))
    {
      hide GetDocument, Locate, Walk, RefOf;
      var node, base := start, from;
      var seen: set<Place> := {};
      var hops: nat := 0;
      ghost var result := Follow(world, Now(), Spot(start, from));
      while IsRef(node)
        invariant hops <= MAX_REF_DEPTH
        invariant FollowFrom(world, Now(), Spot(node, base), seen, hops) == result
        decreases MAX_REF_DEPTH - hops
      {
        if hops + 1 > MAX_REF_DEPTH {
          return None;
        }
        ghost var before := Now();
        refs := refs + 1;
        if refs > MAX_REFS {
          assert FollowOne(world, before, node, base, seen) == (Now(), None);
          return None;
        }
        followed := followed + 1;
        var place := Locate(world, RefOf(node), base);
        if place.None? || place.value in seen {
          assert FollowOne(world, before, node, base, seen) == (Now(), None);
          return None;
        }
        var document := Get(place.value.file);
        if document.None? {
          assert FollowOne(world, before, node, base, seen) == (Now(), None);
          return None;
        }
        var value := WalkPointer(world.unquote, document.value, place.value.pointer);
        if value.None? {
          assert FollowOne(world, before, node, base, seen) == (Now(), None);
          return None;
        }
        assert FollowOne(world, before, node, base, seen)
            == (Now(), Some((Spot(value.value, place.value.file), place.value)));
        seen := seen + {place.value};
        node, base, hops := value.value, place.value.file, hops + 1;
      }
      end := Some(Spot(node, base));
    }
  }
}
