/**
 * Following `$ref` values as functions of a budget: which file a reference names, what it costs to load it, and where
 * a chain of references ends.
 */
module SpecRefs {
  import opened Options
  import opened JsonPointer

  type File(==, !new)
  type PathText(==, !new)

  const MAX_FILE_BYTES: nat := 5 * 1024 * 1024
  const MAX_TOTAL_BYTES: nat := 10 * 1024 * 1024
  const MAX_REF_DEPTH: nat := 32
  const MAX_REFS: nat := 10_000
  const MAX_FILES: nat := 20

  /** A file on disk: not readable at all, or bytes that do or do not hold a document. */
  datatype Stored = Unreadable | Garbage(size: nat) | Document(size: nat, value: Json)

  /** What the text of a reference says, before any path is resolved. */
  datatype RefForm = NotText | WholeDocument | Refused | Here(pointer: string) | Elsewhere(path: PathText, pointer: string)

  datatype World = World(disk: File -> Stored, form: Json -> RefForm, resolve: (File, PathText) -> File,
                         within: File -> bool, unquote: string -> string)

  datatype Place = Place(file: File, pointer: string)
  datatype Spot = Spot(node: Json, base: File)

  /** What is left to spend, and the files that are loaded; `loaded` and `followed` are history. */
  datatype Budget = Budget(bytesLeft: int, refs: nat, included: nat, files: map<File, Json>,
                           loaded: seq<File>, followed: nat)

  predicate IsRef(node: Json) { node.Object? && "$ref" in node.members }

  function RefOf(node: Json): Json
    requires IsRef(node)
  {
    node.members["$ref"]
  }

  function Locate(world: World, ref: Json, base: File): Option<Place> {
    match world.form(ref)
    case Here(pointer) => Some(Place(base, pointer))
    case Elsewhere(path, pointer) =>
      var file := world.resolve(base, path);
      if world.within(file) then Some(Place(file, pointer)) else None
    case _ => None
  }

  // --- loading a file ------------------------------------------------------------------------------------------------

  function SizeOf(stored: Stored): nat {
    match stored case Unreadable => 0 case Garbage(size) => size case Document(size, _) => size
  }

  predicate Loadable(stored: Stored) { stored.Document? && stored.size <= MAX_FILE_BYTES }

  /** Reading a file takes its bytes from the budget, whether or not it then turns out to hold a document. */
  function LoadFile(world: World, b: Budget, file: File): (Budget, Option<Json>) {
    var stored := world.disk(file);
    if stored.Unreadable? || SizeOf(stored) > MAX_FILE_BYTES then (b, None)
    else
      var paid := b.(bytesLeft := b.bytesLeft - SizeOf(stored));
      if paid.bytesLeft < 0 || stored.Garbage? then (paid, None) else (paid, Some(stored.value))
  }

  /**
   * What reading one file costs and gives: its bytes, if it can be read and is no larger than five megabytes, whatever it
   * holds; and its document if it holds one and the budget covers the bytes.
   */
  lemma LoadIs(world: World, b: Budget, file: File)
    ensures var (after, value) := LoadFile(world, b, file); var stored := world.disk(file);
      var readable := !stored.Unreadable? && SizeOf(stored) <= 5 * 1024 * 1024;
      && after == b.(bytesLeft := after.bytesLeft)
      && b.bytesLeft - after.bytesLeft == (if readable then SizeOf(stored) else 0)
      && (forall v :: value == Some(v) <==> readable && stored.Document? && stored.value == v && b.bytesLeft >= stored.size)
  {
  }

  function GetDocument(world: World, b: Budget, file: File): (Budget, Option<Json>) {
    if file in b.files then (b, Some(b.files[file]))
    else if b.included >= MAX_FILES then (b, None)
    else
      var (paid, value) := LoadFile(world, b.(included := b.included + 1), file);
      match value
      case None => (paid, None)
      case Some(v) => (paid.(files := paid.files[file := v], loaded := paid.loaded + [file]), Some(v))
  }

  // --- following ---------------------------------------------------------------------------------------------------

  /** One reference: what it costs, and the value it leads to. */
  function FollowOne(world: World, b: Budget, node: Json, base: File, seen: set<Place>)
    : (Budget, Option<(Spot, Place)>)
    requires IsRef(node)
  {
    var counted := b.(refs := b.refs + 1);
    if counted.refs > MAX_REFS then (counted, None)
    else
      var kept := counted.(followed := b.followed + 1);
      match Locate(world, RefOf(node), base)
      case None => (kept, None)
      case Some(place) =>
        if place in seen then (kept, None)
        else
          var (after, document) := GetDocument(world, kept, place.file);
          match document
          case None => (after, None)
          case Some(value) =>
            match Walk(world.unquote, value, place.pointer)
            case None => (after, None)
            case Some(next) => (after, Some((Spot(next, place.file), place)))
  }

  function FollowFrom(world: World, b: Budget, spot: Spot, seen: set<Place>, hops: nat): (Budget, Option<Spot>)
    requires hops <= MAX_REF_DEPTH
    decreases MAX_REF_DEPTH - hops
  {
    if !IsRef(spot.node) then (b, Some(spot))
    else if hops == MAX_REF_DEPTH then (b, None)
    else
      var (after, step) := FollowOne(world, b, spot.node, spot.base, seen);
      match step
      case None => (after, None)
      case Some((next, place)) => FollowFrom(world, after, next, seen + {place}, hops + 1)
  }

  function Follow(world: World, b: Budget, spot: Spot): (Budget, Option<Spot>) {
    FollowFrom(world, b, spot, {}, 0)
  }

  /** A spec that has just been read from a file with this document. */
  function Opened(file: File, value: Json, size: nat): Budget {
    Budget(MAX_TOTAL_BYTES - size, 0, 0, map[file := value], [file], 0)
  }

  // --- what the budget keeps ----------------------------------------------------------------------------------------

  function Bytes(world: World, files: seq<File>): nat {
    if files == [] then 0 else SizeOf(world.disk(files[0])) + Bytes(world, files[1..])
  }

  lemma {:induction false} BytesOfTwo(world: World, a: seq<File>, b: seq<File>)
    ensures Bytes(world, a + b) == Bytes(world, a) + Bytes(world, b)
  {
    if a == [] {
      assert a + b == b;
    } else {
      BytesOfTwo(world, a[1..], b);
      assert (a + b)[1..] == a[1..] + b;
    }
  }

  /** The files that are loaded hold what is on disk, lie under the spec's directory and were each loaded once. */
  ghost predicate FilesOk(world: World, b: Budget) {
    && (forall f :: f in b.files <==> f in b.loaded)
    && (forall i, j :: 0 <= i < j < |b.loaded| ==> b.loaded[i] != b.loaded[j])
    && (forall f :: f in b.files ==>
          world.within(f) && Loadable(world.disk(f)) && b.files[f] == world.disk(f).value)
  }

  /** No limit is exceeded by what was loaded and followed so far. */
  ghost predicate LimitsOk(world: World, b: Budget) {
    && b.included <= MAX_FILES && |b.loaded| <= b.included + 1
    && Bytes(world, b.loaded) <= MAX_TOTAL_BYTES && Bytes(world, b.loaded) <= MAX_TOTAL_BYTES - b.bytesLeft
    && b.followed == if b.refs <= MAX_REFS then b.refs else MAX_REFS
  }

  ghost predicate BudgetOk(world: World, b: Budget) {
    FilesOk(world, b) && LimitsOk(world, b)
  }

  lemma OpenedIsOk(world: World, file: File)
    requires world.within(file) && Loadable(world.disk(file))
    ensures BudgetOk(world, Opened(file, world.disk(file).value, world.disk(file).size))
  {
    BytesOfTwo(world, [file], []);
    assert Bytes(world, [file][1..]) == 0;
  }

  lemma GetDocumentKeeps(world: World, b: Budget, file: File)
    requires BudgetOk(world, b) && (file in b.files || world.within(file))
    ensures var (after, value) := GetDocument(world, b, file);
      && BudgetOk(world, after) && (forall f :: f in b.files ==> f in after.files)
      && (value.Some? ==> file in after.files && Loadable(world.disk(file)) && value.value == world.disk(file).value)
      && after.refs == b.refs && after.followed == b.followed
  {
    var (after, value) := GetDocument(world, b, file);
    if file !in b.files && value.Some? {
      BytesOfTwo(world, b.loaded, [file]);
      assert [file][1..] == [];
      assert Bytes(world, [file]) == SizeOf(world.disk(file));
      assert after.loaded[|b.loaded|] == file;
    }
  }

  lemma FollowOneKeeps(world: World, b: Budget, spot: Spot, seen: set<Place>)
    requires BudgetOk(world, b) && IsRef(spot.node) && spot.base in b.files
    ensures var (after, step) := FollowOne(world, b, spot.node, spot.base, seen);
      && BudgetOk(world, after) && (forall f :: f in b.files ==> f in after.files)
      && (step.Some? ==> step.value.0.base in after.files)
  {
    var kept := b.(refs := b.refs + 1, followed := b.followed + 1);
    var place := Locate(world, RefOf(spot.node), spot.base);
    hide GetDocument, Walk, Bytes, RefOf;
    if kept.refs <= MAX_REFS && place.Some? && place.value !in seen {
      GetDocumentKeeps(world, kept, place.value.file);
    }
  }

  lemma {:induction false} FollowKeepsFrom(world: World, b: Budget, spot: Spot, seen: set<Place>, hops: nat)
    requires BudgetOk(world, b) && hops <= MAX_REF_DEPTH && spot.base in b.files
    ensures var (after, end) := FollowFrom(world, b, spot, seen, hops);
      && BudgetOk(world, after) && (forall f :: f in b.files ==> f in after.files)
      && (end.Some? ==> end.value.base in after.files)
    decreases MAX_REF_DEPTH - hops
  {
    hide BudgetOk, FollowOne;
    if IsRef(spot.node) && hops < MAX_REF_DEPTH {
      FollowOneKeeps(world, b, spot, seen);
      var (after, step) := FollowOne(world, b, spot.node, spot.base, seen);
      if step.Some? {
        FollowKeepsFrom(world, after, step.value.0, seen + {step.value.1}, hops + 1);
      }
    }
  }

  // --- whole sessions ----------------------------------------------------------------------------------------------

  /** The budget after a number of references were followed, one call after the other. */
  function Session(world: World, b: Budget, calls: seq<Spot>): Budget {
    if calls == [] then b else Follow(world, Session(world, b, calls[..|calls| - 1]), calls[|calls| - 1]).0
  }

  /** Each call starts from a value in a file that is loaded by then. */
  ghost predicate Proper(world: World, b: Budget, calls: seq<Spot>) {
    forall k :: 0 <= k < |calls| ==> calls[k].base in Session(world, b, calls[..k]).files
  }

  lemma {:induction false} SessionKeeps(world: World, b: Budget, calls: seq<Spot>)
    requires BudgetOk(world, b) && Proper(world, b, calls)
    ensures BudgetOk(world, Session(world, b, calls))
  {
    hide BudgetOk, Follow;
    if calls != [] {
      var front := calls[..|calls| - 1];
      forall k | 0 <= k < |front| ensures front[k].base in Session(world, b, front[..k]).files {
        assert front[..k] == calls[..k];
      }
      SessionKeeps(world, b, front);
      FollowIsFrom(world, Session(world, b, front), calls[|calls| - 1]);
      FollowKeepsFrom(world, Session(world, b, front), calls[|calls| - 1], {}, 0);
    }
  }

  lemma FollowIsFrom(world: World, b: Budget, spot: Spot)
    ensures Follow(world, b, spot) == FollowFrom(world, b, spot, {}, 0)
  {
  }

  /**
   * Whatever references are followed in whatever order, every file that is loaded lies under the spec's directory and
   * is loaded once; no more than the allowed files and bytes are loaded, and of the references that were counted exactly
   * the allowed ones are followed.
   */
  lemma {:induction false} LimitsAlwaysHold(world: World, file: File, calls: seq<Spot>)
    requires world.within(file) && Loadable(world.disk(file))
    requires Proper(world, Opened(file, world.disk(file).value, world.disk(file).size), calls)
    ensures var b := Session(world, Opened(file, world.disk(file).value, world.disk(file).size), calls);
      && (forall k :: 0 <= k < |b.loaded| ==> world.within(b.loaded[k]))
      && (forall i, j :: 0 <= i < j < |b.loaded| ==> b.loaded[i] != b.loaded[j])
      && |b.loaded| <= MAX_FILES + 1 && Bytes(world, b.loaded) <= MAX_TOTAL_BYTES
      && b.followed == if b.refs <= MAX_REFS then b.refs else MAX_REFS
  {
    OpenedIsOk(world, file);
    SessionKeeps(world, Opened(file, world.disk(file).value, world.disk(file).size), calls);
    hide Session, Proper, Opened;
  }

  /**
   * The counter of references has no bound: one that leads nowhere is counted each time it is followed, so following it
   * once more often than the limit takes the counter past the limit.
   */
  lemma {:induction false} CounterPassesItsLimit(world: World, file: File, dead: Json, n: nat)
    requires world.within(file) && Loadable(world.disk(file))
    requires IsRef(dead) && Locate(world, RefOf(dead), file) == None
    ensures var start := Opened(file, world.disk(file).value, world.disk(file).size);
      var calls := seq(n, _ => Spot(dead, file));
      && Session(world, start, calls).refs == n
      && file in Session(world, start, calls).files && Proper(world, start, calls)
  {
    var start := Opened(file, world.disk(file).value, world.disk(file).size);
    var calls := seq(n, _ => Spot(dead, file));
    if n > 0 {
      var front := seq(n - 1, _ => Spot(dead, file));
      CounterPassesItsLimit(world, file, dead, n - 1);
      assert calls == front + [Spot(dead, file)];
      hide Opened, Locate, RefOf, Session, Proper, Follow;
      DeadEndIsCounted(world, Session(world, start, front), dead, file);
      OneMoreCall(world, start, front, Spot(dead, file));
    }
  }

  lemma OneMoreCall(world: World, b: Budget, front: seq<Spot>, spot: Spot)
    requires Proper(world, b, front) && spot.base in Session(world, b, front).files
    ensures Session(world, b, front + [spot]) == Follow(world, Session(world, b, front), spot).0
    ensures Proper(world, b, front + [spot])
  {
    var calls := front + [spot];
    assert calls[..|front|] == front;
    hide Follow;
    assert Session(world, b, calls) == Follow(world, Session(world, b, front), spot).0;
    hide Session;
    forall k | 0 <= k < |calls| ensures calls[k].base in Session(world, b, calls[..k]).files {
      if k < |front| {
        assert calls[..k] == front[..k];
      }
    }
  }

  lemma DeadEndIsCounted(world: World, b: Budget, dead: Json, file: File)
    requires IsRef(dead) && Locate(world, RefOf(dead), file) == None
    ensures var after := Follow(world, b, Spot(dead, file)).0; after.refs == b.refs + 1 && after.files == b.files
  {
    var (after, step) := FollowOne(world, b, dead, file, {});
    assert step == None;
    assert Follow(world, b, Spot(dead, file)) == (after, None);
  }
}
