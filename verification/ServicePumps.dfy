/**
 * A pump of the running service, with requests, ending scans and edits between its steps: it serves its snapshot oldest
 * first, and comes to what the loop comes to when nothing else happens.
 */
module ServicePumps {
  import opened Options
  import opened OrderedKeys
  import opened ScanTable
  import opened ScanLaws
  import opened RunnerRules
  import opened PumpOrder
  import opened ScanService
  import opened ServiceRuns

  predicate Serving(s: Sys) { s.lock.Scanning? || s.lock.Starting? }

  /** The threads started between two states. */
  function Begun(s: Sys, t: Sys): seq<ScanId> {
    if |s.started| <= |t.started| then t.started[|s.started|..] else []
  }

  /** The scans of `done` were served oldest first, beside what ran when the snapshot was taken. */
  ghost predicate ServedSoFar(c: Limits, s: Sys, done: seq<ScanId>, begun: seq<ScanId>, lost: map<ScanId, Slot>) {
    && (forall id :: id in done ==> id in s.db.scans)
    && OldestFirst(c, AllSlots(s.db), s.running, done, begun, lost)
  }

  predicate Room(c: Limits, s: Sys, begun: seq<ScanId>, lost: map<ScanId, Slot>, id: ScanId) {
    id in s.db.scans && HasRoom(c, AllSlots(s.db), s.running, ToSet(begun), Tried(begun, lost), id)
  }

  function RunningAfter(s: Sys, begun: seq<ScanId>): map<ScanId, Slot> {
    s.running + SlotsIn(AllSlots(s.db), ToSet(begun))
  }

  /** Nothing has touched these scans since the snapshot. */
  ghost predicate StillQueued(s: Sys, t: Sys, ids: seq<ScanId>) {
    forall id :: id in ids ==> id in s.db.scans && id in t.db.scans && t.db.scans[id] == s.db.scans[id]
                               && s.db.scans[id].status == Queued
  }

  /** A pump that took the snapshot `ids` in `s` and served the first `k` of them. */
  ghost predicate Between(c: Limits, s: Sys, ids: seq<ScanId>, k: nat, t: Sys) {
    && k <= |ids| && t.lock == Scanning(ids[k..]) && s.started <= t.started
    && ServedSoFar(c, s, ids[..k], Begun(s, t), t.lost) && t.running == RunningAfter(s, Begun(s, t))
    && StillQueued(s, t, ids[k..])
  }

  /** The same, about to start a thread for the next. */
  ghost predicate AtStart(c: Limits, s: Sys, ids: seq<ScanId>, k: nat, t: Sys) {
    && k < |ids| && ids[k] in s.db.scans && t.lock == Starting(ids[k], ids[k + 1..]) && s.started <= t.started
    && ServedSoFar(c, s, ids[..k], Begun(s, t), t.lost) && Room(c, s, Begun(s, t), t.lost, ids[k])
    && t.running == RunningAfter(s, Begun(s, t))[ids[k] := AllSlots(s.db)[ids[k]]]
    && StillQueued(s, t, ids[k + 1..])
  }

  ghost predicate Midway(c: Limits, s: Sys, ids: seq<ScanId>, k: nat, t: Sys) {
    Between(c, s, ids, k, t) || AtStart(c, s, ids, k, t)
  }

  ghost predicate FromSnapshot(s: Sys, ids: seq<ScanId>) {
    Ordered(false, ids) && forall id :: id in ids ==> id in s.db.scans && id !in s.running
  }

  // --- steps outside the pump ------------------------------------------------------------------------------------

  /** A step that leaves the runner's memory and every queued scan alone. */
  ghost predicate Aside(t: Sys, u: Sys) {
    && u.running == t.running && u.lock == t.lock && u.lost == t.lost && u.started == t.started
    && forall id :: Is(t.db, id, Queued) ==> id in u.db.scans && u.db.scans[id] == t.db.scans[id]
  }

  lemma AsideKeepsMidway(c: Limits, s: Sys, ids: seq<ScanId>, k: nat, t: Sys, u: Sys)
    requires Midway(c, s, ids, k, t) && Aside(t, u)
    ensures Midway(c, s, ids, k, u)
  {
    hide ServedSoFar, Room, RunningAfter;
    assert Begun(s, u) == Begun(s, t);
  }

  lemma OtherStepsAreAside(c: Limits, t: Sys, a: Action)
    requires Inv(c, t) && Serving(t) && Enabled(t, a) && Serving(Apply(c, t, a))
    requires !a.Turn? && !a.ThreadStarts? && !a.ThreadFails?
    ensures Aside(t, Apply(c, t, a))
  {
    hide WithinLimits, WithinCaps, DbConsistent, NoneForgotten, StartedOnce, KeysApart, CreateScan, Ended;
    match a {
      case Receive(req, id, now) => CreateWrites(t.db, c, req, now, id); CreateAnswers(t.db, c, req, now, id);
      case Ends(id, ending, now) =>
        WorkingIsRunning(t, id);
        EndedRow(t.db, id, ending, now);
      case _ =>
    }
  }

  // --- steps of the pump -------------------------------------------------------------------------------------------

  lemma SnapshotIsBetween(c: Limits, s: Sys)
    requires RunningMatches(s.db, s.running) && s.lock == Entered && s.lost == map[]
    ensures var ids := QueuedScans(s.db, QUEUE_LIMIT); FromSnapshot(s, ids) && Between(c, s, ids, 0, AfterSnapshot(s))
  {
    var ids := QueuedScans(s.db, QUEUE_LIMIT);
    QueuedScansAreTheOldest(s.db, QUEUE_LIMIT);
    hide QueuedScans, HasRoom;
    assert ids[..0] == [] && ids[0..] == ids;
    assert Begun(s, AfterSnapshot(s)) == [];
    assert SlotsIn(AllSlots(s.db), ToSet([])) == map[];
    assert forall id :: id in ids ==> id in IdsWith(s.db, Queued);
  }

  lemma NextIsYounger(s: Sys, ids: seq<ScanId>, k: nat)
    requires FromSnapshot(s, ids) && k < |ids|
    ensures Younger(AllSlots(s.db), ids[..k], ids[k]) && ids[..k + 1] == ids[..k] + [ids[k]]
    ensures ids[k] in s.db.scans && ids[k] !in s.running && ids[k] !in ids[..k]
  {
    forall other | other in ids[..k] ensures other in s.db.scans && other < ids[k] {
      var j :| 0 <= j < k && ids[..k][j] == other;
      assert ids[j] == other && other in ids;
      assert Before(false, ids[j], ids[k]);
    }
    assert ids[k] in ids;
  }

  /** The next scan of the snapshot is served: with room it is started or lost, without it is passed over. */
  lemma ServeNext(c: Limits, s: Sys, ids: seq<ScanId>, k: nat, begun: seq<ScanId>, lost: map<ScanId, Slot>,
                  begun': seq<ScanId>, lost': map<ScanId, Slot>)
    requires FromSnapshot(s, ids) && k < |ids| && ServedSoFar(c, s, ids[..k], begun, lost) && ids[k] in s.db.scans
    requires if Room(c, s, begun, lost, ids[k])
             then (begun' == begun + [ids[k]] && lost' == lost) || (begun' == begun && lost' == lost[ids[k] := AllSlots(s.db)[ids[k]]])
             else begun' == begun && lost' == lost
    ensures ServedSoFar(c, s, ids[..k + 1], begun', lost')
  {
    NextIsYounger(s, ids, k);
    hide OldestFirst, HasRoom, AllSlots;
    OneMore(c, AllSlots(s.db), s.running, ids[..k], begun, lost, ids[k], begun', lost');
    assert forall id :: id in ids[..k + 1] ==> id in ids;
  }

  lemma ServedFacts(c: Limits, s: Sys, done: seq<ScanId>, begun: seq<ScanId>, lost: map<ScanId, Slot>)
    requires ServedSoFar(c, s, done, begun, lost)
    ensures Ordered(false, begun)
    ensures forall id :: id in begun ==> id in done && id !in lost
    ensures forall id :: id in lost ==> id in done && lost[id] == AllSlots(s.db)[id]
    ensures forall id :: id in Tried(begun, lost) ==> id in done
  {
    hide HasRoom;
  }

  /** What a pump counts when it comes to the next scan of its snapshot. */
  lemma NextCount(c: Limits, s: Sys, ids: seq<ScanId>, k: nat, begun: seq<ScanId>, lost: map<ScanId, Slot>)
    requires FromSnapshot(s, ids) && k < |ids| && ServedSoFar(c, s, ids[..k], begun, lost) && ids[k] in s.db.scans
    ensures var running := RunningAfter(s, begun);
      && |running| == |s.running| + |begun| && ids[k] !in running && ids[k] !in lost
      && (Room(c, s, begun, lost, ids[k]) <==>
            |running| < c.maxScans && !Blocked(c, running + lost, AllSlots(s.db)[ids[k]]))
  {
    NextIsYounger(s, ids, k);
    ServedFacts(c, s, ids[..k], begun, lost);
    assert forall id :: id in ids[..k] ==> id in ids;
    var p := Pump(s.db, RunningAfter(s, begun), lost, begun);
    hide HasRoom, Blocked, OldestFirst, ServedSoFar;
    Counted(s.db, s.running, p);
    RoomForYoungest(c, AllSlots(s.db), s.running, begun, lost, ids[k]);
    NotRunningYet(s.db, s.running, p, ids[k]);
  }

  /** A full house leaves no room for the rest of the snapshot. */
  lemma {:induction false} FullHouse(c: Limits, s: Sys, ids: seq<ScanId>, k: nat, begun: seq<ScanId>, lost: map<ScanId, Slot>)
    requires FromSnapshot(s, ids) && k <= |ids| && ServedSoFar(c, s, ids[..k], begun, lost)
    requires |RunningAfter(s, begun)| >= c.maxScans
    ensures ServedSoFar(c, s, ids, begun, lost)
    decreases |ids| - k
  {
    if k == |ids| {
      assert ids[..k] == ids;
    } else {
      hide ServedSoFar, Room, RunningAfter, Blocked;
      NextIsYounger(s, ids, k);
      NextCount(c, s, ids, k, begun, lost);
      ServeNext(c, s, ids, k, begun, lost, begun, lost);
      FullHouse(c, s, ids, k + 1, begun, lost);
    }
  }

  lemma NotRepeated(ids: seq<ScanId>, k: nat)
    requires Ordered(false, ids) && k < |ids|
    ensures ids[k] !in ids[k + 1..]
  {
    assert forall j :: k < j < |ids| ==> Before(false, ids[k], ids[j]);
  }

  lemma TailIsStillQueued(s: Sys, ids: seq<ScanId>, k: nat, t: Sys, u: Sys)
    requires Ordered(false, ids) && k < |ids| && StillQueued(s, t, ids[k..]) && OnlyRow(t.db, u.db, ids[k])
    ensures StillQueued(s, u, ids[k + 1..])
  {
    NotRepeated(ids, k);
    assert ids[k + 1..] == ids[k..][1..];
  }

  lemma RestIsStillQueued(s: Sys, ids: seq<ScanId>, k: nat, t: Sys, u: Sys)
    requires Ordered(false, ids) && k < |ids| && StillQueued(s, t, ids[k + 1..]) && OnlyRow(t.db, u.db, ids[k])
    ensures StillQueued(s, u, ids[k + 1..])
  {
    NotRepeated(ids, k);
  }

  lemma HeadIsStillQueued(s: Sys, ids: seq<ScanId>, k: nat, t: Sys)
    requires k < |ids| && StillQueued(s, t, ids[k..])
    ensures ids[k] in s.db.scans && ids[k] in t.db.scans && t.db.scans[ids[k]] == s.db.scans[ids[k]]
    ensures s.db.scans[ids[k]].status == Queued && AllSlots(s.db)[ids[k]] == SlotOf(t.db.scans[ids[k]])
  {
    assert ids[k..][0] == ids[k];
  }

  /** The head of the rest is passed over. */
  lemma PassedOver(c: Limits, s: Sys, ids: seq<ScanId>, k: nat, t: Sys, now: int)
    requires FromSnapshot(s, ids) && Between(c, s, ids, k, t) && k < |ids| && ids[k] in s.db.scans
    requires |t.running| < c.maxScans && Blocked(c, t.running + t.lost, AllSlots(s.db)[ids[k]])
    ensures Between(c, s, ids, k + 1, t.(lock := Scanning(ids[k + 1..]), clock := now))
  {
    hide ServedSoFar, Room, RunningAfter, Blocked, StillQueued, AllSlots;
    NextCount(c, s, ids, k, Begun(s, t), t.lost);
    ServeNext(c, s, ids, k, Begun(s, t), t.lost, Begun(s, t), t.lost);
    TailIsStillQueued(s, ids, k, t, t.(lock := Scanning(ids[k + 1..]), clock := now));
    assert Begun(s, t.(lock := Scanning(ids[k + 1..]), clock := now)) == Begun(s, t);
  }

  /** The pump is full and passes over the rest. */
  lemma BrokenOff(c: Limits, s: Sys, ids: seq<ScanId>, k: nat, t: Sys, now: int)
    requires FromSnapshot(s, ids) && Between(c, s, ids, k, t) && |t.running| >= c.maxScans
    ensures Between(c, s, ids, |ids|, t.(lock := Scanning([]), clock := now))
  {
    hide ServedSoFar, Room, RunningAfter;
    FullHouse(c, s, ids, k, Begun(s, t), t.lost);
    assert ids[..|ids|] == ids && ids[|ids|..] == [];
    assert Begun(s, t.(lock := Scanning([]), clock := now)) == Begun(s, t);
  }

  lemma HeadIsMarked(c: Limits, s: Sys, ids: seq<ScanId>, k: nat, t: Sys, now: int)
    requires FromSnapshot(s, ids) && Between(c, s, ids, k, t) && k < |ids| && ids[k] in s.db.scans
    requires |t.running| < c.maxScans && !Blocked(c, t.running + t.lost, AllSlots(s.db)[ids[k]])
    requires ids[k] in t.db.scans && SlotOf(t.db.scans[ids[k]]) == AllSlots(s.db)[ids[k]]
    ensures AtStart(c, s, ids, k, Marked(t, ids[k], now))
  {
    hide MarkRunning, ServedSoFar, Room, RunningAfter, Blocked, SlotOf, StillQueued, AllSlots;
    var u := Marked(t, ids[k], now);
    NextCount(c, s, ids, k, Begun(s, t), t.lost);
    MarkStarts(t.db, ids[k], now);
    TailIsStillQueued(s, ids, k, t, u);
    assert t.lock.left[1..] == ids[k + 1..];
    assert Begun(s, u) == Begun(s, t);
  }

  lemma TurnCases(c: Limits, t: Sys, now: int)
    requires t.lock.Scanning? && t.lock.left != []
    requires t.lock.left[0] in t.db.scans && t.lock.left[0] !in t.running
    ensures var id, u := t.lock.left[0], AfterTurn(c, t, now);
      if |t.running| >= c.maxScans then u == t.(lock := Scanning([]), clock := now)
      else if Blocked(c, t.running + t.lost, SlotOf(t.db.scans[id])) then
        u == t.(lock := Scanning(t.lock.left[1..]), clock := now)
      else t.db.scans[id].status == Queued ==> u == Marked(t, id, now)
  {
    hide Blocked;
  }

  lemma TurnIsMidway(c: Limits, s: Sys, ids: seq<ScanId>, k: nat, t: Sys, now: int) returns (k': nat)
    requires FromSnapshot(s, ids) && Between(c, s, ids, k, t) && t.lock.left != []
    ensures Midway(c, s, ids, k', AfterTurn(c, t, now))
  {
    var id := ids[k];
    assert t.lock.left[0] == id && t.lock.left[1..] == ids[k + 1..];
    HeadIsStillQueued(s, ids, k, t);
    NextCount(c, s, ids, k, Begun(s, t), t.lost);
    TurnCases(c, t, now);
    hide Between, AtStart, Blocked, Room, SlotOf, AllSlots, RunningAfter, AfterTurn, Marked;
    if |t.running| >= c.maxScans {
      k' := |ids|;
      BrokenOff(c, s, ids, k, t, now);
    } else if Blocked(c, t.running + t.lost, AllSlots(s.db)[id]) {
      k' := k + 1;
      PassedOver(c, s, ids, k, t, now);
    } else {
      k' := k;
      HeadIsMarked(c, s, ids, k, t, now);
    }
  }

  lemma AddedRunning(s: Sys, begun: seq<ScanId>, id: ScanId)
    requires id in s.db.scans
    ensures RunningAfter(s, begun + [id]) == RunningAfter(s, begun)[id := AllSlots(s.db)[id]]
  {
    assert ToSet(begun + [id]) == ToSet(begun) + {id};
    SlotsGrow(AllSlots(s.db), ToSet(begun), id);
    hide ToSet, SlotsIn, AllSlots;
    SumGrows(s.running, SlotsIn(AllSlots(s.db), ToSet(begun)), id, AllSlots(s.db)[id]);
  }

  lemma SumGrows(running: map<ScanId, Slot>, ran: map<ScanId, Slot>, id: ScanId, slot: Slot)
    ensures running + ran[id := slot] == (running + ran)[id := slot]
  {
  }

  lemma ThreadStartsIsBetween(c: Limits, s: Sys, ids: seq<ScanId>, k: nat, t: Sys)
    requires FromSnapshot(s, ids) && AtStart(c, s, ids, k, t)
    ensures Between(c, s, ids, k + 1, AfterThreadStarts(t))
  {
    hide ServedSoFar, Room, RunningAfter, StillQueued, AllSlots;
    var u, id := AfterThreadStarts(t), ids[k];
    assert Begun(s, u) == Begun(s, t) + [id];
    AddedRunning(s, Begun(s, t), id);
    ServeNext(c, s, ids, k, Begun(s, t), t.lost, Begun(s, u), t.lost);
    RestIsStillQueued(s, ids, k, t, u);
  }

  lemma ThreadFailsIsBetween(c: Limits, s: Sys, ids: seq<ScanId>, k: nat, t: Sys, now: int)
    requires FromSnapshot(s, ids) && AtStart(c, s, ids, k, t) && t.lock.id in t.running && Is(t.db, ids[k], Running)
    ensures Between(c, s, ids, k + 1, AfterThreadFails(t, now))
  {
    hide ServedSoFar, Room, RunningAfter, StillQueued, AllSlots, FailScan;
    var u, id := AfterThreadFails(t, now), ids[k];
    assert Begun(s, u) == Begun(s, t);
    NextCount(c, s, ids, k, Begun(s, t), t.lost);
    ServeNext(c, s, ids, k, Begun(s, t), t.lost, Begun(s, t), u.lost);
    FailFails(t.db, id, ScanError, now);
    RestIsStillQueued(s, ids, k, t, u);
    assert u.running == RunningAfter(s, Begun(s, u));
  }

  // --- whole pumps in a run ----------------------------------------------------------------------------------------

  lemma StepIsMidway(c: Limits, s: Sys, ids: seq<ScanId>, k: nat, t: Sys, a: Action) returns (k': nat)
    requires FromSnapshot(s, ids) && Midway(c, s, ids, k, t)
    requires Inv(c, t) && Enabled(t, a) && Serving(Apply(c, t, a))
    ensures Midway(c, s, ids, k', Apply(c, t, a))
  {
    hide WithinLimits, WithinCaps, NoneForgotten, StartedOnce, KeysApart, Between, AtStart, DbConsistent, RunningMatches,
      AfterTurn, AfterThreadStarts, AfterThreadFails;
    MidwayLock(c, s, ids, k, t);
    if a.Turn? {
      k' := TurnIsMidway(c, s, ids, k, t, a.now);
    } else if a.ThreadStarts? {
      ThreadStartsIsBetween(c, s, ids, k, t);
      k' := k + 1;
    } else if a.ThreadFails? {
      ThreadFailsIsBetween(c, s, ids, k, t, a.now);
      k' := k + 1;
    } else {
      OtherStepsAreAside(c, t, a);
      AsideKeepsMidway(c, s, ids, k, t, Apply(c, t, a));
      k' := k;
    }
  }

  lemma MidwayLock(c: Limits, s: Sys, ids: seq<ScanId>, k: nat, t: Sys)
    requires Midway(c, s, ids, k, t)
    ensures Serving(t) && (t.lock.Scanning? ==> Between(c, s, ids, k, t))
    ensures t.lock.Starting? ==> AtStart(c, s, ids, k, t) && k < |ids| && t.lock.id == ids[k]
  {
    hide ServedSoFar, Room, RunningAfter, StillQueued;
  }

  /** A pump starts with a clean slate. */
  lemma {:induction false} EnteredIsClean(c: Limits, run: seq<Sys>, i: nat)
    requires IsRun(c, run) && i < |run| && run[i].lock == Entered
    ensures run[i].lost == map[]
  {
    hide Inv, Apply, Enabled, IsRun;
    RunBegins(c, run);
    if i > 0 {
      var a := StepTo(c, run, i);
      EveryStateIsGood(c, run, i - 1);
      CrashedLock(c, run[i - 1]);
      if run[i - 1].lock == Entered {
        EnteredIsClean(c, run, i - 1);
      }
      EntryIsClean(c, run[i - 1], a);
    }
  }

  lemma RunBegins(c: Limits, run: seq<Sys>)
    requires IsRun(c, run)
    ensures run != [] && run[0].lock == Free
  {
    hide Next;
  }

  lemma EntryIsClean(c: Limits, s: Sys, a: Action)
    requires (!s.up ==> s.lock == Free) && (s.lock == Entered ==> s.lost == map[]) && Enabled(s, a)
    ensures Apply(c, s, a).lock == Entered ==> Apply(c, s, a).lost == map[]
  {
    hide CreateScan, Ended, FailScan, MayStart, MarkRunning, RecoverInterrupted, QueuedScans;
  }

  lemma CrashedLock(c: Limits, s: Sys)
    requires Inv(c, s)
    ensures !s.up ==> s.lock == Free
  {
    hide WithinLimits, WithinCaps, NoneForgotten, StartedOnce, KeysApart, DbConsistent, RunningMatches, ThreadsMatch,
      RowsRun, LostAreOver;
  }

  /** From its snapshot in state `i` on, one pump is at work up to state `j`. */
  ghost predicate OnePump(run: seq<Sys>, i: nat, j: nat) {
    i < j < |run| && run[i].lock == Entered && forall m :: i < m <= j ==> Serving(run[m])
  }

  lemma {:induction false} PumpIsMidway(c: Limits, run: seq<Sys>, i: nat, j: nat) returns (k: nat)
    requires IsRun(c, run) && OnePump(run, i, j)
    ensures var ids := QueuedScans(run[i].db, QUEUE_LIMIT); FromSnapshot(run[i], ids) && Midway(c, run[i], ids, k, run[j])
  {
    hide Inv, Midway, FromSnapshot, Enabled, Apply, QueuedScans;
    EveryStateIsGood(c, run, j - 1);
    var a := StepTo(c, run, j);
    if j == i + 1 {
      EnteredIsClean(c, run, i);
      FirstStep(c, run[i], a);
      k := 0;
    } else {
      k := PumpIsMidway(c, run, i, j - 1);
      k := StepIsMidway(c, run[i], QueuedScans(run[i].db, QUEUE_LIMIT), k, run[j - 1], a);
    }
  }

  lemma FirstStep(c: Limits, s: Sys, a: Action)
    requires Inv(c, s) && s.lock == Entered && s.lost == map[] && Enabled(s, a) && Serving(Apply(c, s, a))
    ensures var ids := QueuedScans(s.db, QUEUE_LIMIT); FromSnapshot(s, ids) && Midway(c, s, ids, 0, Apply(c, s, a))
  {
    CrashedLock(c, s);
    RunningRowsMatch(c, s);
    LeavesEntry(c, s, a);
    hide Inv, Between, FromSnapshot, QueuedScans, RunningMatches;
    SnapshotIsBetween(c, s);
  }

  lemma LeavesEntry(c: Limits, s: Sys, a: Action)
    requires s.up && s.lock == Entered && Enabled(s, a) && Serving(Apply(c, s, a))
    ensures a == Snapshot
  {
    hide CreateScan, Ended, QueuedScans, RecoverInterrupted;
  }

  lemma RunningRowsMatch(c: Limits, s: Sys)
    requires Inv(c, s)
    ensures RunningMatches(s.db, s.running)
  {
    hide WithinLimits, WithinCaps, NoneForgotten, StartedOnce, KeysApart, DbConsistent, ThreadsMatch, RowsRun, LostAreOver;
  }

  /** The environment of a pump of the loop that has the same thread starts. */
  function SameStarts(t: Sys): Env { Env(id => id !in t.lost, _ => 0, _ => 0) }

  /**
   * Whatever requests, ending scans and edits come between its steps, a pump that is about to leave has served its
   * snapshot oldest first, and runs, lost and started exactly what the loop would have from the state of its snapshot
   * with nothing else going on.
   */
  lemma InterleavedPumpIsThePump(c: Limits, run: seq<Sys>, i: nat, j: nat)
    requires IsRun(c, run) && OnePump(run, i, j) && run[j].lock == Scanning([])
    ensures var s, t := run[i], run[j];
      var ids := QueuedScans(s.db, QUEUE_LIMIT); var loop := PumpFrom(c, s.db, s.running, SameStarts(t));
      && t.started == s.started + Begun(s, t)
      && (forall id :: id in ids ==> id in s.db.scans)
      && OldestFirst(c, AllSlots(s.db), s.running, ids, Begun(s, t), t.lost)
      && Begun(s, t) == loop.started && t.running == loop.running && t.lost == loop.lost
  {
    var s, t := run[i], run[j];
    var ids := QueuedScans(s.db, QUEUE_LIMIT);
    var k := PumpIsMidway(c, run, i, j);
    EveryStateIsGood(c, run, i);
    RunningRowsMatch(c, s);
    hide Inv, IsRun, QueuedScans, OldestFirst, Did, Midway, PumpFrom, FromSnapshot, RunningAfter;
    PumpEnd(c, s, ids, k, t);
    PumpServesOldestFirst(c, s.db, s.running, SameStarts(t));
    SameOutcome(c, s, t, ids, PumpFrom(c, s.db, s.running, SameStarts(t)));
  }

  lemma PumpEnd(c: Limits, s: Sys, ids: seq<ScanId>, k: nat, t: Sys)
    requires Midway(c, s, ids, k, t) && t.lock == Scanning([])
    ensures ServedSoFar(c, s, ids, Begun(s, t), t.lost) && t.running == RunningAfter(s, Begun(s, t))
    ensures t.started == s.started + Begun(s, t) && forall id :: id in ids ==> id in s.db.scans
  {
    hide OldestFirst, Room, RunningAfter;
    assert ids[k..] == [] && ids[..k] == ids;
  }

  lemma SameOutcome(c: Limits, s: Sys, t: Sys, ids: seq<ScanId>, loop: Pump)
    requires FromSnapshot(s, ids) && ServedSoFar(c, s, ids, Begun(s, t), t.lost)
    requires t.running == RunningAfter(s, Begun(s, t)) && (forall id :: id in ids ==> id in s.db.scans)
    requires OldestFirst(c, AllSlots(s.db), s.running, ids, loop.started, loop.lost)
    requires Did(s.db, s.running, SameStarts(t), loop)
    ensures Begun(s, t) == loop.started && t.running == loop.running && t.lost == loop.lost
  {
    var slots, starts := AllSlots(s.db), SameStarts(t).starts;
    ServedFacts(c, s, ids, Begun(s, t), t.lost);
    assert ServedSoFar(c, s, ids, loop.started, loop.lost);
    ServedFacts(c, s, ids, loop.started, loop.lost);
    hide OldestFirst, HasRoom, RowsAfter, AllSlots, FromSnapshot, ServedSoFar, RunningAfter, RanAfter;
    assert Ordered(false, ids) by { SnapshotInOrder(s, ids); }
    OneOutcome(c, slots, s.running, ids, starts, Begun(s, t), t.lost, loop.started, loop.lost, |ids|);
    SameTried(slots, ids, Begun(s, t), t.lost, loop.started, loop.lost);
    RanIs(s, loop, t);
  }

  lemma SnapshotInOrder(s: Sys, ids: seq<ScanId>)
    requires FromSnapshot(s, ids)
    ensures Ordered(false, ids)
  {
  }

  lemma RanIs(s: Sys, loop: Pump, t: Sys)
    requires RanAfter(s.db, s.running, loop) && t.running == RunningAfter(s, loop.started)
    ensures t.running == loop.running
  {
  }

  lemma SameTried(slots: map<ScanId, Slot>, ids: seq<ScanId>, a: seq<ScanId>, lostA: map<ScanId, Slot>, b: seq<ScanId>,
                  lostB: map<ScanId, Slot>)
    requires Ordered(false, a) && Ordered(false, b)
    requires forall k :: 0 <= k < |ids| ==> (ids[k] in a <==> ids[k] in b) && (ids[k] in lostA <==> ids[k] in lostB)
    requires (forall id :: id in a ==> id in ids) && (forall id :: id in b ==> id in ids)
    requires forall id :: id in lostA ==> id in ids && id in slots && lostA[id] == slots[id]
    requires forall id :: id in lostB ==> id in ids && id in slots && lostB[id] == slots[id]
    ensures a == b && lostA == lostB
  {
    forall id ensures id in a <==> id in b {
      if id in ids { var n :| 0 <= n < |ids| && ids[n] == id; }
    }
    forall id ensures id in lostA <==> id in lostB {
      if id in ids { var n :| 0 <= n < |ids| && ids[n] == id; }
    }
    OrderedListingIsUnique(false, a, b);
  }
}
