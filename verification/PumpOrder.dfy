/** In which order `pump()` serves the queue: oldest first, each scan decided by what runs and by the older scans alone. */
module PumpOrder {
  import opened Options
  import opened OrderedKeys
  import opened ScanTable
  import opened RunnerRules

  // --- the rule, without the loop --------------------------------------------------------------------------------

  function ToSet(ids: seq<ScanId>): set<ScanId> { set id | id in ids }

  function OlderThan(ids: set<ScanId>, id: ScanId): set<ScanId> { set other | other in ids && other < id }

  function SlotsIn(slots: map<ScanId, Slot>, ids: set<ScanId>): map<ScanId, Slot> {
    map id | id in ids && id in slots :: slots[id]
  }

  /** The slot every scan of the table asks for. */
  function AllSlots(db: Db): map<ScanId, Slot> { map id | id in db.scans :: SlotOf(db.scans[id]) }

  /** Started, or tried in vain. */
  function Tried(started: seq<ScanId>, lost: map<ScanId, Slot>): set<ScanId> { ToSet(started) + lost.Keys }

  /**
   * There is room for this scan beside what ran before: with the older ones that were started the total is below the
   * limit, and neither its agency nor its host is taken by these or by the older ones that were tried in vain.
   */
  predicate HasRoom(limits: Limits, slots: map<ScanId, Slot>, running: map<ScanId, Slot>, started: set<ScanId>,
                    tried: set<ScanId>, id: ScanId)
    requires id in slots
  {
    && |running| + |OlderThan(started, id)| < limits.maxScans
    && !Blocked(limits, running + SlotsIn(slots, OlderThan(tried, id)), slots[id])
  }

  /** Of the snapshot `ids` exactly those were tried for which there was room, and threads were started oldest first. */
  ghost predicate OldestFirst(limits: Limits, slots: map<ScanId, Slot>, running: map<ScanId, Slot>, ids: seq<ScanId>,
                              started: seq<ScanId>, lost: map<ScanId, Slot>)
    requires forall id :: id in ids ==> id in slots
  {
    && Ordered(false, started)
    && (forall id :: id in started ==> id in ids && id !in lost)
    && (forall id :: id in lost ==> id in ids && lost[id] == slots[id])
    && (forall id :: id in ids ==>
          (id in Tried(started, lost) <==> HasRoom(limits, slots, running, ToSet(started), Tried(started, lost), id)))
  }

  // --- one scan more ----------------------------------------------------------------------------------------------

  lemma {:induction false} OrderedCount(ids: seq<ScanId>)
    requires Ordered(false, ids)
    ensures |ToSet(ids)| == |ids|
  {
    if ids != [] {
      var front, last := ids[..|ids| - 1], ids[|ids| - 1];
      OrderedCount(front);
      assert ids == front + [last];
      assert ToSet(ids) == ToSet(front) + {last};
    }
  }

  /** When everything tried is older, all of it counts. */
  lemma RoomForYoungest(limits: Limits, slots: map<ScanId, Slot>, running: map<ScanId, Slot>, started: seq<ScanId>,
                        lost: map<ScanId, Slot>, id: ScanId)
    requires id in slots && Ordered(false, started) && forall other :: other in Tried(started, lost) ==> other < id
    ensures HasRoom(limits, slots, running, ToSet(started), Tried(started, lost), id)
       <==> |running| + |started| < limits.maxScans
            && !Blocked(limits, running + SlotsIn(slots, Tried(started, lost)), slots[id])
  {
    hide Blocked;
    OrderedCount(started);
    assert forall other :: other in ToSet(started) ==> other in Tried(started, lost);
    assert OlderThan(ToSet(started), id) == ToSet(started);
    assert OlderThan(Tried(started, lost), id) == Tried(started, lost);
  }

  /** Scans that are not older do not matter. */
  lemma SameRoom(limits: Limits, slots: map<ScanId, Slot>, running: map<ScanId, Slot>, started: set<ScanId>,
                 tried: set<ScanId>, more: set<ScanId>, most: set<ScanId>, id: ScanId)
    requires id in slots
    requires OlderThan(more, id) == OlderThan(started, id) && OlderThan(most, id) == OlderThan(tried, id)
    ensures HasRoom(limits, slots, running, more, most, id) == HasRoom(limits, slots, running, started, tried, id)
  {
  }

  ghost predicate Younger(slots: map<ScanId, Slot>, ids: seq<ScanId>, id: ScanId) {
    id in slots && forall other :: other in ids ==> other in slots && other < id
  }

  lemma AppendKeepsOrder(started: seq<ScanId>, id: ScanId)
    requires Ordered(false, started) && forall other :: other in ToSet(started) ==> other < id
    ensures Ordered(false, started + [id])
  {
    assert forall k :: 0 <= k < |started| ==> started[k] in ToSet(started);
  }

  lemma OneMore(limits: Limits, slots: map<ScanId, Slot>, running: map<ScanId, Slot>, ids: seq<ScanId>,
                started: seq<ScanId>, lost: map<ScanId, Slot>, id: ScanId, moreStarted: seq<ScanId>, moreLost: map<ScanId, Slot>)
    requires Younger(slots, ids, id) && OldestFirst(limits, slots, running, ids, started, lost)
    requires
      if HasRoom(limits, slots, running, ToSet(started), Tried(started, lost), id)
      then (moreStarted == started + [id] && moreLost == lost) || (moreStarted == started && moreLost == lost[id := slots[id]])
      else moreStarted == started && moreLost == lost
    ensures OldestFirst(limits, slots, running, ids + [id], moreStarted, moreLost)
  {
    hide HasRoom;
    assert forall other :: other in Tried(started, lost) ==> other in ids && other < id;
    if moreStarted != started { AppendKeepsOrder(started, id); }
    forall other | other in ids + [id]
      ensures other in Tried(moreStarted, moreLost)
         <==> HasRoom(limits, slots, running, ToSet(moreStarted), Tried(moreStarted, moreLost), other)
    {
      assert OlderThan(ToSet(moreStarted), other) == OlderThan(ToSet(started), other);
      assert OlderThan(Tried(moreStarted, moreLost), other) == OlderThan(Tried(started, lost), other);
      SameRoom(limits, slots, running, ToSet(started), Tried(started, lost), ToSet(moreStarted),
               Tried(moreStarted, moreLost), other);
    }
  }

  /** The rule leaves no choice: for given thread starts only one set of scans can have been tried. */
  lemma {:induction false} OneOutcome(limits: Limits, slots: map<ScanId, Slot>, running: map<ScanId, Slot>,
                                      ids: seq<ScanId>, starts: ScanId -> bool, a: seq<ScanId>, lostA: map<ScanId, Slot>,
                                      b: seq<ScanId>, lostB: map<ScanId, Slot>, n: nat)
    requires Ordered(false, ids) && (forall id :: id in ids ==> id in slots) && n <= |ids|
    requires OldestFirst(limits, slots, running, ids, a, lostA) && OldestFirst(limits, slots, running, ids, b, lostB)
    requires (forall id :: id in a ==> starts(id)) && (forall id :: id in lostA ==> !starts(id))
    requires (forall id :: id in b ==> starts(id)) && (forall id :: id in lostB ==> !starts(id))
    ensures forall k :: 0 <= k < n ==>
              (ids[k] in a <==> ids[k] in b) && (ids[k] in lostA <==> ids[k] in lostB)
  {
    hide HasRoom;
    if n > 0 {
      OneOutcome(limits, slots, running, ids, starts, a, lostA, b, lostB, n - 1);
      var id := ids[n - 1];
      forall other ensures other in OlderThan(ToSet(a), id) <==> other in OlderThan(ToSet(b), id) {
        if other in ids { var k :| 0 <= k < |ids| && ids[k] == other; }
      }
      forall other ensures other in OlderThan(Tried(a, lostA), id) <==> other in OlderThan(Tried(b, lostB), id) {
        if other in ids { var k :| 0 <= k < |ids| && ids[k] == other; }
      }
      SameRoom(limits, slots, running, ToSet(a), Tried(a, lostA), ToSet(b), Tried(b, lostB), id);
      assert id in ids;
    }
  }

  // --- the loop follows the rule -----------------------------------------------------------------------------------

  /** The row of a scan that was started, or could not be. */
  function StartedRow(row: Row, env: Env, id: ScanId): Row {
    row.(status := Running, startedAt := Some(env.markedAt(id)))
  }

  function LostRow(row: Row, env: Env, id: ScanId): Row {
    row.(status := Failed, startedAt := Some(env.markedAt(id)), finishedAt := Some(env.failedAt(id)),
         errorCode := Some(ScanError))
  }

  /** The tables and `_running` after a pump that tried these scans: nothing else changed. */
  ghost predicate Did(db: Db, running: map<ScanId, Slot>, env: Env, after: Pump) {
    && RanAfter(db, running, after) && RowsAfter(db, env, after)
    && (forall id :: id in after.started ==> env.starts(id) && id !in after.lost)
    && (forall id :: id in after.lost ==> !env.starts(id))
  }

  predicate RowsAfter(db: Db, env: Env, after: Pump) {
    && after.db == db.(scans := after.db.scans) && after.db.scans.Keys == db.scans.Keys
    && forall id :: id in db.scans ==> after.db.scans[id] == RowAfter(db.scans[id], env, after, id)
  }

  predicate RanAfter(db: Db, running: map<ScanId, Slot>, after: Pump) {
    after.running == running + SlotsIn(AllSlots(db), ToSet(after.started))
  }

  function RowAfter(row: Row, env: Env, after: Pump, id: ScanId): Row {
    if id in after.started then StartedRow(row, env, id) else if id in after.lost then LostRow(row, env, id) else row
  }

  /** A snapshot: queued scans in order, none of them running. */
  ghost predicate Snapshot(db: Db, running: map<ScanId, Slot>, ids: seq<ScanId>) {
    && Ordered(false, ids)
    && forall id :: id in ids ==> id in db.scans && db.scans[id].status == Queued && id !in running
  }

  lemma {:induction false} LastTurn(limits: Limits, p: Pump, ids: seq<ScanId>, env: Env)
    requires ids != []
    ensures var q := PumpAll(limits, p, ids[..|ids| - 1], env);
      PumpAll(limits, p, ids, env)
      == if |q.running| >= limits.maxScans then q else PumpOne(limits, q, ids[|ids| - 1], env)
    decreases ids
  {
    hide PumpOne;
    if |ids| > 1 && |p.running| < limits.maxScans {
      var front := ids[..|ids| - 1];
      LastTurn(limits, PumpOne(limits, p, ids[0], env), ids[1..], env);
      assert ids[1..][..|ids| - 2] == front[1..];
    }
  }

  ghost predicate Served(limits: Limits, db: Db, running: map<ScanId, Slot>, ids: seq<ScanId>, env: Env, after: Pump)
    requires forall id :: id in ids ==> id in db.scans
  {
    OldestFirst(limits, AllSlots(db), running, ids, after.started, after.lost) && Did(db, running, env, after)
  }

  lemma {:induction false} LoopServes(limits: Limits, db: Db, running: map<ScanId, Slot>, ids: seq<ScanId>, env: Env)
    requires Snapshot(db, running, ids)
    ensures Served(limits, db, running, ids, env, PumpAll(limits, Pump(db, running, map[], []), ids, env))
  {
    var p := Pump(db, running, map[], []);
    hide OldestFirst, HasRoom, Did, PumpAll, Served;
    if ids == [] {
      NothingServed(limits, db, running, env);
      assert PumpAll(limits, p, ids, env) == p by { EmptyLoop(limits, p, env); }
    } else {
      var front, id := ids[..|ids| - 1], ids[|ids| - 1];
      LastTurn(limits, p, ids, env);
      assert Snapshot(db, running, front);
      LoopServes(limits, db, running, front, env);
      assert ids == front + [id];
      TurnServes(limits, db, running, front, id, env, PumpAll(limits, p, front, env));
    }
  }

  lemma EmptyLoop(limits: Limits, p: Pump, env: Env)
    ensures PumpAll(limits, p, [], env) == p
  {
  }

  lemma NothingServed(limits: Limits, db: Db, running: map<ScanId, Slot>, env: Env)
    ensures Served(limits, db, running, [], env, Pump(db, running, map[], []))
  {
    assert SlotsIn(AllSlots(db), ToSet([])) == map[];
  }

  /** What the loop counts when it comes to its next scan, in terms of what it tried before. */
  lemma Counted(db: Db, running: map<ScanId, Slot>, q: Pump)
    requires RanAfter(db, running, q) && Ordered(false, q.started)
    requires forall id :: id in q.started ==> id in db.scans && id !in running && id !in q.lost
    requires forall id :: id in q.lost ==> id in db.scans && q.lost[id] == AllSlots(db)[id]
    ensures |q.running| == |running| + |q.started|
    ensures q.running + q.lost == running + SlotsIn(AllSlots(db), Tried(q.started, q.lost))
  {
    OrderedCount(q.started);
    var slots := AllSlots(db);
    SlotsSplit(slots, running, ToSet(q.started), q.lost);
  }

  lemma SlotsSplit(slots: map<ScanId, Slot>, running: map<ScanId, Slot>, started: set<ScanId>, lost: map<ScanId, Slot>)
    requires started <= slots.Keys && started !! running.Keys
    requires forall id :: id in lost ==> id in slots && lost[id] == slots[id]
    ensures |running + SlotsIn(slots, started)| == |running| + |started|
    ensures (running + SlotsIn(slots, started)) + lost == running + SlotsIn(slots, started + lost.Keys)
  {
    var ran, all := SlotsIn(slots, started), SlotsIn(slots, started + lost.Keys);
    assert ran.Keys == started && all.Keys == started + lost.Keys;
    assert forall id :: id in all ==> all[id] == slots[id];
    assert forall id :: id in ran ==> ran[id] == slots[id];
    hide SlotsIn;
    assert (running + ran).Keys == running.Keys + started;
    assert |running + ran| == |(running + ran).Keys|;
    SameSum(running, ran, lost, all);
  }

  lemma SameSum(running: map<ScanId, Slot>, ran: map<ScanId, Slot>, lost: map<ScanId, Slot>, all: map<ScanId, Slot>)
    requires all.Keys == ran.Keys + lost.Keys
    requires forall id :: id in lost ==> all[id] == lost[id]
    requires forall id :: id in ran ==> all[id] == ran[id]
    ensures (running + ran) + lost == running + all
  {
    var left, right := (running + ran) + lost, running + all;
    assert left.Keys == right.Keys;
    assert forall id :: id in left ==> left[id] == right[id];
  }

  lemma TurnServes(limits: Limits, db: Db, running: map<ScanId, Slot>, front: seq<ScanId>, id: ScanId, env: Env, q: Pump)
    requires Snapshot(db, running, front + [id])
    requires (forall other :: other in front ==> other in db.scans) && Served(limits, db, running, front, env, q)
    ensures forall other :: other in front + [id] ==> other in db.scans
    ensures Served(limits, db, running, front + [id], env,
                   if |q.running| >= limits.maxScans then q else PumpOne(limits, q, id, env))
  {
    var slots := AllSlots(db);
    var after := if |q.running| >= limits.maxScans then q else PumpOne(limits, q, id, env);
    SnapshotGrows(db, running, front, id);
    ServedIs(limits, db, running, front, env, q);
    hide OldestFirst, Blocked, HasRoom, PumpOne, Snapshot;
    Counted(db, running, q);
    RoomForYoungest(limits, slots, running, q.started, q.lost, id);
    TurnDid(limits, db, running, env, q, id);
    hide Did, RanAfter;
    OneMore(limits, slots, running, front, q.started, q.lost, id, after.started, after.lost);
  }

  lemma SnapshotGrows(db: Db, running: map<ScanId, Slot>, front: seq<ScanId>, id: ScanId)
    requires Snapshot(db, running, front + [id])
    ensures Younger(AllSlots(db), front, id) && Snapshot(db, running, front)
    ensures id in db.scans && db.scans[id].status == Queued && id !in running
  {
    var ids := front + [id];
    assert ids[|front|] == id;
    forall other | other in front ensures other in ids && other < id {
      var k :| 0 <= k < |front| && front[k] == other;
      assert ids[k] == other;
    }
    forall i, j | 0 <= i < j < |front| ensures Before(false, front[i], front[j]) {
      assert ids[i] == front[i] && ids[j] == front[j];
    }
  }

  lemma ServedIs(limits: Limits, db: Db, running: map<ScanId, Slot>, ids: seq<ScanId>, env: Env, q: Pump)
    requires Snapshot(db, running, ids) && Served(limits, db, running, ids, env, q)
    ensures Ordered(false, q.started)
    ensures forall id :: id in Tried(q.started, q.lost) ==> id in ids
    ensures forall id :: id in q.started ==> id in db.scans && id !in running && id !in q.lost
    ensures forall id :: id in q.lost ==> id in db.scans && q.lost[id] == AllSlots(db)[id]
  {
    hide HasRoom, Did;
  }

  lemma TurnDid(limits: Limits, db: Db, running: map<ScanId, Slot>, env: Env, q: Pump, id: ScanId)
    requires Did(db, running, env, q) && id in db.scans && db.scans[id].status == Queued && id !in running
    requires id !in q.started && id !in q.lost
    ensures var after := PumpOne(limits, q, id, env);
      && Did(db, running, env, after)
      && if Blocked(limits, q.running + q.lost, AllSlots(db)[id]) then after == q
         else if env.starts(id) then after.started == q.started + [id] && after.lost == q.lost
         else after.started == q.started && after.lost == q.lost[id := AllSlots(db)[id]]
  {
    assert q.db.scans[id] == db.scans[id];
    assert id !in q.running by { NotRunningYet(db, running, q, id); }
    if Blocked(limits, q.running + q.lost, AllSlots(db)[id]) {
      hide Did, Blocked;
    } else {
      assert MayStart(limits, q, id) by { hide Did; }
      hide MayStart, PumpOne, Blocked;
      if env.starts(id) {
        PumpOneStarted(limits, q, id, env);
        OneStarted(db, running, env, q, id, PumpOne(limits, q, id, env));
      } else {
        PumpOneLost(limits, q, id, env);
        OneLost(db, running, env, q, id, PumpOne(limits, q, id, env));
      }
    }
  }

  lemma NotRunningYet(db: Db, running: map<ScanId, Slot>, q: Pump, id: ScanId)
    requires RanAfter(db, running, q) && id !in running && id !in q.started
    ensures id !in q.running
  {
  }

  lemma OneStarted(db: Db, running: map<ScanId, Slot>, env: Env, q: Pump, id: ScanId, after: Pump)
    requires Did(db, running, env, q) && id in db.scans && db.scans[id].status == Queued && id !in running
    requires id !in q.started && id !in q.lost && env.starts(id)
    requires after == q.(db := MarkRunning(q.db, id, env.markedAt(id)).0,
                         running := q.running[id := SlotOf(db.scans[id])], started := q.started + [id])
    ensures Did(db, running, env, after)
  {
    OneMoreRan(db, running, q, id, after);
    OneRowMarked(db, env, q, id, after);
    hide RanAfter, RowsAfter;
  }

  lemma OneRowMarked(db: Db, env: Env, q: Pump, id: ScanId, after: Pump)
    requires RowsAfter(db, env, q) && id in db.scans && db.scans[id].status == Queued
    requires id !in q.started && id !in q.lost && after.started == q.started + [id] && after.lost == q.lost
    requires after.db == MarkRunning(q.db, id, env.markedAt(id)).0
    ensures RowsAfter(db, env, after)
  {
    assert q.db.scans[id] == db.scans[id];
    assert after.db.scans == q.db.scans[id := StartedRow(db.scans[id], env, id)];
    hide MarkRunning, StartedRow, LostRow;
    assert forall other :: other in after.started <==> other in q.started || other == id;
  }

  lemma OneRowLost(db: Db, env: Env, q: Pump, id: ScanId, after: Pump)
    requires RowsAfter(db, env, q) && id in db.scans && db.scans[id].status == Queued
    requires id !in q.started && id !in q.lost && after.started == q.started && after.lost.Keys == q.lost.Keys + {id}
    requires after.db == MarkedAndFailed(q.db, id, env.markedAt(id), env.failedAt(id))
    ensures RowsAfter(db, env, after)
  {
    assert q.db.scans[id] == db.scans[id];
    assert after.db.scans == q.db.scans[id := LostRow(db.scans[id], env, id)];
    hide MarkedAndFailed, StartedRow, LostRow;
  }

  lemma OneMoreRan(db: Db, running: map<ScanId, Slot>, q: Pump, id: ScanId, after: Pump)
    requires RanAfter(db, running, q) && id in db.scans
    requires after.running == q.running[id := SlotOf(db.scans[id])] && after.started == q.started + [id]
    ensures RanAfter(db, running, after)
  {
    assert ToSet(after.started) == ToSet(q.started) + {id};
    var slots, ran := AllSlots(db), SlotsIn(AllSlots(db), ToSet(q.started));
    SlotsGrow(slots, ToSet(q.started), id);
    hide SlotsIn, AllSlots, ToSet;
    assert running + ran[id := slots[id]] == (running + ran)[id := slots[id]];
  }

  lemma SlotsGrow(slots: map<ScanId, Slot>, ids: set<ScanId>, id: ScanId)
    requires id in slots
    ensures SlotsIn(slots, ids + {id}) == SlotsIn(slots, ids)[id := slots[id]]
  {
  }

  lemma OneLost(db: Db, running: map<ScanId, Slot>, env: Env, q: Pump, id: ScanId, after: Pump)
    requires Did(db, running, env, q) && id in db.scans && db.scans[id].status == Queued
    requires id !in q.started && id !in q.lost && !env.starts(id)
    requires after == q.(db := MarkedAndFailed(q.db, id, env.markedAt(id), env.failedAt(id)),
                         lost := q.lost[id := SlotOf(db.scans[id])])
    ensures Did(db, running, env, after)
  {
    assert RanAfter(db, running, after);
    OneRowLost(db, env, q, id, after);
    hide RanAfter, RowsAfter;
  }

  /**
   * Oldest first. What a whole pump does is decided scan by scan: a scan of the snapshot is tried if and only if there
   * is room for it beside what ran before and the older scans; those that get a thread are started in order.
   */
  lemma PumpServesOldestFirst(limits: Limits, db: Db, running: map<ScanId, Slot>, env: Env)
    requires RunningMatches(db, running)
    ensures var ids := QueuedScans(db, QUEUE_LIMIT); var after := PumpFrom(limits, db, running, env);
      && (forall id :: id in ids ==> id in db.scans)
      && OldestFirst(limits, AllSlots(db), running, ids, after.started, after.lost)
      && Did(db, running, env, after)
  {
    var ids := QueuedScans(db, QUEUE_LIMIT);
    assert forall id :: id in ids ==> id in IdsWith(db, Queued);
    hide OldestFirst, Did, PumpAll, QueuedScans;
    LoopServes(limits, db, running, ids, env);
  }

  /** A scan that is passed over for a younger one was kept back by its agency or its host, never by the global limit. */
  lemma PassedOverForAReason(limits: Limits, slots: map<ScanId, Slot>, running: map<ScanId, Slot>, ids: seq<ScanId>,
                             started: seq<ScanId>, lost: map<ScanId, Slot>, older: ScanId, younger: ScanId)
    requires forall id :: id in ids ==> id in slots
    requires OldestFirst(limits, slots, running, ids, started, lost)
    requires older in ids && younger in Tried(started, lost) && older < younger && older !in Tried(started, lost)
    ensures Blocked(limits, running + SlotsIn(slots, OlderThan(Tried(started, lost), older)), slots[older])
  {
    hide Blocked;
    SubsetSize(OlderThan(ToSet(started), older), OlderThan(ToSet(started), younger));
  }
}
