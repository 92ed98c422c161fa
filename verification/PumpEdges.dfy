/** Where `pump()` falls short of "nothing that could run is left waiting", and exactly when. */
module PumpEdges {
  import opened Options
  import opened OrderedKeys
  import opened ScanTable
  import opened RunnerRules

  /** These scans could all run side by side as far as hosts and agencies are concerned. */
  ghost predicate Compatible(limits: Limits, slots: map<ScanId, Slot>) {
    && DistinctHosts(slots)
    && (forall agency :: |AgencyIds(slots, agency)| <= limits.maxPerAgency)
  }

  function Elements(ids: seq<ScanId>): (all: set<ScanId>)
    ensures forall id :: id in all <==> id in ids
    ensures |all| <= |ids|
  {
    if ids == [] then {} else {ids[0]} + Elements(ids[1..])
  }

  /** The slots the given queued scans ask for. */
  function SlotsOf(db: Db, ids: set<ScanId>): map<ScanId, Slot> {
    map id | id in ids && id in db.scans :: SlotOf(db.scans[id])
  }

  lemma UnblockedStaysCompatible(limits: Limits, slots: map<ScanId, Slot>, id: ScanId, slot: Slot)
    requires Compatible(limits, slots) && id !in slots && !Blocked(limits, slots, slot)
    ensures Compatible(limits, slots[id := slot])
  {
    var after := slots[id := slot];
    forall agency ensures |AgencyIds(after, agency)| <= limits.maxPerAgency {
      OneMoreForItsAgency(slots, id, slot, agency);
    }
    FreeHostStaysDistinct(slots, id, slot);
  }

  lemma CompatibleIsUnblocked(limits: Limits, slots: map<ScanId, Slot>, id: ScanId, slot: Slot)
    requires Compatible(limits, slots[id := slot]) && id !in slots
    ensures !Blocked(limits, slots, slot)
  {
    var after := slots[id := slot];
    OneMoreForItsAgency(slots, id, slot, slot.agency);
    assert |AgencyIds(after, slot.agency)| <= limits.maxPerAgency;
    forall other | other in slots ensures slots[other].host != slot.host {
      assert after[other].host != after[id].host;
    }
  }

  lemma FewerStayCompatible(limits: Limits, few: map<ScanId, Slot>, many: map<ScanId, Slot>)
    requires Compatible(limits, many)
    requires forall id :: id in few ==> id in many && many[id] == few[id]
    ensures Compatible(limits, few)
  {
    forall agency ensures |AgencyIds(few, agency)| <= limits.maxPerAgency {
      SubsetSize(AgencyIds(few, agency), AgencyIds(many, agency));
    }
  }

  /** `p` is a pump that has not been able to start a single thread, with `ids` still to look at. */
  ghost predicate AllLostSoFar(limits: Limits, p: Pump, ids: seq<ScanId>, env: Env) {
    && p.running == map[] && limits.maxScans > 0
    && (forall id :: !env.starts(id))
    && Compatible(limits, p.lost)
    && Ordered(false, ids)
    && (forall id :: id in ids ==> id !in p.lost && id in p.db.scans && p.db.scans[id].status == Queued)
  }

  /** One scan was tried in vain, or passed over. */
  ghost predicate LostOrPassed(limits: Limits, p: Pump, id: ScanId, next: Pump) {
    && id in p.db.scans && id !in p.lost
    && if Blocked(limits, p.lost, SlotOf(p.db.scans[id])) then next == p
       else && next.lost == p.lost[id := SlotOf(p.db.scans[id])]
            && next.db.scans.Keys == p.db.scans.Keys
            && next.db.scans[id].status == Failed
            && forall other :: other in p.db.scans && other != id ==> next.db.scans[other] == p.db.scans[other]
  }

  lemma OneLost(limits: Limits, p: Pump, ids: seq<ScanId>, env: Env)
    requires AllLostSoFar(limits, p, ids, env) && ids != []
    ensures LostOrPassed(limits, p, ids[0], PumpOne(limits, p, ids[0], env))
    ensures AllLostSoFar(limits, PumpOne(limits, p, ids[0], env), ids[1..], env)
  {
    var id := ids[0];
    assert id in ids;
    assert p.running + p.lost == p.lost;
    var next := PumpOne(limits, p, id, env);
    if !Blocked(limits, p.lost, SlotOf(p.db.scans[id])) {
      PumpOneLost(limits, p, id, env);
      UnblockedStaysCompatible(limits, p.lost, id, SlotOf(p.db.scans[id]));
    }
    forall other | other in ids[1..]
      ensures other !in next.lost && other in next.db.scans && next.db.scans[other].status == Queued
    {
      assert other in ids && other != id;
    }
  }

  /** Which scans a pump without threads failed, and that it changed no other. */
  ghost predicate FailedExactly(p: Pump, ids: seq<ScanId>, after: Pump) {
    && after.running == map[]
    && after.db.scans.Keys == p.db.scans.Keys
    && (forall id :: id in p.lost ==> id in after.lost && after.lost[id] == p.lost[id])
    && (forall id :: id in after.lost && id !in p.lost ==>
          id in ids && id in p.db.scans && after.lost[id] == SlotOf(p.db.scans[id]) && after.db.scans[id].status == Failed)
    && (forall id :: id in p.db.scans && (id in p.lost || id !in after.lost) ==> after.db.scans[id] == p.db.scans[id])
  }

  lemma FailedExactlyComposes(limits: Limits, p: Pump, ids: seq<ScanId>, next: Pump, after: Pump)
    requires ids != [] && LostOrPassed(limits, p, ids[0], next) && FailedExactly(next, ids[1..], after)
    requires Ordered(false, ids)
    ensures FailedExactly(p, ids, after)
  {
    assert forall id :: id in ids[1..] ==> id in ids;
    assert ids[0] in ids;
    hide Ordered, Blocked;
    if next != p {
      FailedExactlyAfterOne(p, ids[0], ids, next, ids[1..], after);
    }
  }

  lemma FailedExactlyAfterOne(p: Pump, id: ScanId, ids: seq<ScanId>, next: Pump, rest: seq<ScanId>, after: Pump)
    requires id in p.db.scans && id !in p.lost && id in ids && FailedExactly(next, rest, after)
    requires forall k :: k in rest ==> k in ids
    requires next.lost == p.lost[id := SlotOf(p.db.scans[id])]
    requires next.db.scans.Keys == p.db.scans.Keys && next.db.scans[id].status == Failed
    requires forall other :: other in p.db.scans && other != id ==> next.db.scans[other] == p.db.scans[other]
    ensures FailedExactly(p, ids, after)
  {
    hide SlotOf;
    assert after.db.scans[id] == next.db.scans[id] && after.lost[id] == next.lost[id];
  }

  /** What a pump leaves when no thread starts: exactly the scans it could not even try are still queued. */
  lemma {:induction false} AllLost(limits: Limits, p: Pump, ids: seq<ScanId>, env: Env)
    requires AllLostSoFar(limits, p, ids, env)
    ensures FailedExactly(p, ids, PumpAll(limits, p, ids, env))
    ensures Compatible(limits, PumpAll(limits, p, ids, env).lost)
    decreases ids
  {
    if ids != [] {
      var next := PumpOne(limits, p, ids[0], env);
      OneLost(limits, p, ids, env);
      AllLost(limits, next, ids[1..], env);
      hide Compatible, PumpOne, Blocked, LostOrPassed, FailedExactly;
      FailedExactlyComposes(limits, p, ids, next, PumpAll(limits, next, ids[1..], env));
    }
  }

  /** When the queued scans are compatible with one another and with what was lost, each of them is tried. */
  lemma {:induction false} CompatibleQueueIsTried(limits: Limits, p: Pump, ids: seq<ScanId>, env: Env)
    requires AllLostSoFar(limits, p, ids, env)
    requires Compatible(limits, p.lost + SlotsOf(p.db, Elements(ids)))
    ensures forall id :: id in ids ==> id in PumpAll(limits, p, ids, env).lost
    decreases ids
  {
    if ids != [] {
      var id := ids[0];
      var next := PumpOne(limits, p, id, env);
      OneLost(limits, p, ids, env);
      FirstIsTried(limits, p, ids, next);
      CompatibleQueueIsTried(limits, next, ids[1..], env);
      AllLost(limits, next, ids[1..], env);
    }
  }

  lemma RestAsksForLess(p: Pump, ids: seq<ScanId>, next: Pump)
    requires ids != [] && Ordered(false, ids)
    requires forall id :: id in ids ==> id !in p.lost && id in p.db.scans
    requires next.lost == p.lost[ids[0] := SlotOf(p.db.scans[ids[0]])]
    requires forall other :: other in p.db.scans && other != ids[0] ==>
               other in next.db.scans && next.db.scans[other] == p.db.scans[other]
    ensures var all := p.lost + SlotsOf(p.db, Elements(ids));
            var rest := next.lost + SlotsOf(next.db, Elements(ids[1..]));
            forall other :: other in rest ==> other in all && all[other] == rest[other]
  {
    var all := p.lost + SlotsOf(p.db, Elements(ids));
    var rest := next.lost + SlotsOf(next.db, Elements(ids[1..]));
    forall other | other in rest ensures other in all && all[other] == rest[other] {
      if other in Elements(ids[1..]) {
        assert other in ids && other != ids[0];
      } else if other == ids[0] {
        assert other in ids;
      }
    }
  }

  lemma FirstIsTried(limits: Limits, p: Pump, ids: seq<ScanId>, next: Pump)
    requires ids != [] && LostOrPassed(limits, p, ids[0], next) && Ordered(false, ids)
    requires Compatible(limits, p.lost + SlotsOf(p.db, Elements(ids)))
    requires forall id :: id in ids ==> id !in p.lost && id in p.db.scans
    ensures ids[0] in next.lost
    ensures Compatible(limits, next.lost + SlotsOf(next.db, Elements(ids[1..])))
  {
    hide Compatible, Blocked;
    var id := ids[0];
    var slot := SlotOf(p.db.scans[id]);
    var all := p.lost + SlotsOf(p.db, Elements(ids));
    assert id in ids;
    FewerStayCompatible(limits, p.lost[id := slot], all);
    CompatibleIsUnblocked(limits, p.lost, id, slot);
    RestAsksForLess(p, ids, next);
    FewerStayCompatible(limits, next.lost + SlotsOf(next.db, Elements(ids[1..])), all);
  }

  lemma NoThreadQueueEmptiesIff(limits: Limits, db: Db, env: Env)
    requires limits.Valid() && |IdsWith(db, Queued)| <= QUEUE_LIMIT
    requires forall id :: !env.starts(id)
    ensures var after := PumpFrom(limits, db, map[], env);
      && after.running == map[]
      && (IdsWith(after.db, Queued) == {} <==> Compatible(limits, SlotsOf(db, IdsWith(db, Queued))))
  {
    hide Compatible, AllLostSoFar, FailedExactly, PumpAll, IdsWith, SlotsOf, QueuedScans;
    var p := Pump(db, map[], map[], []);
    var ids := QueuedScans(db, QUEUE_LIMIT);
    QueuedScansFit(db, QUEUE_LIMIT);
    NothingLostYet(limits, db, ids, env);
    AllLost(limits, p, ids, env);
    var after := PumpAll(limits, p, ids, env);
    assert after == PumpFrom(limits, db, map[], env);
    assert after.running == map[] by { FailedOnlyFromIdle(p, ids, after); }
    if Compatible(limits, SlotsOf(db, IdsWith(db, Queued))) {
      assert Elements(ids) == IdsWith(db, Queued);
      assert p.lost + SlotsOf(db, IdsWith(db, Queued)) == SlotsOf(db, IdsWith(db, Queued));
      hide Ordered;
      CompatibleQueueIsTried(limits, p, ids, env);
      AllTriedEmptiesTheQueue(p, ids, after);
    } else if IdsWith(after.db, Queued) == {} {
      EmptiedQueueWasLost(p, ids, after);
      FewerStayCompatible(limits, SlotsOf(db, IdsWith(db, Queued)), after.lost);
    }
  }

  lemma RunningNeverShrinks(limits: Limits, p: Pump, id: ScanId, env: Env)
    ensures p.running.Keys <= PumpOne(limits, p, id, env).running.Keys
  {
  }

  lemma {:induction false} WholePumpNeverShrinks(limits: Limits, p: Pump, ids: seq<ScanId>, env: Env)
    ensures p.running.Keys <= PumpAll(limits, p, ids, env).running.Keys
    decreases ids
  {
    hide PumpOne;
    if ids != [] && |p.running| < limits.maxScans {
      RunningNeverShrinks(limits, p, ids[0], env);
      WholePumpNeverShrinks(limits, PumpOne(limits, p, ids[0], env), ids[1..], env);
    }
  }

  function Threadless(env: Env): Env { env.(starts := _ => false) }

  lemma NothingStartedOne(limits: Limits, p: Pump, id: ScanId, env: Env)
    requires p.running == map[] && PumpOne(limits, p, id, env).running == map[]
    ensures PumpOne(limits, p, id, env) == PumpOne(limits, p, id, Threadless(env))
  {
    hide Blocked;
  }

  /** A pump that leaves nothing running went as if there were no threads: each scan it tried was lost. */
  lemma {:induction false} NothingStarted(limits: Limits, p: Pump, ids: seq<ScanId>, env: Env)
    requires p.running == map[] && PumpAll(limits, p, ids, env).running == map[]
    ensures PumpAll(limits, p, ids, env) == PumpAll(limits, p, ids, Threadless(env))
    decreases ids
  {
    hide PumpOne, Threadless;
    if ids != [] && |p.running| < limits.maxScans {
      var next := PumpOne(limits, p, ids[0], env);
      WholePumpNeverShrinks(limits, next, ids[1..], env);
      assert next.running == map[];
      NothingStartedOne(limits, p, ids[0], env);
      NothingStarted(limits, next, ids[1..], env);
    }
  }

  /**
   * When an idle runner's pump started nothing, every thread it asked for having failed, the queue is empty if and
   * only if the queued scans were compatible: distinct hosts, and no agency with more than its limit. Otherwise scans
   * are still queued and nobody is left to pump, because the pump keeps counting the scans it failed to start.
   */
  lemma WithoutThreadsTheQueueEmptiesIff(limits: Limits, db: Db, env: Env)
    requires limits.Valid() && |IdsWith(db, Queued)| <= QUEUE_LIMIT
    requires PumpFrom(limits, db, map[], env).running == map[]
    ensures IdsWith(PumpFrom(limits, db, map[], env).db, Queued) == {}
       <==> Compatible(limits, SlotsOf(db, IdsWith(db, Queued)))
  {
    hide Compatible, IdsWith, SlotsOf, QueuedScans, PumpAll;
    NothingStarted(limits, Pump(db, map[], map[], []), QueuedScans(db, QUEUE_LIMIT), env);
    NoThreadQueueEmptiesIff(limits, db, Threadless(env));
  }

  lemma FailedOnlyFromIdle(p: Pump, ids: seq<ScanId>, after: Pump)
    requires FailedExactly(p, ids, after)
    ensures after.running == map[]
  {
  }

  lemma AllTriedEmptiesTheQueue(p: Pump, ids: seq<ScanId>, after: Pump)
    requires FailedExactly(p, ids, after) && p.lost == map[]
    requires forall id :: id in IdsWith(p.db, Queued) ==> id in ids
    requires forall id :: id in ids ==> id in after.lost
    ensures IdsWith(after.db, Queued) == {}
  {
    forall id | id in after.db.scans ensures after.db.scans[id].status != Queued {
      assert id in IdsWith(p.db, Queued) ==> id in ids;
    }
  }

  lemma EmptiedQueueWasLost(p: Pump, ids: seq<ScanId>, after: Pump)
    requires FailedExactly(p, ids, after) && p.lost == map[] && IdsWith(after.db, Queued) == {}
    ensures var slots := SlotsOf(p.db, IdsWith(p.db, Queued));
            forall id :: id in slots ==> id in after.lost && after.lost[id] == slots[id]
  {
    var slots := SlotsOf(p.db, IdsWith(p.db, Queued));
    forall id | id in slots ensures id in after.lost && after.lost[id] == slots[id] {
      assert id !in IdsWith(after.db, Queued);
    }
  }

  lemma NothingLostYet(limits: Limits, db: Db, ids: seq<ScanId>, env: Env)
    requires limits.Valid() && forall id :: !env.starts(id)
    requires Ordered(false, ids) && forall id :: id in ids ==> id in IdsWith(db, Queued)
    ensures AllLostSoFar(limits, Pump(db, map[], map[], []), ids, env)
  {
    assert forall agency :: AgencyIds(map[], agency) == {};
  }

  /** Two scans of one host, no thread to be had: the first is failed, the second stays queued with nothing running. */
  lemma FailedStartStrandsTheNextScan(limits: Limits, row: Row, env: Env)
    requires limits.Valid() && (forall id :: !env.starts(id)) && row.status == Queued && RowConsistent(row)
    ensures var db := Db({}, map[1 := row, 2 := row], map[]);
      && DbConsistent(db)
      && IdsWith(db, Queued) == {1, 2}
      && PumpFrom(limits, db, map[], env).running == map[]
      && IdsWith(PumpFrom(limits, db, map[], env).db, Queued) != {}
  {
    hide PumpFrom;
    var db := Db({}, map[1 := row, 2 := row], map[]);
    assert IdsWith(db, Queued) == {1, 2};
    NoThreadQueueEmptiesIff(limits, db, env);
    var slots := SlotsOf(db, IdsWith(db, Queued));
    assert slots[1].host == slots[2].host;
  }

  // --- more than 1000 queued scans -------------------------------------------------------------------

  lemma {:induction false} BlockedQueueIsLeftAlone(limits: Limits, p: Pump, ids: seq<ScanId>, env: Env)
    requires forall id :: id in ids ==> !MayStart(limits, p, id)
    ensures PumpAll(limits, p, ids, env) == p
  {
    if ids != [] {
      assert ids[0] in ids;
      BlockedQueueIsLeftAlone(limits, p, ids[1..], env);
    }
  }

  function UpTo(n: nat): (ids: set<ScanId>)
    ensures forall id: nat :: id in ids <==> 1 <= id <= n
    ensures |ids| == n
  {
    if n == 0 then {} else UpTo(n - 1) + {n}
  }

  /** A busy host with `n` scans waiting for it, and one more scan behind them for a host that is free. */
  function LongQueue(n: nat, agency: Agency, client: Client, busy: Host, free: Host): Db {
    var ids := UpTo(n + 1) + {0};
    Db({}, map id | id in ids ::
      if id == 0 then Row(agency, client, busy, 0, Running, Some(0), None, None, None)
      else Row(agency, client, if id <= n then busy else free, 0, Queued, None, None, None, None), map[])
  }

  lemma LongQueueIsQueued(n: nat, agency: Agency, client: Client, busy: Host, free: Host)
    ensures IdsWith(LongQueue(n, agency, client, busy, free), Queued) == UpTo(n + 1)
    ensures DbConsistent(LongQueue(n, agency, client, busy, free))
  {
  }

  lemma OneRunning(limits: Limits, agency: Agency, host: Host)
    requires limits.maxScans >= 2 && limits.maxPerAgency >= 2
    ensures var running: map<ScanId, Slot> := map[0 := Slot(agency, host)];
      && WithinLimits(limits, running)
      && forall other :: Blocked(limits, running, Slot(agency, other)) <==> other == host
  {
    var running: map<ScanId, Slot> := map[0 := Slot(agency, host)];
    forall a ensures |AgencyIds(running, a)| <= 1 {
      SubsetSize(AgencyIds(running, a), {0});
    }
    assert running[0].host in Hosts(running);
  }

  /**
   * pump() reads only the 1000 oldest queued scans, so a longer queue, where the caps allow it, can hide a scan that
   * could run.
   */
  lemma LongQueueHidesAScan(limits: Limits, agency: Agency, client: Client, busy: Host, free: Host, env: Env)
    requires busy != free && limits.maxScans >= 2 && limits.maxPerAgency >= 2
    requires limits.maxQueued > QUEUE_LIMIT && limits.maxQueuedPerAgency > QUEUE_LIMIT
    ensures var db := LongQueue(QUEUE_LIMIT, agency, client, busy, free);
      var running := map[0 := Slot(agency, busy)];
      var after := PumpFrom(limits, db, running, env);
      && InReach(limits, db, running)
      && |IdsWith(db, Queued)| == QUEUE_LIMIT + 1
      && after == Pump(db, running, map[], [])
      && !Waits(limits, after.db, after.running, after.lost, QUEUE_LIMIT + 1)
  {
    var db := LongQueue(QUEUE_LIMIT, agency, client, busy, free);
    var running := map[0 := Slot(agency, busy)];
    var ids := QueuedScans(db, QUEUE_LIMIT);
    LongQueueIsQueued(QUEUE_LIMIT, agency, client, busy, free);
    OneRunning(limits, agency, busy);
    ShortQueueIsWithinCaps(limits, db);
    hide LongQueue, QueuedScans, WithinLimits, WithinCaps, Blocked, IdsWith, UpTo, MayStart, Waits, PumpAll;
    QueuedScansAreTheOldest(db, QUEUE_LIMIT);
    YoungestIsLeftOut(ids, QUEUE_LIMIT + 1);
    forall id | id in ids ensures !MayStart(limits, Pump(db, running, map[], []), id) {
      LongQueueRows(limits, QUEUE_LIMIT, agency, client, busy, free, id);
    }
    BlockedQueueIsLeftAlone(limits, Pump(db, running, map[], []), ids, env);
    LongQueueRows(limits, QUEUE_LIMIT, agency, client, busy, free, QUEUE_LIMIT + 1);
  }

  lemma ShortQueueIsWithinCaps(limits: Limits, db: Db)
    requires |IdsWith(db, Queued)| <= limits.maxQueued && |IdsWith(db, Queued)| <= limits.maxQueuedPerAgency
    ensures WithinCaps(limits, db)
  {
    forall agency ensures |QueuedOf(db, agency)| <= limits.maxQueuedPerAgency {
      SubsetSize(QueuedOf(db, agency), IdsWith(db, Queued));
    }
  }

  /** The tables and the running map keep everything that every state of the service keeps. */
  ghost predicate InReach(limits: Limits, db: Db, running: map<ScanId, Slot>) {
    DbConsistent(db) && WithinCaps(limits, db) && WithinLimits(limits, running) && RunningMatches(db, running)
  }

  /** After a pump each queued scan waits for a limit or a host that running scans take up. */
  ghost predicate NothingLeftOut(limits: Limits, db: Db, running: map<ScanId, Slot>, env: Env) {
    var after := PumpFrom(limits, db, running, env);
    forall id :: Waits(limits, after.db, after.running, map[], id)
  }

  ghost predicate EveryPumpIsEnough(limits: Limits) {
    forall db, running, env: Env :: InReach(limits, db, running) && (forall id :: env.starts(id)) ==>
      NothingLeftOut(limits, db, running, env)
  }

  lemma {:induction false} NothingIsLost(limits: Limits, p: Pump, ids: seq<ScanId>, env: Env)
    requires forall id :: env.starts(id)
    ensures PumpAll(limits, p, ids, env).lost == p.lost
    decreases ids
  {
    hide MayStart;
    if ids != [] && |p.running| < limits.maxScans {
      NothingIsLost(limits, PumpOne(limits, p, ids[0], env), ids[1..], env);
    }
  }

  lemma ShortQueueLeavesNothingOut(limits: Limits, db: Db, running: map<ScanId, Slot>, env: Env)
    requires InReach(limits, db, running) && (forall id :: env.starts(id)) && limits.maxQueued <= QUEUE_LIMIT
    ensures NothingLeftOut(limits, db, running, env)
  {
    hide Waits, PumpAll, QueuedScans, WithinLimits, DbConsistent, RunningMatches, QueuedOf;
    PumpLeavesNothingStartable(limits, db, running, env);
    NothingIsLost(limits, Pump(db, running, map[], []), QueuedScans(db, QUEUE_LIMIT), env);
  }

  /**
   * For which settings a pump whose threads all start is enough, whatever the state of the service: where the queue of
   * one agency may be as long as the whole queue, exactly for those that cap the queue at 1000.
   */
  lemma PumpIsEnoughIff(limits: Limits, agency: Agency, client: Client, busy: Host, free: Host)
    requires busy != free && limits.maxScans >= 2 && limits.maxPerAgency >= 2
    requires limits.maxQueuedPerAgency >= limits.maxQueued
    ensures EveryPumpIsEnough(limits) <==> limits.maxQueued <= QUEUE_LIMIT
  {
    hide InReach, PumpFrom, Waits, LongQueue;
    if limits.maxQueued <= QUEUE_LIMIT {
      forall db, running, env: Env | InReach(limits, db, running) && (forall id :: env.starts(id))
        ensures NothingLeftOut(limits, db, running, env)
      {
        hide NothingLeftOut;
        ShortQueueLeavesNothingOut(limits, db, running, env);
      }
    } else {
      var env := Env(_ => true, _ => 0, _ => 0);
      LongQueueHidesAScan(limits, agency, client, busy, free, env);
      var db := LongQueue(QUEUE_LIMIT, agency, client, busy, free);
      assert !NothingLeftOut(limits, db, map[0 := Slot(agency, busy)], env);
    }
  }

  lemma LongQueueRows(limits: Limits, n: nat, agency: Agency, client: Client, busy: Host, free: Host, id: ScanId)
    requires busy != free && limits.maxScans >= 2 && limits.maxPerAgency >= 2 && 1 <= id <= n + 1
    ensures var db := LongQueue(n, agency, client, busy, free); var running := map[0 := Slot(agency, busy)];
      && RunningMatches(db, running)
      && (id <= n ==> !MayStart(limits, Pump(db, running, map[], []), id))
      && (id > n ==> !Waits(limits, db, running, map[], id))
  {
    OneRunning(limits, agency, busy);
    hide Blocked, WithinLimits;
    assert map[0 := Slot(agency, busy)] + map[] == map[0 := Slot(agency, busy)];
  }

  /** The oldest of the ids 1 to `last`, fewer than `last` of them, leave out the youngest. */
  lemma YoungestIsLeftOut(ids: seq<ScanId>, last: nat)
    requires |ids| < last
    requires forall id, other :: id in ids && other in UpTo(last) && other !in ids ==> id < other
    ensures last !in ids
  {
    if last in ids {
      forall other | other in UpTo(last) ensures other in Elements(ids) {
        assert other !in ids ==> last < other;
      }
      SubsetSize(UpTo(last), Elements(ids));
      assert false;
    }
  }}
