/**
 * What one `pump()` does, as a function: which queued scans it starts, given the tables, the running scans and
 * which threads the operating system lets it start.
 */
module RunnerRules {
  import opened Options
  import opened OrderedKeys
  import opened ScanTable

  const QUEUE_LIMIT: nat := 1000  // the default `limit` of queued_scans()

  /** One entry of `_running`. */
  datatype Slot = Slot(agency: Agency, host: Host)

  function SlotOf(row: Row): Slot { Slot(row.agency, row.host) }

  function AgencyIds(slots: map<ScanId, Slot>, agency: Agency): set<ScanId> {
    set id | id in slots && slots[id].agency == agency
  }

  function Hosts(slots: map<ScanId, Slot>): set<Host> {
    set id | id in slots :: slots[id].host
  }

  /** The agency's limit or a scan on the same host keeps this slot from starting. */
  predicate Blocked(limits: Limits, counted: map<ScanId, Slot>, slot: Slot) {
    |AgencyIds(counted, slot.agency)| >= limits.maxPerAgency || slot.host in Hosts(counted)
  }

  /**
   * A pump in progress. `lost` holds the scans this pump marked running whose thread could not be started: they left
   * `_running` again, but the pump's own `hosts` and `per_agency` still count them.
   */
  datatype Pump = Pump(db: Db, running: map<ScanId, Slot>, lost: map<ScanId, Slot>, started: seq<ScanId>)

  /** What the environment answers during a pump: whether a thread starts, and the clock at each transaction. */
  datatype Env = Env(starts: ScanId -> bool, markedAt: ScanId -> int, failedAt: ScanId -> int)

  predicate MayStart(limits: Limits, p: Pump, id: ScanId) {
    id in p.db.scans && id !in p.running && !Blocked(limits, p.running + p.lost, SlotOf(p.db.scans[id]))
  }

  /** One turn of the loop in `pump()` for a scan that was queued in the snapshot. */
  function PumpOne(limits: Limits, p: Pump, id: ScanId, env: Env): Pump {
    if !MayStart(limits, p, id) then p
    else
      var slot := SlotOf(p.db.scans[id]);
      var (db, marked) := MarkRunning(p.db, id, env.markedAt(id));
      if !marked then p
      else if env.starts(id) then p.(db := db, running := p.running[id := slot], started := p.started + [id])
      else p.(db := FailScan(db, id, ScanError, env.failedAt(id)), lost := p.lost[id := slot])
  }

  function PumpAll(limits: Limits, p: Pump, ids: seq<ScanId>, env: Env): Pump
    decreases ids
  {
    if ids == [] || |p.running| >= limits.maxScans then p
    else PumpAll(limits, PumpOne(limits, p, ids[0], env), ids[1..], env)
  }

  /** One whole `pump()` with nothing else going on. */
  function PumpFrom(limits: Limits, db: Db, running: map<ScanId, Slot>, env: Env): Pump {
    PumpAll(limits, Pump(db, running, map[], []), QueuedScans(db, QUEUE_LIMIT), env)
  }

  // --- safety --------------------------------------------------------------------------------------

  predicate DistinctHosts(running: map<ScanId, Slot>) {
    forall a, b :: a in running && b in running && a != b ==> running[a].host != running[b].host
  }

  /** The limits of the service: in total, for one agency, and one scan at a time for a host. */
  ghost predicate WithinLimits(limits: Limits, running: map<ScanId, Slot>) {
    && |running| <= limits.maxScans
    && (forall agency :: |AgencyIds(running, agency)| <= limits.maxPerAgency)
    && DistinctHosts(running)
  }

  /** `_running` names existing scans that left the queue, under their own agency and host. */
  predicate RunningMatches(db: Db, running: map<ScanId, Slot>) {
    forall id :: id in running ==>
      id in db.scans && running[id] == SlotOf(db.scans[id]) && db.scans[id].status != Queued
  }

  lemma MoreCountedBlocksMore(limits: Limits, few: map<ScanId, Slot>, many: map<ScanId, Slot>, slot: Slot)
    requires forall id :: id in few ==> id in many && many[id] == few[id]
    requires Blocked(limits, few, slot)
    ensures Blocked(limits, many, slot)
  {
    SubsetSize(AgencyIds(few, slot.agency), AgencyIds(many, slot.agency));
    if slot.host in Hosts(few) {
      var id :| id in few && few[id].host == slot.host;
      assert many[id].host == slot.host;
    }
  }

  lemma OneMoreForItsAgency(running: map<ScanId, Slot>, id: ScanId, slot: Slot, agency: Agency)
    requires id !in running
    ensures |AgencyIds(running[id := slot], agency)|
         == |AgencyIds(running, agency)| + (if agency == slot.agency then 1 else 0)
  {
    assert AgencyIds(running[id := slot], agency)
        == AgencyIds(running, agency) + (if agency == slot.agency then {id} else {});
  }

  lemma FreeHostStaysDistinct(running: map<ScanId, Slot>, id: ScanId, slot: Slot)
    requires DistinctHosts(running) && slot.host !in Hosts(running)
    ensures DistinctHosts(running[id := slot])
  {
    forall a | a in running ensures running[a].host != slot.host {
      assert running[a].host in Hosts(running);
    }
  }

  lemma StartingKeepsLimits(limits: Limits, running: map<ScanId, Slot>, id: ScanId, slot: Slot)
    requires WithinLimits(limits, running) && id !in running
    requires |running| < limits.maxScans && !Blocked(limits, running, slot)
    ensures WithinLimits(limits, running[id := slot])
  {
    var after := running[id := slot];
    forall agency ensures |AgencyIds(after, agency)| <= limits.maxPerAgency {
      OneMoreForItsAgency(running, id, slot, agency);
    }
    FreeHostStaysDistinct(running, id, slot);
  }

  lemma StoppingKeepsLimits(limits: Limits, running: map<ScanId, Slot>, id: ScanId)
    requires WithinLimits(limits, running)
    ensures WithinLimits(limits, running - {id})
  {
    var after := running - {id};
    SubsetSize(after.Keys, running.Keys);
    forall agency ensures |AgencyIds(after, agency)| <= limits.maxPerAgency {
      SubsetSize(AgencyIds(after, agency), AgencyIds(running, agency));
    }
  }

  // --- maximality of the greedy loop ------------------------------------------------------------------

  /** A queued scan has a reason to wait: the global limit, its agency's limit or a scan counted on its host. */
  predicate Waits(limits: Limits, db: Db, running: map<ScanId, Slot>, lost: map<ScanId, Slot>, id: ScanId) {
    id in db.scans && db.scans[id].status == Queued ==>
      |running| >= limits.maxScans || Blocked(limits, running + lost, SlotOf(db.scans[id]))
  }

  /** What holds between two turns of the loop. */
  ghost predicate PumpInvariant(limits: Limits, p: Pump) {
    && WithinLimits(limits, p.running)
    && RunningMatches(p.db, p.running)
    && DbConsistent(p.db)
    && p.running.Keys !! p.lost.Keys
  }

  /** `after` counts at least what `p` counted, runs at least what `p` ran, and only advanced the table. */
  ghost predicate PumpGrew(p: Pump, after: Pump) {
    && (forall id :: id in p.running ==> id in after.running && after.running[id] == p.running[id])
    && (forall id :: id in p.lost ==> id in after.lost && after.lost[id] == p.lost[id])
    && DbAdvances(p.db, after.db)
    && after.db.scans.Keys == p.db.scans.Keys
    && after.running.Keys !! after.lost.Keys
  }

  /** A scan that may start is queued, so marking it succeeds: nothing else has taken it out of the queue. */
  lemma NotBlockedByRunning(limits: Limits, p: Pump, id: ScanId)
    requires MayStart(limits, p, id) && p.running.Keys !! p.lost.Keys
    ensures !Blocked(limits, p.running, SlotOf(p.db.scans[id]))
  {
    if Blocked(limits, p.running, SlotOf(p.db.scans[id])) {
      MoreCountedBlocksMore(limits, p.running, p.running + p.lost, SlotOf(p.db.scans[id]));
    }
  }

  lemma PumpOneStarts(limits: Limits, p: Pump, id: ScanId, env: Env)
    requires PumpInvariant(limits, p) && |p.running| < limits.maxScans && id !in p.lost
    requires MayStart(limits, p, id) && p.db.scans[id].status == Queued && env.starts(id)
    ensures PumpInvariant(limits, PumpOne(limits, p, id, env))
    ensures PumpGrew(p, PumpOne(limits, p, id, env))
    ensures PumpOne(limits, p, id, env).lost == p.lost
  {
    hide WithinLimits, DbConsistent, DbAdvances, Blocked;
    NotBlockedByRunning(limits, p, id);
    StartingKeepsLimits(limits, p.running, id, SlotOf(p.db.scans[id]));
    MarkAdvances(p.db, id, env.markedAt(id));
  }

  lemma AdvancingKeepsMatches(db: Db, after: Db, running: map<ScanId, Slot>)
    requires RunningMatches(db, running) && DbAdvances(db, after)
    ensures RunningMatches(after, running)
  {
    forall id | id in running
      ensures id in after.scans && running[id] == SlotOf(after.scans[id]) && after.scans[id].status != Queued
    {
      assert RowAdvances(db.scans[id], after.scans[id]);
    }
  }

  /** Marking a queued scan and failing it at once. */
  function MarkedAndFailed(db: Db, id: ScanId, markedAt: int, failedAt: int): Db {
    FailScan(MarkRunning(db, id, markedAt).0, id, ScanError, failedAt)
  }

  lemma MarkedAndFailedAdvances(db: Db, id: ScanId, markedAt: int, failedAt: int)
    requires DbConsistent(db) && id in db.scans && db.scans[id].status == Queued
    ensures var after := MarkedAndFailed(db, id, markedAt, failedAt);
            DbConsistent(after) && DbAdvances(db, after) && after.scans.Keys == db.scans.Keys
            && after.scans[id].status == Failed
  {
    hide DbConsistent, RowAdvances;
    var marked := MarkRunning(db, id, markedAt).0;
    MarkAdvances(db, id, markedAt);
    FailAdvances(marked, id, ScanError, failedAt);
    AdvancingIsTransitive(db, marked, FailScan(marked, id, ScanError, failedAt));
  }

  lemma PumpOneStarted(limits: Limits, p: Pump, id: ScanId, env: Env)
    requires MayStart(limits, p, id) && p.db.scans[id].status == Queued && env.starts(id)
    ensures PumpOne(limits, p, id, env) == p.(
      db := MarkRunning(p.db, id, env.markedAt(id)).0,
      running := p.running[id := SlotOf(p.db.scans[id])],
      started := p.started + [id])
  {
    hide Blocked;
  }

  lemma PumpOneLost(limits: Limits, p: Pump, id: ScanId, env: Env)
    requires MayStart(limits, p, id) && p.db.scans[id].status == Queued && !env.starts(id)
    ensures PumpOne(limits, p, id, env) == p.(
      db := MarkedAndFailed(p.db, id, env.markedAt(id), env.failedAt(id)),
      lost := p.lost[id := SlotOf(p.db.scans[id])])
  {
    hide Blocked;
  }

  lemma PumpOneLoses(limits: Limits, p: Pump, id: ScanId, env: Env)
    requires PumpInvariant(limits, p) && |p.running| < limits.maxScans && id !in p.lost
    requires MayStart(limits, p, id) && p.db.scans[id].status == Queued && !env.starts(id)
    ensures PumpInvariant(limits, PumpOne(limits, p, id, env))
    ensures PumpGrew(p, PumpOne(limits, p, id, env))
    ensures PumpOne(limits, p, id, env).lost.Keys == p.lost.Keys + {id}
  {
    hide PumpInvariant, PumpGrew, Blocked, PumpOne, MarkedAndFailed, SlotOf, DbAdvances;
    var db := MarkedAndFailed(p.db, id, env.markedAt(id), env.failedAt(id));
    InvariantIsConsistent(limits, p);
    MarkedAndFailedAdvances(p.db, id, env.markedAt(id), env.failedAt(id));
    PumpOneLost(limits, p, id, env);
    LosingKeeps(limits, p, id, SlotOf(p.db.scans[id]), db);
  }

  lemma InvariantIsConsistent(limits: Limits, p: Pump)
    requires PumpInvariant(limits, p)
    ensures DbConsistent(p.db)
  {
  }

  lemma LosingKeeps(limits: Limits, p: Pump, id: ScanId, slot: Slot, db: Db)
    requires PumpInvariant(limits, p) && id !in p.running && id !in p.lost
    requires DbConsistent(db) && DbAdvances(p.db, db) && db.scans.Keys == p.db.scans.Keys
    ensures PumpInvariant(limits, p.(db := db, lost := p.lost[id := slot]))
    ensures PumpGrew(p, p.(db := db, lost := p.lost[id := slot]))
  {
    AdvancingKeepsMatches(p.db, db, p.running);
    hide WithinLimits, DbConsistent, DbAdvances, RunningMatches;
  }

  lemma PumpOneSkips(limits: Limits, p: Pump, id: ScanId, env: Env)
    requires !(MayStart(limits, p, id) && p.db.scans[id].status == Queued)
    ensures PumpOne(limits, p, id, env) == p
  {
  }

  lemma StandingStillGrows(limits: Limits, p: Pump)
    requires PumpInvariant(limits, p)
    ensures PumpGrew(p, p)
  {
  }

  lemma PumpOneStep(limits: Limits, p: Pump, id: ScanId, env: Env)
    requires PumpInvariant(limits, p) && |p.running| < limits.maxScans && id !in p.lost
    ensures PumpInvariant(limits, PumpOne(limits, p, id, env))
    ensures PumpGrew(p, PumpOne(limits, p, id, env))
    ensures PumpOne(limits, p, id, env).lost.Keys <= p.lost.Keys + {id}
  {
    hide PumpOne, PumpInvariant, PumpGrew;
    if MayStart(limits, p, id) && p.db.scans[id].status == Queued {
      if env.starts(id) {
        PumpOneStarts(limits, p, id, env);
      } else {
        PumpOneLoses(limits, p, id, env);
      }
    } else {
      StandingStillGrows(limits, p);
      PumpOneSkips(limits, p, id, env);
    }
  }

  lemma GrowthKeepsWaiting(limits: Limits, p: Pump, after: Pump, id: ScanId)
    requires PumpGrew(p, after) && Waits(limits, p.db, p.running, p.lost, id) && id in p.db.scans
    ensures Waits(limits, after.db, after.running, after.lost, id)
  {
    SubsetSize(p.running.Keys, after.running.Keys);
    if Blocked(limits, p.running + p.lost, SlotOf(p.db.scans[id])) {
      MoreCountedBlocksMore(limits, p.running + p.lost, after.running + after.lost, SlotOf(p.db.scans[id]));
    }
    assert RowAdvances(p.db.scans[id], after.db.scans[id]);
  }

  lemma {:induction false} PumpAllIsMaximal(limits: Limits, p: Pump, ids: seq<ScanId>, env: Env)
    requires PumpInvariant(limits, p)
    requires Ordered(false, ids) && forall id :: id in ids ==> id !in p.lost
    ensures PumpInvariant(limits, PumpAll(limits, p, ids, env))
    ensures PumpGrew(p, PumpAll(limits, p, ids, env))
    ensures var after := PumpAll(limits, p, ids, env);
            forall id :: id in ids ==> Waits(limits, after.db, after.running, after.lost, id)
    decreases ids
  {
    if ids != [] && |p.running| < limits.maxScans {
      var next := PumpOne(limits, p, ids[0], env);
      PumpOneStep(limits, p, ids[0], env);
      forall id | id in ids[1..] ensures id !in next.lost {
        assert id in ids && id != ids[0];
      }
      PumpAllIsMaximal(limits, next, ids[1..], env);
      var after := PumpAll(limits, p, ids, env);
      PumpGrewTransitive(p, next, after);
      forall id | id in ids ensures Waits(limits, after.db, after.running, after.lost, id) {
        if id == ids[0] {
          PumpOneWaits(limits, p, id, env);
          if id in p.db.scans { GrowthKeepsWaiting(limits, next, after, id); }
        } else {
          assert id in ids[1..];
        }
      }
    }
  }

  lemma PumpOneWaits(limits: Limits, p: Pump, id: ScanId, env: Env)
    requires PumpInvariant(limits, p) && |p.running| < limits.maxScans && id !in p.lost
    ensures var next := PumpOne(limits, p, id, env); Waits(limits, next.db, next.running, next.lost, id)
  {
    hide WithinLimits, DbConsistent, Blocked;
    if MayStart(limits, p, id) && p.db.scans[id].status == Queued {
      assert PumpOne(limits, p, id, env).db.scans[id].status != Queued;
    } else {
      PumpOneSkips(limits, p, id, env);
      assert id in p.running ==> p.db.scans[id].status != Queued;
    }
  }

  lemma PumpGrewTransitive(a: Pump, b: Pump, c: Pump)
    requires PumpGrew(a, b) && PumpGrew(b, c)
    ensures PumpGrew(a, c)
  {
    AdvancingIsTransitive(a.db, b.db, c.db);
  }

  /**
   * The greedy loop ends maximal: when the queue fits the limit of 1000, no scan that is still queued could start,
   * counting also the scans whose thread this pump could not start.
   */
  lemma PumpLeavesNothingStartable(limits: Limits, db: Db, running: map<ScanId, Slot>, env: Env)
    requires DbConsistent(db) && WithinLimits(limits, running) && RunningMatches(db, running)
    requires |IdsWith(db, Queued)| <= QUEUE_LIMIT
    ensures var after := PumpFrom(limits, db, running, env);
            WithinLimits(limits, after.running) && RunningMatches(after.db, after.running)
            && DbConsistent(after.db) && DbAdvances(db, after.db)
            && forall id :: Waits(limits, after.db, after.running, after.lost, id)
  {
    var p := Pump(db, running, map[], []);
    QueuedScansFit(db, QUEUE_LIMIT);
    PumpAllIsMaximal(limits, p, QueuedScans(db, QUEUE_LIMIT), env);
    var after := PumpFrom(limits, db, running, env);
    forall id ensures Waits(limits, after.db, after.running, after.lost, id) {
      if id in after.db.scans && after.db.scans[id].status == Queued {
        assert RowAdvances(db.scans[id], after.db.scans[id]);
        assert id in IdsWith(db, Queued);
      }
    }
  }
}
