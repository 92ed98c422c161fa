/**
 * The repository and the runner as the objects the service uses, each method proved against the functions of
 * `ScanTable` and `RunnerRules`. Here one call runs at a time; `ServiceRuns` interleaves them.
 */
module ScanService {
  import opened Options
  import opened OrderedKeys
  import opened ScanTable
  import opened RunnerRules

  class Repository {
    var clients: set<(Agency, Client)>
    var scans: map<ScanId, Row>
    var claims: map<(Agency, Key), Claim>

    function Tables(): Db
      reads this
    {
      Db(clients, scans, claims)
    }

    constructor ()
      ensures Tables() == Db({}, map[], map[])
    {
      clients, scans, claims := {}, map[], map[];
    }

    method CreateScan(limits: Limits, req: Request, now: int, id: ScanId) returns (answer: Answer)
      modifies this
      ensures (Tables(), answer) == ScanTable.CreateScan(old(Tables()), limits, req, now, id)
    {
      if (req.agency, req.client) !in clients {
        return NotFound;
      }
      var kept := claims;
      if req.key.Some? {
        var cutoff := now - limits.ClaimMillis();
        kept := map k | k in claims && claims[k].createdAt > cutoff :: claims[k];
        var claimKey := (req.agency, req.key.value);
        if claimKey in kept {
          var seen := kept[claimKey];
          if seen.bodyHash != req.bodyHash {
            return KeyConflict;  // rolled back: the purge is not kept
          }
          claims := kept;
          return Replayed(seen.scan);
        }
      }
      var queued := |IdsWith(Tables(), Queued)|;
      var mine := |QueuedOf(Tables(), req.agency)|;
      if queued >= limits.maxQueued || mine >= limits.maxQueuedPerAgency {
        return QueueFull;
      }
      if id in scans {
        return IdTaken;
      }
      scans := scans[id := NewRow(req, now)];
      claims := if req.key.None? then kept
                else kept[(req.agency, req.key.value) := Claim(req.bodyHash, id, now)];
      return Accepted(id);
    }

    method QueuedScans(limit: nat) returns (ids: seq<ScanId>)
      ensures ids == ScanTable.QueuedScans(Tables(), limit)
    {
      ids := Listing(IdsWith(Tables(), Queued), false);
      if |ids| > limit {
        ids := ids[..limit];
      }
    }

    method MarkRunning(id: ScanId, now: int) returns (marked: bool)
      modifies this`scans
      ensures (Tables(), marked) == ScanTable.MarkRunning(old(Tables()), id, now)
    {
      marked := id in scans && scans[id].status == Queued;
      if marked {
        scans := scans[id := scans[id].(status := Running, startedAt := Some(now))];
      }
    }

    method FinishScan(id: ScanId, path: Path, now: int)
      modifies this`scans
      ensures Tables() == ScanTable.FinishScan(old(Tables()), id, path, now)
      ensures id in old(scans) && old(scans)[id].status == Running ==>
        id in scans && scans[id].status == Completed && scans[id].resultPath == Some(path)
        && scans[id].finishedAt == Some(now)
    {
      if id in scans && scans[id].status == Running {
        scans := scans[id := scans[id].(
          status := Completed, finishedAt := Some(now), resultPath := Some(path))];
      }
    }

    method FailScan(id: ScanId, code: ErrorCode, now: int)
      modifies this`scans
      ensures Tables() == ScanTable.FailScan(old(Tables()), id, code, now)
      ensures id in old(scans) && !Terminal(old(scans)[id].status) ==>
        id in scans && scans[id].status == Failed && scans[id].errorCode == Some(code) && scans[id].finishedAt == Some(now)
    {
      if id in scans && (scans[id].status == Queued || scans[id].status == Running) {
        scans := scans[id := scans[id].(status := Failed, finishedAt := Some(now), errorCode := Some(code))];
      }
    }

    method RecoverInterrupted(now: int) returns (failed: nat)
      modifies this`scans
      ensures Tables() == ScanTable.RecoverInterrupted(old(Tables()), now)
      ensures forall id :: id in old(scans) && old(scans)[id].status == Running ==>
        id in scans && scans[id].status == Failed && scans[id].errorCode == Some(Interrupted)
      ensures failed == |IdsWith(old(Tables()), Running)|
    {
      failed := |IdsWith(Tables(), Running)|;
      scans := map id | id in scans ::
        if scans[id].status == Running
        then scans[id].(status := Failed, finishedAt := Some(now), errorCode := Some(Interrupted))
        else scans[id];
    }
  }

  /** How a scan's own thread ended: with a stored report, or with an exception. */
  datatype Ending = Reported(path: Path) | Broke

  class ScanRunner {
    const limits: Limits
    const repo: Repository
    var running: map<ScanId, Slot>
    var closed: bool

    ghost predicate Valid()
      reads this, repo
    {
      && limits.Valid()
      && DbConsistent(repo.Tables())
      && WithinLimits(limits, running)
      && RunningMatches(repo.Tables(), running)
    }

    constructor (limits: Limits, repo: Repository)
      requires limits.Valid() && DbConsistent(repo.Tables())
      ensures Valid() && this.limits == limits && this.repo == repo && running == map[] && !closed
    {
      this.limits, this.repo, running, closed := limits, repo, map[], false;
      new;
      assert forall agency :: AgencyIds(running, agency) == {};
    }

    /** The state a pump works on; `lost` and `threads` are its own record of what it could not and could start. */
    function InPump(lost: map<ScanId, Slot>, threads: seq<ScanId>): RunnerRules.Pump
      reads this, repo
    {
      RunnerRules.Pump(repo.Tables(), running, lost, threads)
    }

    /** `{host for _, host in ...}` and `Counter(agency for agency, _ in ...)` over `_running.values()`. */
    method Tally() returns (hosts: set<Host>, perAgency: map<Agency, nat>)
      ensures Tallies(hosts, perAgency, running)
    {
      hosts, perAgency := {}, map[];
      var left := running.Keys;
      ghost var done: map<ScanId, Slot> := map[];
      while left != {}
        invariant left <= running.Keys
        invariant done.Keys == running.Keys - left
        invariant forall id :: id in done ==> done[id] == running[id]
        invariant Tallies(hosts, perAgency, done)
        decreases |left|
      {
        hide Tallies;
        var id :| id in left;
        TallyGrows(hosts, perAgency, done, id, running[id]);
        hosts := hosts + {running[id].host};
        perAgency := perAgency[running[id].agency := Get(perAgency, running[id].agency) + 1];
        left := left - {id};
        done := done[id := running[id]];
      }
      assert done == running;
    }

    /** Starts every queued scan the limits allow; `threads` are the scans whose thread was started. */
    method Pump(env: Env) returns (threads: seq<ScanId>)
      requires Valid()
      modifies this`running, repo`scans
      ensures Valid()
      ensures closed ==> running == old(running) && repo.Tables() == old(repo.Tables()) && threads == []
      ensures !closed ==>
        var p := PumpFrom(limits, old(repo.Tables()), old(running), env);
        running == p.running && repo.Tables() == p.db && threads == p.started
      ensures DbAdvances(old(repo.Tables()), repo.Tables())
    {
      hide WithinLimits, DbConsistent, RunningMatches, DbAdvances, PumpAll;
      AdvancingIsReflexive(repo.Tables());
      threads := [];
      if !closed {
        threads := PumpOpen(env);
      }
    }

    method PumpOpen(env: Env) returns (threads: seq<ScanId>)
      requires Valid()
      modifies this`running, repo`scans
      ensures Valid()
      ensures var p := PumpFrom(limits, old(repo.Tables()), old(running), env);
              running == p.running && repo.Tables() == p.db && threads == p.started
      ensures DbAdvances(old(repo.Tables()), repo.Tables())
    {
      hide PumpInvariant, WithinLimits, DbConsistent, RunningMatches, DbAdvances, Tallies, QueuedScans, PumpOne, Ordered;
      threads := [];
      ghost var start := InPump(map[], []);
      ghost var lost: map<ScanId, Slot> := map[];
      var hosts, perAgency := Tally();
      assert running + lost == running;
      var scans := repo.QueuedScans(QUEUE_LIMIT);
      QueuedScansInOrder(repo.Tables(), QUEUE_LIMIT);
      ghost var goal := PumpAll(limits, start, scans, env);
      PumpAllKeeps(limits, start, scans, env);
      assert scans[0..] == scans;
      var i := 0;
      while i < |scans|
        invariant 0 <= i <= |scans|
        invariant PumpInvariant(limits, InPump(lost, threads))
        invariant forall j :: i <= j < |scans| ==> scans[j] !in lost
        invariant Tallies(hosts, perAgency, running + lost)
        invariant goal == PumpAll(limits, InPump(lost, threads), scans[i..], env)
      {
        if |running| >= limits.maxScans {
          break;
        }
        assert scans[i..][0] == scans[i] && scans[i..][1..] == scans[i + 1..];
        Later(scans, i);
        threads, hosts, perAgency, lost := PumpTurn(env, scans[i], threads, hosts, perAgency, lost);
        i := i + 1;
      }
    }

    /** The body of the loop in pump(), for one scan of the snapshot. */
    method PumpTurn(env: Env, id: ScanId, threads: seq<ScanId>, hosts: set<Host>, perAgency: map<Agency, nat>,
                    ghost lost: map<ScanId, Slot>)
      returns (threads': seq<ScanId>, hosts': set<Host>, perAgency': map<Agency, nat>, ghost lost': map<ScanId, Slot>)
      requires PumpInvariant(limits, InPump(lost, threads))
      requires |running| < limits.maxScans && id !in lost
      requires Tallies(hosts, perAgency, running + lost)
      modifies this`running, repo`scans
      ensures InPump(lost', threads') == PumpOne(limits, old(InPump(lost, threads)), id, env)
      ensures PumpInvariant(limits, InPump(lost', threads'))
      ensures lost'.Keys <= lost.Keys + {id}
      ensures Tallies(hosts', perAgency', running + lost')
    {
      hide PumpInvariant, PumpGrew, DbConsistent, PumpOne, Blocked, Tallies;
      threads', hosts', perAgency', lost' := threads, hosts, perAgency, lost;
      ghost var p := InPump(lost, threads);
      PumpOneStep(limits, p, id, env);
      if id !in repo.scans {
        PumpOneSkips(limits, p, id, env);
        return;
      }
      var row := repo.scans[id];
      TallyDecides(limits, hosts, perAgency, running + lost, SlotOf(row));
      if id in running || Get(perAgency, row.agency) >= limits.maxPerAgency || row.host in hosts {
        PumpOneSkips(limits, p, id, env);
        return;
      }
      threads', hosts', perAgency', lost' := StartScan(env, id, row, threads, hosts, perAgency, lost);
    }

    /** The rest of that body, for a scan nothing blocks: mark it, count it, start its thread. */
    method StartScan(env: Env, id: ScanId, row: Row, threads: seq<ScanId>, hosts: set<Host>,
                     perAgency: map<Agency, nat>, ghost lost: map<ScanId, Slot>)
      returns (threads': seq<ScanId>, hosts': set<Host>, perAgency': map<Agency, nat>, ghost lost': map<ScanId, Slot>)
      requires MayStart(limits, InPump(lost, threads), id) && id !in lost
      requires id in repo.scans && repo.scans[id] == row
      requires Tallies(hosts, perAgency, running + lost)
      modifies this`running, repo`scans
      ensures InPump(lost', threads') == PumpOne(limits, old(InPump(lost, threads)), id, env)
      ensures Tallies(hosts', perAgency', running + lost')
    {
      hide PumpOne, Blocked, Tallies;
      threads', hosts', perAgency', lost' := threads, hosts, perAgency, lost;
      ghost var p := InPump(lost, threads);
      var marked := repo.MarkRunning(id, env.markedAt(id));
      if !marked {
        PumpOneSkips(limits, p, id, env);
        return;
      }
      running := running[id := SlotOf(row)];
      hosts' := hosts + {row.host};
      perAgency' := perAgency[row.agency := Get(perAgency, row.agency) + 1];
      TallyGrows(hosts, perAgency, p.running + lost, id, SlotOf(row));
      if env.starts(id) {
        PumpOneStarted(limits, p, id, env);
        threads' := threads + [id];
        assert running + lost == (p.running + lost)[id := SlotOf(row)];
      } else {
        PumpOneLost(limits, p, id, env);
        running := running - {id};
        assert running == p.running;
        lost' := lost[id := SlotOf(row)];
        assert p.running + lost' == (p.running + lost)[id := SlotOf(row)];
        repo.FailScan(id, ScanError, env.failedAt(id));
      }
    }

    /** Start-up: what was running when the service stopped is failed, then the queue is pumped. */
    method Recover(now: int, env: Env) returns (failed: nat, threads: seq<ScanId>)
      requires Valid() && running == map[] && !closed
      modifies this`running, repo`scans
      ensures Valid()
      ensures failed == |IdsWith(old(repo.Tables()), Running)|
      ensures var p := PumpFrom(limits, RecoverInterrupted(old(repo.Tables()), now), map[], env);
              running == p.running && repo.Tables() == p.db && threads == p.started
    {
      RecoveryAdvances(repo.Tables(), now);
      failed := repo.RecoverInterrupted(now);
      threads := Pump(env);
    }

    method Close()
      modifies this`closed
      ensures closed
    {
      closed := true;
    }

    /** What `_work` writes when the scan is over. */
    method StoreEnding(id: ScanId, ending: Ending, now: int)
      modifies repo`scans
      ensures repo.Tables() == Ended(old(repo.Tables()), id, ending, now)
    {
      match ending {
        case Reported(path) => repo.FinishScan(id, path, now);
        case Broke => repo.FailScan(id, ScanError, now);
      }
    }

    /** The end of `_work`: the outcome is stored, the scan leaves `_running`, and the queue is pumped. */
    method WorkEnds(id: ScanId, ending: Ending, now: int, env: Env) returns (threads: seq<ScanId>)
      requires Valid()
      modifies this`running, repo`scans
      ensures Valid()
      ensures var ended := Ended(old(repo.Tables()), id, ending, now);
              var left := old(running) - {id};
              if closed then running == left && repo.Tables() == ended && threads == []
              else var p := PumpFrom(limits, ended, left, env);
                   running == p.running && repo.Tables() == p.db && threads == p.started
      ensures DbAdvances(old(repo.Tables()), repo.Tables())
    {
      hide WithinLimits, DbConsistent, RunningMatches, DbAdvances, PumpFrom, Ended;
      ghost var before := repo.Tables();
      EndedAdvances(before, id, ending, now);
      AdvancingKeepsMatches(before, Ended(before, id, ending, now), running);
      StoreEnding(id, ending, now);
      StoppingKeepsLimits(limits, running, id);
      FewerMatch(repo.Tables(), running, id);
      running := running - {id};
      threads := Pump(env);
      AdvancingIsTransitive(before, Ended(before, id, ending, now), repo.Tables());
    }
  }

  function Ended(db: Db, id: ScanId, ending: Ending, now: int): Db {
    match ending
    case Reported(path) => FinishScan(db, id, path, now)
    case Broke => FailScan(db, id, ScanError, now)
  }

  lemma EndedAdvances(db: Db, id: ScanId, ending: Ending, now: int)
    requires DbConsistent(db)
    ensures DbConsistent(Ended(db, id, ending, now)) && DbAdvances(db, Ended(db, id, ending, now))
  {
    match ending {
      case Reported(path) => FinishAdvances(db, id, path, now);
      case Broke => FailAdvances(db, id, ScanError, now);
    }
  }

  lemma FewerMatch(db: Db, running: map<ScanId, Slot>, id: ScanId)
    requires RunningMatches(db, running)
    ensures RunningMatches(db, running - {id})
  {
  }

  lemma Later(scans: seq<ScanId>, i: nat)
    requires Ordered(false, scans) && i < |scans|
    ensures forall j :: i < j < |scans| ==> scans[j] != scans[i]
  {
    assert forall j :: i < j < |scans| ==> Before(false, scans[i], scans[j]);
  }

  lemma AdvancingIsReflexive(db: Db)
    ensures DbAdvances(db, db)
  {
  }

  /** What a whole pump keeps, without what it leaves waiting. */
  lemma PumpAllKeeps(limits: Limits, p: RunnerRules.Pump, ids: seq<ScanId>, env: Env)
    requires WithinLimits(limits, p.running) && RunningMatches(p.db, p.running) && DbConsistent(p.db)
    requires Ordered(false, ids) && p.lost == map[]
    ensures PumpInvariant(limits, p)
    ensures var after := PumpAll(limits, p, ids, env);
      && WithinLimits(limits, after.running) && RunningMatches(after.db, after.running) && DbConsistent(after.db)
      && DbAdvances(p.db, after.db)
  {
    hide WithinLimits, RunningMatches, DbConsistent, DbAdvances, PumpAll, Waits;
    PumpAllIsMaximal(limits, p, ids, env);
  }

  lemma QueuedScansInOrder(db: Db, limit: nat)
    ensures Ordered(false, QueuedScans(db, limit))
  {
  }

  function Get(counts: map<Agency, nat>, agency: Agency): nat {
    if agency in counts then counts[agency] else 0
  }

  /** The two locals of pump(): the hosts and the number of scans of each agency among the counted ones. */
  ghost predicate Tallies(hosts: set<Host>, perAgency: map<Agency, nat>, counted: map<ScanId, Slot>) {
    hosts == Hosts(counted) && forall agency :: Get(perAgency, agency) == |AgencyIds(counted, agency)|
  }

  lemma TallyDecides(limits: Limits, hosts: set<Host>, perAgency: map<Agency, nat>, counted: map<ScanId, Slot>, slot: Slot)
    requires Tallies(hosts, perAgency, counted)
    ensures Get(perAgency, slot.agency) >= limits.maxPerAgency || slot.host in hosts <==> Blocked(limits, counted, slot)
  {
    assert Get(perAgency, slot.agency) == |AgencyIds(counted, slot.agency)|;
  }

  lemma TallyGrows(hosts: set<Host>, perAgency: map<Agency, nat>, counted: map<ScanId, Slot>, id: ScanId, slot: Slot)
    requires Tallies(hosts, perAgency, counted) && id !in counted
    ensures Tallies(hosts + {slot.host}, perAgency[slot.agency := Get(perAgency, slot.agency) + 1], counted[id := slot])
  {
    var after := counted[id := slot];
    assert after[id].host in Hosts(after);
    forall host | host in Hosts(counted) ensures host in Hosts(after) {
      var other :| other in counted && counted[other].host == host;
      assert after[other].host == host;
    }
    forall agency ensures
      Get(perAgency[slot.agency := Get(perAgency, slot.agency) + 1], agency) == |AgencyIds(after, agency)|
    {
      assert Get(perAgency, agency) == |AgencyIds(counted, agency)|;
      OneMoreForItsAgency(counted, id, slot, agency);
    }
  }
}
