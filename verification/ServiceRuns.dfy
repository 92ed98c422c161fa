/**
 * The scan service as a transition system. Request threads, scan threads and the operator take steps in any order; one
 * step is one database transaction, one critical section of the runner's lock, or one turn inside `pump()`. The process
 * may die at any step and start again. The theorems hold in every state of every run.
 */
module ServiceRuns {
  import opened Options
  import opened OrderedKeys
  import opened ScanTable
  import opened RunnerRules
  import opened ScanService

  /** Who holds the runner's lock: nobody, or a pump before its snapshot, between two turns, or about to start a thread. */
  datatype Lock = Free | Entered | Scanning(left: seq<ScanId>) | Starting(id: ScanId, left: seq<ScanId>)

  /** A scan's own thread: scanning, or past its last transaction and about to leave `_running`. */
  datatype Phase = Working | Leaving

  /** An accepted request with an idempotency key. */
  datatype Entry = Entry(agency: Agency, key: Key, hash: Hash, id: ScanId, at: int)

  /** How a scan came to its end, and when. */
  datatype Fate =
    | ThreadEnded(id: ScanId, ending: Ending, at: int)
    | NoThread(id: ScanId, at: int)
    | FoundRunning(id: ScanId, at: int)  // by a restart

  datatype Sys = Sys(
    // the database
    db: Db,
    // the process
    up: bool, closed: bool, running: map<ScanId, Slot>, lock: Lock, workers: map<ScanId, Phase>,
    owed: nat,  // threads that must still call pump(): after a create, after leaving _running, after recovery
    lost: map<ScanId, Slot>,  // scans the last pump marked but could start no thread for
    // the world, and history for the theorems
    clock: int, started: seq<ScanId>, log: seq<Entry>, fates: set<Fate>)

  datatype Action =
    | Receive(req: Request, id: ScanId, now: int)
    | EditClients(clients: set<(Agency, Client)>)
    | EnterPump | Snapshot | Turn(now: int) | ThreadStarts | ThreadFails(now: int) | LeavePump
    | Ends(id: ScanId, ending: Ending, now: int)
    | Pops(id: ScanId)
    | Close | Crash | Start(now: int)

  predicate Init(s: Sys) {
    && s.db.scans == map[] && s.db.claims == map[]
    && !s.up && !s.closed && s.running == map[] && s.lock == Free && s.workers == map[] && s.owed == 0
    && s.lost == map[] && s.started == [] && s.log == [] && s.fates == {}
  }

  predicate Enabled(s: Sys, a: Action) {
    match a
    case Receive(_, _, now) => s.up && now >= s.clock
    case EditClients(_) => true
    case EnterPump => s.up && s.lock == Free && s.owed > 0
    case Snapshot => s.lock == Entered
    case Turn(now) => s.lock.Scanning? && s.lock.left != [] && now >= s.clock
    case ThreadStarts => s.lock.Starting?
    case ThreadFails(now) => s.lock.Starting? && s.lock.id in s.running && now >= s.clock
    case LeavePump => s.lock == Scanning([])
    case Ends(id, _, now) => id in s.workers && s.workers[id] == Working && now >= s.clock
    case Pops(id) => id in s.workers && s.workers[id] == Leaving && s.lock == Free
    case Close => s.up && s.lock == Free
    case Crash => s.up
    case Start(now) => !s.up && now >= s.clock
  }

  function EntryFor(req: Request, id: ScanId, now: int): Entry
    requires req.key.Some?
  {
    Entry(req.agency, req.key.value, req.bodyHash, id, now)
  }

  function AfterReceive(c: Limits, s: Sys, req: Request, id: ScanId, now: int): Sys {
    var (db, answer) := CreateScan(s.db, c, req, now, id);
    s.(db := db, clock := now,
       owed := if answer.Accepted? || answer.Replayed? then s.owed + 1 else s.owed,
       log := if answer.Accepted? && req.key.Some? then s.log + [EntryFor(req, id, now)] else s.log)
  }

  function AfterEnter(s: Sys): Sys
    requires s.owed > 0
  {
    if s.closed then s.(owed := s.owed - 1)
    else s.(owed := s.owed - 1, lock := Entered, lost := map[])
  }

  function AfterSnapshot(s: Sys): Sys {
    s.(lock := Scanning(QueuedScans(s.db, QUEUE_LIMIT)))
  }

  function AfterTurn(c: Limits, s: Sys, now: int): Sys
    requires s.lock.Scanning? && s.lock.left != []
  {
    var id := s.lock.left[0];
    var rest := s.lock.left[1..];
    if |s.running| >= c.maxScans then s.(lock := Scanning([]), clock := now)
    else if !MayStart(c, Pump(s.db, s.running, s.lost, s.started), id) then s.(lock := Scanning(rest), clock := now)
    else
      var slot := SlotOf(s.db.scans[id]);
      var (db, marked) := MarkRunning(s.db, id, now);
      if marked then s.(db := db, running := s.running[id := slot], lock := Starting(id, rest), clock := now)
      else s.(lock := Scanning(rest), clock := now)
  }

  function AfterThreadStarts(s: Sys): Sys
    requires s.lock.Starting?
  {
    s.(workers := s.workers[s.lock.id := Working], started := s.started + [s.lock.id], lock := Scanning(s.lock.left))
  }

  function AfterThreadFails(s: Sys, now: int): Sys
    requires s.lock.Starting? && s.lock.id in s.running
  {
    var id := s.lock.id;
    s.(db := FailScan(s.db, id, ScanError, now), running := s.running - {id}, lost := s.lost[id := s.running[id]],
       lock := Scanning(s.lock.left), clock := now, fates := s.fates + {NoThread(id, now)})
  }

  function AfterEnds(s: Sys, id: ScanId, ending: Ending, now: int): Sys {
    s.(db := Ended(s.db, id, ending, now), workers := s.workers[id := Leaving], clock := now,
       fates := s.fates + {ThreadEnded(id, ending, now)})
  }

  function AfterPops(s: Sys, id: ScanId): Sys {
    s.(running := s.running - {id}, workers := s.workers - {id}, owed := s.owed + 1)
  }

  function AfterCrash(s: Sys): Sys {
    s.(up := false, closed := false, running := map[], lock := Free, workers := map[], owed := 0, lost := map[])
  }

  function AfterStart(s: Sys, now: int): Sys {
    s.(db := RecoverInterrupted(s.db, now), up := true, owed := 1, clock := now,
       fates := s.fates + set id | id in IdsWith(s.db, Running) :: FoundRunning(id, now))
  }

  function Apply(c: Limits, s: Sys, a: Action): Sys
    requires Enabled(s, a)
  {
    match a
    case Receive(req, id, now) => AfterReceive(c, s, req, id, now)
    case EditClients(clients) => s.(db := s.db.(clients := clients))
    case EnterPump => AfterEnter(s)
    case Snapshot => AfterSnapshot(s)
    case Turn(now) => AfterTurn(c, s, now)
    case ThreadStarts => AfterThreadStarts(s)
    case ThreadFails(now) => AfterThreadFails(s, now)
    case LeavePump => s.(lock := Free)
    case Ends(id, ending, now) => AfterEnds(s, id, ending, now)
    case Pops(id) => AfterPops(s, id)
    case Close => s.(closed := true)
    case Crash => AfterCrash(s)
    case Start(now) => AfterStart(s, now)
  }

  ghost predicate Next(c: Limits, s: Sys, t: Sys) {
    exists a :: Enabled(s, a) && t == Apply(c, s, a)
  }

  /** Consecutive states of one history of the service, from an empty database. */
  ghost predicate IsRun(c: Limits, run: seq<Sys>) {
    && run != [] && Init(run[0])
    && forall i :: 0 <= i < |run| - 1 ==> Next(c, run[i], run[i + 1])
  }

  // --- the invariant ------------------------------------------------------------------------------------

  /** Each scan thread's phase agrees with its row. */
  predicate WorkersMatch(db: Db, workers: map<ScanId, Phase>) {
    forall id :: id in workers ==>
      id in db.scans && db.scans[id].status != Queued && (workers[id] == Working <==> db.scans[id].status == Running)
  }

  /** Exactly the scans in `_running` have a thread, except the one a pump is about to start a thread for. */
  predicate ThreadsMatch(s: Sys) {
    && s.running.Keys == s.workers.Keys + (if s.lock.Starting? then {s.lock.id} else {})
    && WorkersMatch(s.db, s.workers)
    && (s.lock.Starting? ==>
          (s.lock.id !in s.workers && s.lock.id in s.db.scans && s.db.scans[s.lock.id].status == Running))
  }

  predicate LostAreOver(s: Sys) {
    forall id :: id in s.lost ==> id in s.db.scans && Terminal(s.db.scans[id].status) && id !in s.running
  }

  /** A row that says `running` is a scan the process runs. */
  predicate RowsRun(s: Sys) {
    s.up ==> forall id :: id in s.db.scans && s.db.scans[id].status == Running ==> id in s.running
  }

  predicate Quiet(s: Sys) {
    s.running == map[] && s.lost == map[] && s.lock == Free && s.workers == map[] && s.owed == 0
  }

  /** The process's memory agrees with the database. */
  ghost predicate Coherent(s: Sys) {
    && DbConsistent(s.db) && RunningMatches(s.db, s.running) && (!s.up ==> Quiet(s))
    && RowsRun(s) && ThreadsMatch(s) && LostAreOver(s)
  }

  /** A queued scan the current pump need not look at again. */
  predicate Settled(c: Limits, s: Sys, id: ScanId) {
    id in s.db.scans && s.db.scans[id].status == Queued ==>
      Blocked(c, s.running + s.lost, SlotOf(s.db.scans[id]))
  }

  /**
   * No wakeup is lost: a scan that could start is in front of the pump in progress, or somebody still owes a pump. A
   * pump sees no more than `QUEUE_LIMIT` queued scans, so this is claimed when the queue cannot grow beyond that.
   */
  ghost predicate NoneForgotten(c: Limits, s: Sys) {
    c.maxQueued <= QUEUE_LIMIT && s.owed == 0 ==>
      match s.lock
      case Free => s.up && !s.closed ==> AllWait(c, s)
      case Entered => true
      case Scanning(left) => if left == [] then AllWait(c, s) else AllSettled(c, s, left)
      case Starting(_, left) => AllSettled(c, s, left)
  }

  ghost predicate AllWait(c: Limits, s: Sys) {
    forall id :: Waits(c, s.db, s.running, s.lost, id)
  }

  ghost predicate AllSettled(c: Limits, s: Sys, left: seq<ScanId>) {
    forall id :: id in left || Settled(c, s, id)
  }

  /** Each thread that was ever started was for another scan, one that has left the queue. */
  predicate StartedOnce(s: Sys) {
    && (forall i, j :: 0 <= i < j < |s.started| ==> s.started[i] != s.started[j])
    && (forall i :: 0 <= i < |s.started| ==>
          s.started[i] in s.db.scans && s.db.scans[s.started[i]].status != Queued)
    && (s.lock.Starting? ==> s.lock.id !in s.started)
  }

  /** The entry's scan is in the table, and its key claims that very scan for as long as it is younger than the lifetime. */
  predicate Remembered(c: Limits, s: Sys, e: Entry) {
    && e.id in s.db.scans && s.db.scans[e.id].createdAt == e.at && s.db.scans[e.id].agency == e.agency
    && e.at <= s.clock
    && (e.at + c.ClaimMillis() <= s.clock
        || ((e.agency, e.key) in s.db.claims && s.db.claims[(e.agency, e.key)] == Claim(e.hash, e.id, e.at)))
  }

  /** `b` was accepted under the same agency and key as the earlier `a`, a lifetime later. */
  predicate Apart(c: Limits, a: Entry, b: Entry) {
    a.agency == b.agency && a.key == b.key ==> a.at + c.ClaimMillis() <= b.at
  }

  predicate KeysApart(c: Limits, s: Sys) {
    && (forall i :: 0 <= i < |s.log| ==> Remembered(c, s, s.log[i]))
    && (forall i, j :: 0 <= i < j < |s.log| ==> Apart(c, s.log[i], s.log[j]))
  }

  ghost predicate Inv(c: Limits, s: Sys) {
    && Coherent(s) && WithinLimits(c, s.running) && NoneForgotten(c, s)
    && WithinCaps(c, s.db) && StartedOnce(s) && KeysApart(c, s)
  }

  // --- steps that only move rows forward keep the histories ----------------------------------------------

  ghost predicate OnlyAdvances(s: Sys, t: Sys) {
    && DbAdvances(s.db, t.db) && t.db.scans.Keys == s.db.scans.Keys && t.db.claims == s.db.claims
    && t.log == s.log && t.clock >= s.clock
  }

  lemma AdvancingKeepsHistories(c: Limits, s: Sys, t: Sys)
    requires WithinCaps(c, s.db) && KeysApart(c, s) && OnlyAdvances(s, t)
    ensures WithinCaps(c, t.db) && KeysApart(c, t)
  {
    hide RowAdvances;
    AdvancingKeepsCaps(c, s.db, t.db);
    forall i | 0 <= i < |t.log| ensures Remembered(c, t, t.log[i]) {
      assert Remembered(c, s, s.log[i]);
      AdvancingKeepsIdentity(s.db, t.db, s.log[i].id);
    }
  }

  lemma AdvancingKeepsIdentity(a: Db, b: Db, id: ScanId)
    requires DbAdvances(a, b) && id in a.scans
    ensures id in b.scans && b.scans[id].createdAt == a.scans[id].createdAt && b.scans[id].agency == a.scans[id].agency
    ensures SlotOf(b.scans[id]) == SlotOf(a.scans[id])
    ensures a.scans[id].status != Queued ==> b.scans[id].status != Queued
    ensures Terminal(a.scans[id].status) ==> b.scans[id] == a.scans[id]
  {
    assert RowAdvances(a.scans[id], b.scans[id]);
  }

  lemma AdvancingKeepsStarted(s: Sys, t: Sys)
    requires StartedOnce(s) && DbAdvances(s.db, t.db) && t.started == s.started
    requires t.lock == s.lock || !t.lock.Starting?
    ensures StartedOnce(t)
  {
    forall i | 0 <= i < |t.started|
      ensures t.started[i] in t.db.scans && t.db.scans[t.started[i]].status != Queued
    {
      AdvancingKeepsIdentity(s.db, t.db, s.started[i]);
    }
  }

  /** A queued scan that had to wait still has to, if the rows only advanced and at least as much is counted. */
  lemma AdvancingKeepsSettled(c: Limits, s: Sys, t: Sys, id: ScanId)
    requires DbAdvances(s.db, t.db) && t.db.scans.Keys == s.db.scans.Keys && Settled(c, s, id)
    requires forall k :: k in s.running + s.lost ==> k in t.running + t.lost && (t.running + t.lost)[k] == (s.running + s.lost)[k]
    ensures Settled(c, t, id)
  {
    if id in t.db.scans && t.db.scans[id].status == Queued {
      AdvancingKeepsIdentity(s.db, t.db, id);
      assert s.db.scans[id].status == Queued;
      MoreCountedBlocksMore(c, s.running + s.lost, t.running + t.lost, SlotOf(s.db.scans[id]));
    }
  }

  // --- a request ------------------------------------------------------------------------------------------

  /** `t` differs from `s` in the tables, the clock, the log and the owed pumps only. */
  predicate SameProcess(s: Sys, t: Sys) {
    && t.up == s.up && t.closed == s.closed && t.running == s.running && t.lock == s.lock
    && t.workers == s.workers && t.lost == s.lost
  }

  lemma NewQueuedRowIsCoherent(s: Sys, t: Sys, id: ScanId, row: Row)
    requires Coherent(s) && SameProcess(s, t) && s.up && DbConsistent(t.db)
    requires id !in s.db.scans && t.db.scans == s.db.scans[id := row] && row.status == Queued
    ensures Coherent(t)
  {
    hide DbConsistent;
  }

  lemma SameRowsAreCoherent(s: Sys, t: Sys)
    requires Coherent(s) && SameProcess(s, t) && s.up && DbConsistent(t.db) && t.db.scans == s.db.scans
    ensures Coherent(t)
  {
    hide DbConsistent;
  }

  lemma ReceiveKeepsCoherent(c: Limits, s: Sys, req: Request, id: ScanId, now: int)
    requires Coherent(s) && s.up
    ensures Coherent(AfterReceive(c, s, req, id, now))
  {
    hide CreateScan, DbConsistent, DbAdvances, Coherent;
    CoherentIsConsistent(s);
    CreateAdvances(s.db, c, req, now, id);
    if CreateScan(s.db, c, req, now, id).1 == Accepted(id) {
      CreateAddsOneQueued(s.db, c, req, now, id);
      NewQueuedRowIsCoherent(s, AfterReceive(c, s, req, id, now), id, NewRow(req, now));
    } else {
      CreateLeavesScans(s.db, c, req, now, id);
      SameRowsAreCoherent(s, AfterReceive(c, s, req, id, now));
    }
  }

  lemma ReceiveForgetsNone(c: Limits, s: Sys, req: Request, id: ScanId, now: int)
    requires NoneForgotten(c, s)
    ensures NoneForgotten(c, AfterReceive(c, s, req, id, now))
  {
    hide CreateScan, Blocked;
    var t := AfterReceive(c, s, req, id, now);
    if t.owed == 0 {
      CreateLeavesScans(s.db, c, req, now, id);
      assert forall k :: Waits(c, s.db, s.running, s.lost, k) ==> Waits(c, t.db, t.running, t.lost, k);
      assert forall k :: Settled(c, s, k) ==> Settled(c, t, k);
    }
  }

  lemma ReceiveRemembers(c: Limits, s: Sys, req: Request, id: ScanId, now: int, e: Entry)
    requires Remembered(c, s, e) && now >= s.clock && DbAdvances(s.db, AfterReceive(c, s, req, id, now).db)
    ensures Remembered(c, AfterReceive(c, s, req, id, now), e)
  {
    AdvancingKeepsIdentity(s.db, AfterReceive(c, s, req, id, now).db, e.id);
  }

  /** A request is only accepted when the key's claim, and so every earlier use of the key, has expired. */
  lemma AcceptedKeyHadExpired(c: Limits, s: Sys, req: Request, id: ScanId, now: int, e: Entry)
    requires Remembered(c, s, e) && now >= s.clock && req.key.Some?
    requires CreateScan(s.db, c, req, now, id).1 == Accepted(id)
    ensures Apart(c, e, EntryFor(req, id, now))
  {
  }

  lemma ReceiveKeepsKeysApart(c: Limits, s: Sys, req: Request, id: ScanId, now: int)
    requires KeysApart(c, s) && now >= s.clock && DbConsistent(s.db)
    ensures KeysApart(c, AfterReceive(c, s, req, id, now))
  {
    var t := AfterReceive(c, s, req, id, now);
    CreateAdvances(s.db, c, req, now, id);
    forall i | 0 <= i < |s.log| ensures Remembered(c, t, s.log[i]) {
      ReceiveRemembers(c, s, req, id, now, s.log[i]);
    }
    if t.log != s.log {
      var e := EntryFor(req, id, now);
      NewEntryIsRemembered(c, s, req, id, now);
      forall i | 0 <= i < |s.log| ensures Apart(c, s.log[i], e) {
        AcceptedKeyHadExpired(c, s, req, id, now, s.log[i]);
      }
      hide Remembered, Apart, AfterReceive, CreateScan;
      assert t.log == s.log + [e];
    }
  }

  lemma NewEntryIsRemembered(c: Limits, s: Sys, req: Request, id: ScanId, now: int)
    requires CreateScan(s.db, c, req, now, id).1 == Accepted(id) && req.key.Some?
    ensures AfterReceive(c, s, req, id, now).log == s.log + [EntryFor(req, id, now)]
    ensures Remembered(c, AfterReceive(c, s, req, id, now), EntryFor(req, id, now))
  {
  }

  lemma ReceiveStep(c: Limits, s: Sys, req: Request, id: ScanId, now: int)
    requires Inv(c, s) && s.up && now >= s.clock
    ensures Inv(c, AfterReceive(c, s, req, id, now))
    ensures DbAdvances(s.db, AfterReceive(c, s, req, id, now).db)
  {
    var t := AfterReceive(c, s, req, id, now);
    ReceiveKeepsCoherent(c, s, req, id, now);
    ReceiveForgetsNone(c, s, req, id, now);
    ReceiveKeepsKeysApart(c, s, req, id, now);
    hide Coherent, NoneForgotten, KeysApart, CreateScan, WithinLimits, WithinCaps, StartedOnce, DbConsistent, DbAdvances;
    CoherentIsConsistent(s);
    CreateAdvances(s.db, c, req, now, id);
    AdvancingKeepsStarted(s, t);
    CreateKeepsCaps(s.db, c, req, now, id);
  }

  lemma CoherentIsConsistent(s: Sys)
    requires Coherent(s)
    ensures DbConsistent(s.db)
  {
  }

  // --- one turn of a pump -----------------------------------------------------------------------------------

  lemma SettledWaits(c: Limits, s: Sys)
    requires AllSettled(c, s, [])
    ensures AllWait(c, s)
  {
    hide Blocked;
    forall id ensures Waits(c, s.db, s.running, s.lost, id) {
      assert Settled(c, s, id);
    }
  }

  /** The head of the snapshot needs no second look once its turn is over; the others keep their reasons to wait. */
  lemma TurnSettles(c: Limits, s: Sys, t: Sys)
    requires s.lock.Scanning? && s.lock.left != [] && NoneForgotten(c, s)
    requires DbAdvances(s.db, t.db) && t.db.scans.Keys == s.db.scans.Keys
    requires forall k :: k in s.running + s.lost ==>
               k in t.running + t.lost && (t.running + t.lost)[k] == (s.running + s.lost)[k]
    requires Settled(c, t, s.lock.left[0])
    ensures c.maxQueued <= QUEUE_LIMIT && s.owed == 0 ==> AllSettled(c, t, s.lock.left[1..])
  {
    if c.maxQueued <= QUEUE_LIMIT && s.owed == 0 {
      assert AllSettled(c, s, s.lock.left);
      forall id ensures id in s.lock.left[1..] || Settled(c, t, id) {
        if Settled(c, s, id) {
          AdvancingKeepsSettled(c, s, t, id);
        } else {
          assert id in s.lock.left && (id == s.lock.left[0] || id in s.lock.left[1..]);
        }
      }
    }
  }

  lemma BrokenOffForgetsNone(c: Limits, s: Sys, now: int)
    requires s.lock.Scanning? && |s.running| >= c.maxScans
    ensures NoneForgotten(c, s.(lock := Scanning([]), clock := now))
  {
    hide Blocked;
    assert AllWait(c, s.(lock := Scanning([]), clock := now));
  }

  lemma TurnBreaks(c: Limits, s: Sys, now: int)
    requires Inv(c, s) && s.lock.Scanning? && now >= s.clock && |s.running| >= c.maxScans
    ensures var t := s.(lock := Scanning([]), clock := now); Inv(c, t) && DbAdvances(s.db, t.db)
  {
    var t := s.(lock := Scanning([]), clock := now);
    hide WithinLimits, WithinCaps, KeysApart, DbAdvances, StartedOnce, Coherent, NoneForgotten;
    AdvancingIsReflexive(s.db);
    AdvancingKeepsHistories(c, s, t);
    AdvancingKeepsStarted(s, t);
    SkippedIsCoherent(s, [], now);
    BrokenOffForgetsNone(c, s, now);
  }

  lemma SkippedIsSettled(c: Limits, s: Sys, id: ScanId)
    requires RunningMatches(s.db, s.running)
    requires !(MayStart(c, Pump(s.db, s.running, s.lost, s.started), id) && s.db.scans[id].status == Queued)
    ensures Settled(c, s, id)
  {
    hide Blocked;
  }

  lemma SkippedIsCoherent(s: Sys, left: seq<ScanId>, now: int)
    requires Coherent(s) && s.lock.Scanning?
    ensures Coherent(s.(lock := Scanning(left), clock := now))
  {
    hide DbConsistent, RunningMatches;
  }

  lemma SkippedForgetsNone(c: Limits, s: Sys, now: int)
    requires NoneForgotten(c, s) && s.lock.Scanning? && s.lock.left != [] && Settled(c, s, s.lock.left[0])
    ensures NoneForgotten(c, s.(lock := Scanning(s.lock.left[1..]), clock := now))
  {
    var t := s.(lock := Scanning(s.lock.left[1..]), clock := now);
    AdvancingIsReflexive(s.db);
    hide DbAdvances, Blocked;
    TurnSettles(c, s, t);
    if c.maxQueued <= QUEUE_LIMIT && s.owed == 0 && s.lock.left[1..] == [] {
      SettledWaits(c, t);
    }
  }

  /** The head cannot start, or is not queued any more. */
  lemma TurnSkips(c: Limits, s: Sys, now: int)
    requires Inv(c, s) && s.lock.Scanning? && s.lock.left != [] && now >= s.clock
    requires var id := s.lock.left[0];
      !(MayStart(c, Pump(s.db, s.running, s.lost, s.started), id) && s.db.scans[id].status == Queued)
    ensures var t := s.(lock := Scanning(s.lock.left[1..]), clock := now); Inv(c, t) && DbAdvances(s.db, t.db)
  {
    var t := s.(lock := Scanning(s.lock.left[1..]), clock := now);
    SkippedIsSettled(c, s, s.lock.left[0]);
    hide WithinLimits, WithinCaps, Settled, KeysApart, DbAdvances, StartedOnce, MayStart, Coherent, NoneForgotten;
    AdvancingIsReflexive(s.db);
    AdvancingKeepsHistories(c, s, t);
    AdvancingKeepsStarted(s, t);
    SkippedIsCoherent(s, s.lock.left[1..], now);
    SkippedForgetsNone(c, s, now);
  }

  lemma TurnMarks(c: Limits, s: Sys, now: int)
    requires Inv(c, s) && s.lock.Scanning? && s.lock.left != [] && now >= s.clock && |s.running| < c.maxScans
    requires var id := s.lock.left[0];
      MayStart(c, Pump(s.db, s.running, s.lost, s.started), id) && s.db.scans[id].status == Queued
    ensures Inv(c, Marked(s, s.lock.left[0], now)) && DbAdvances(s.db, Marked(s, s.lock.left[0], now).db)
  {
    var id := s.lock.left[0];
    var t := Marked(s, id, now);
    MarkedAdvances(s, id, now);
    assert s.running.Keys !! s.lost.Keys;
    NotBlockedByRunning(c, Pump(s.db, s.running, s.lost, s.started), id);
    hide WithinLimits, WithinCaps, Blocked, DbAdvances, KeysApart, MarkRunning, MayStart, StartedOnce, Coherent,
      NoneForgotten;
    StartingKeepsLimits(c, s.running, id, SlotOf(s.db.scans[id]));
    AdvancingKeepsHistories(c, s, t);
    MarkedIsCoherent(s, id, now);
    MarkedStartsOnce(s, id, now);
    MarkedForgetsNone(c, s, now);
  }

  lemma MarkedForgetsNone(c: Limits, s: Sys, now: int)
    requires NoneForgotten(c, s) && Coherent(s) && s.lock.Scanning? && s.lock.left != [] && now >= s.clock
    requires s.lock.left[0] in s.db.scans && s.db.scans[s.lock.left[0]].status == Queued
    ensures NoneForgotten(c, Marked(s, s.lock.left[0], now))
  {
    var t := Marked(s, s.lock.left[0], now);
    MarkedAdvances(s, s.lock.left[0], now);
    hide Coherent, DbAdvances, Blocked, MarkRunning;
    TurnSettles(c, s, t);
  }

  /** The head of the snapshot is marked, counted, and about to get its thread. */
  function Marked(s: Sys, id: ScanId, now: int): Sys
    requires s.lock.Scanning? && s.lock.left != [] && id in s.db.scans
  {
    s.(db := MarkRunning(s.db, id, now).0, running := s.running[id := SlotOf(s.db.scans[id])],
       lock := Starting(id, s.lock.left[1..]), clock := now)
  }

  lemma MarkedAdvances(s: Sys, id: ScanId, now: int)
    requires Coherent(s) && s.lock.Scanning? && s.lock.left != [] && now >= s.clock
    requires id in s.db.scans && s.db.scans[id].status == Queued
    ensures var t := Marked(s, id, now);
      && DbConsistent(t.db) && OnlyAdvances(s, t) && t.db.scans[id].status == Running
      && (forall k :: k in s.db.scans && k != id ==> t.db.scans[k] == s.db.scans[k])
      && RunningMatches(t.db, s.running) && id !in s.running && id !in s.lost
      && SlotOf(t.db.scans[id]) == SlotOf(s.db.scans[id])
  {
    hide DbConsistent, DbAdvances, ThreadsMatch, RowsRun;
    MarkAdvances(s.db, id, now);
    AdvancingKeepsMatches(s.db, MarkRunning(s.db, id, now).0, s.running);
  }

  lemma MarkedIsCoherent(s: Sys, id: ScanId, now: int)
    requires Coherent(s) && s.lock.Scanning? && s.lock.left != [] && now >= s.clock
    requires id in s.db.scans && s.db.scans[id].status == Queued
    ensures Coherent(Marked(s, id, now))
  {
    var t := Marked(s, id, now);
    hide DbConsistent, OnlyAdvances, MarkRunning, ThreadsMatch, RowsRun, LostAreOver;
    MarkedAdvances(s, id, now);
    MarkedRuns(s, t, id);
  }

  lemma MarkedRuns(s: Sys, t: Sys, id: ScanId)
    requires ThreadsMatch(s) && RowsRun(s) && LostAreOver(s) && s.lock.Scanning?
    requires id in s.db.scans && s.db.scans[id].status == Queued && id !in s.running && id !in s.lost
    requires t.up == s.up && t.workers == s.workers && t.lost == s.lost && t.lock.Starting? && t.lock.id == id
    requires t.running.Keys == s.running.Keys + {id} && t.db.scans.Keys == s.db.scans.Keys
    requires t.db.scans[id].status == Running
    requires forall k :: k in s.db.scans && k != id ==> t.db.scans[k] == s.db.scans[k]
    ensures ThreadsMatch(t) && RowsRun(t) && LostAreOver(t)
  {
    assert ThreadsMatch(t) by { hide RowsRun, LostAreOver; }
    assert RowsRun(t) && LostAreOver(t) by { hide WorkersMatch; }
  }

  lemma MarkedStartsOnce(s: Sys, id: ScanId, now: int)
    requires StartedOnce(s) && s.lock.Scanning? && s.lock.left != []
    requires id in s.db.scans && s.db.scans[id].status == Queued
    ensures StartedOnce(Marked(s, id, now))
  {
  }

  lemma TurnStep(c: Limits, s: Sys, now: int)
    requires Inv(c, s) && s.lock.Scanning? && s.lock.left != [] && now >= s.clock
    ensures Inv(c, AfterTurn(c, s, now)) && DbAdvances(s.db, AfterTurn(c, s, now).db)
  {
    var id := s.lock.left[0];
    if |s.running| >= c.maxScans {
      TurnBreaks(c, s, now);
    } else if MayStart(c, Pump(s.db, s.running, s.lost, s.started), id) && s.db.scans[id].status == Queued {
      hide Inv, Blocked, DbAdvances;
      TurnMarks(c, s, now);
    } else {
      hide Inv, Blocked, DbAdvances;
      TurnSkips(c, s, now);
    }
  }

  // --- starting the thread ------------------------------------------------------------------------------------

  lemma StartedThreadIsCoherent(s: Sys)
    requires Coherent(s) && s.lock.Starting?
    ensures Coherent(AfterThreadStarts(s))
  {
    hide DbConsistent, RunningMatches;
  }

  lemma StartedThreadIsNew(s: Sys)
    requires StartedOnce(s) && ThreadsMatch(s) && s.lock.Starting?
    ensures StartedOnce(AfterThreadStarts(s))
  {
  }

  lemma StartedThreadForgetsNone(c: Limits, s: Sys)
    requires NoneForgotten(c, s) && s.lock.Starting?
    ensures NoneForgotten(c, AfterThreadStarts(s))
  {
    hide Blocked;
    var t := AfterThreadStarts(s);
    if c.maxQueued <= QUEUE_LIMIT && s.owed == 0 {
      assert forall id :: Settled(c, s, id) <==> Settled(c, t, id);
      if s.lock.left == [] { SettledWaits(c, t); }
    }
  }

  lemma ThreadStartsStep(c: Limits, s: Sys)
    requires Inv(c, s) && s.lock.Starting?
    ensures Inv(c, AfterThreadStarts(s)) && DbAdvances(s.db, AfterThreadStarts(s).db)
  {
    StartedThreadIsNew(s);
    hide WithinLimits, WithinCaps, Coherent, StartedOnce, NoneForgotten, KeysApart, DbAdvances;
    AdvancingIsReflexive(s.db);
    AdvancingKeepsHistories(c, s, AfterThreadStarts(s));
    StartedThreadIsCoherent(s);
    StartedThreadForgetsNone(c, s);
  }

  lemma FailedThreadCountsTheSame(s: Sys)
    requires s.lock.Starting? && s.lock.id in s.running && s.running.Keys !! s.lost.Keys
    ensures (s.running - {s.lock.id}) + s.lost[s.lock.id := s.running[s.lock.id]] == s.running + s.lost
  {
  }

  lemma ThreadFailsStep(c: Limits, s: Sys, now: int)
    requires Inv(c, s) && s.lock.Starting? && s.lock.id in s.running && now >= s.clock
    ensures Inv(c, AfterThreadFails(s, now)) && DbAdvances(s.db, AfterThreadFails(s, now).db)
  {
    var t := AfterThreadFails(s, now);
    FailedThreadIsCoherent(s, now);
    hide WithinLimits, WithinCaps, Coherent, KeysApart, StartedOnce, DbAdvances;
    AdvancingKeepsHistories(c, s, t);
    AdvancingKeepsStarted(s, t);
    StoppingKeepsLimits(c, s.running, s.lock.id);
    assert NoneForgotten(c, t) by { FailedThreadForgetsNone(c, s, now); }
  }

  lemma FailedThreadForgetsNone(c: Limits, s: Sys, now: int)
    requires NoneForgotten(c, s) && Coherent(s) && s.lock.Starting? && s.lock.id in s.running
    ensures NoneForgotten(c, AfterThreadFails(s, now))
  {
    var t := AfterThreadFails(s, now);
    FailedThreadIsCoherent(s, now);
    FailedThreadCountsTheSame(s);
    hide Coherent, DbAdvances, Blocked;
    if c.maxQueued <= QUEUE_LIMIT && s.owed == 0 {
      forall id ensures id in s.lock.left || Settled(c, t, id) {
        if Settled(c, s, id) { AdvancingKeepsSettled(c, s, t, id); }
      }
      if s.lock.left == [] { SettledWaits(c, t); }
    }
  }

  lemma FailedRow(db: Db, id: ScanId, now: int)
    requires id in db.scans && db.scans[id].status == Running
    ensures var after := FailScan(db, id, ScanError, now);
      && after.scans.Keys == db.scans.Keys && after.claims == db.claims
      && Terminal(after.scans[id].status)
      && forall k :: k in db.scans && k != id ==> after.scans[k] == db.scans[k]
  {
  }

  lemma FailedThreadIsCoherent(s: Sys, now: int)
    requires Coherent(s) && s.lock.Starting? && s.lock.id in s.running
    ensures Coherent(AfterThreadFails(s, now))
    ensures DbAdvances(s.db, AfterThreadFails(s, now).db)
    ensures AfterThreadFails(s, now).db.scans.Keys == s.db.scans.Keys
    ensures AfterThreadFails(s, now).db.claims == s.db.claims
  {
    var t := AfterThreadFails(s, now);
    FailAdvances(s.db, s.lock.id, ScanError, now);
    FailedRow(s.db, s.lock.id, now);
    AdvancingKeepsMatches(s.db, t.db, s.running);
    FewerMatch(t.db, s.running, s.lock.id);
    assert !s.up ==> Quiet(s);
    hide DbConsistent, RunningMatches, DbAdvances, FailScan;
    FailedThreadLeaves(s, t);
  }

  lemma FailedThreadLeaves(s: Sys, t: Sys)
    requires ThreadsMatch(s) && RowsRun(s) && LostAreOver(s) && s.lock.Starting? && s.lock.id in s.running
    requires t.running == s.running - {s.lock.id} && t.lost == s.lost[s.lock.id := s.running[s.lock.id]]
    requires t.up == s.up && t.workers == s.workers && t.lock == Scanning(s.lock.left)
    requires t.db.scans.Keys == s.db.scans.Keys && Terminal(t.db.scans[s.lock.id].status)
    requires forall k :: k in s.db.scans && k != s.lock.id ==> t.db.scans[k] == s.db.scans[k]
    ensures ThreadsMatch(t) && RowsRun(t) && LostAreOver(t)
  {
    assert ThreadsMatch(t) by { hide RowsRun, LostAreOver; }
    assert RowsRun(t) && LostAreOver(t) by { hide WorkersMatch; }
  }

  // --- the end of a scan ----------------------------------------------------------------------------------------

  lemma AdvancingForgetsNone(c: Limits, s: Sys, t: Sys)
    requires NoneForgotten(c, s) && DbAdvances(s.db, t.db) && t.db.scans.Keys == s.db.scans.Keys
    requires t.owed == s.owed && t.lock == s.lock && t.up == s.up && t.closed == s.closed
    requires t.running == s.running && t.lost == s.lost
    ensures NoneForgotten(c, t)
  {
    hide DbAdvances, Blocked;
    forall id ensures Settled(c, s, id) ==> Settled(c, t, id) {
      if Settled(c, s, id) { AdvancingKeepsSettled(c, s, t, id); }
    }
    forall id ensures Waits(c, s.db, s.running, s.lost, id) ==> Waits(c, t.db, t.running, t.lost, id) {
      if id in s.db.scans { AdvancingKeepsIdentity(s.db, t.db, id); }
    }
  }

  lemma EndedRow(db: Db, id: ScanId, ending: Ending, now: int)
    requires id in db.scans && db.scans[id].status == Running
    ensures var after := Ended(db, id, ending, now);
      && after.scans.Keys == db.scans.Keys && after.claims == db.claims
      && Terminal(after.scans[id].status)
      && forall k :: k in db.scans && k != id ==> after.scans[k] == db.scans[k]
  {
  }

  lemma EndedIsCoherent(s: Sys, id: ScanId, ending: Ending, now: int)
    requires Coherent(s) && id in s.workers && s.workers[id] == Working && now >= s.clock
    ensures Coherent(AfterEnds(s, id, ending, now)) && OnlyAdvances(s, AfterEnds(s, id, ending, now))
  {
    hide DbConsistent, DbAdvances, Ended, RunningMatches, RowsRun, LostAreOver, ThreadsMatch;
    var t := AfterEnds(s, id, ending, now);
    WorkingIsRunning(s, id);
    EndedRow(s.db, id, ending, now);
    EndedAdvances(s.db, id, ending, now);
    AdvancingKeepsMatches(s.db, t.db, s.running);
    EndedStillRuns(s, t, id);
    EndedThreadLeaves(s, t, id);
  }

  lemma WorkingIsRunning(s: Sys, id: ScanId)
    requires ThreadsMatch(s) && id in s.workers && s.workers[id] == Working
    ensures id in s.db.scans && s.db.scans[id].status == Running
  {
  }

  lemma EndedThreadLeaves(s: Sys, t: Sys, id: ScanId)
    requires ThreadsMatch(s) && id in s.workers
    requires t.running == s.running && t.lock == s.lock && t.workers == s.workers[id := Leaving]
    requires t.db.scans.Keys == s.db.scans.Keys && id in t.db.scans && Terminal(t.db.scans[id].status)
    requires forall k :: k in s.db.scans && k != id ==> t.db.scans[k] == s.db.scans[k]
    ensures ThreadsMatch(t)
  {
  }

  lemma EndedStillRuns(s: Sys, t: Sys, id: ScanId)
    requires RowsRun(s) && LostAreOver(s)
    requires t.up == s.up && t.running == s.running && t.lost == s.lost && t.db.scans.Keys == s.db.scans.Keys
    requires id in t.db.scans && Terminal(t.db.scans[id].status)
    requires forall k :: k in s.db.scans && k != id ==> t.db.scans[k] == s.db.scans[k]
    ensures RowsRun(t) && LostAreOver(t)
  {
  }

  lemma EndsStep(c: Limits, s: Sys, id: ScanId, ending: Ending, now: int)
    requires Inv(c, s) && id in s.workers && s.workers[id] == Working && now >= s.clock
    ensures Inv(c, AfterEnds(s, id, ending, now)) && DbAdvances(s.db, AfterEnds(s, id, ending, now).db)
  {
    var t := AfterEnds(s, id, ending, now);
    CoherentIsConsistent(s);
    hide WithinLimits, WithinCaps, DbConsistent, DbAdvances, Coherent, NoneForgotten, KeysApart, StartedOnce, Ended;
    EndedAdvances(s.db, id, ending, now);
    EndedIsCoherent(s, id, ending, now);
    AdvancingForgetsNone(c, s, t);
    AdvancingKeepsHistories(c, s, t);
    AdvancingKeepsStarted(s, t);
  }

  lemma PoppedIsCoherent(s: Sys, id: ScanId)
    requires Coherent(s) && id in s.workers && s.workers[id] == Leaving && s.lock == Free
    ensures Coherent(AfterPops(s, id))
  {
    hide DbConsistent, RunningMatches;
    FewerMatch(s.db, s.running, id);
  }

  lemma PopsStep(c: Limits, s: Sys, id: ScanId)
    requires Inv(c, s) && id in s.workers && s.workers[id] == Leaving && s.lock == Free
    ensures Inv(c, AfterPops(s, id)) && DbAdvances(s.db, AfterPops(s, id).db)
  {
    hide WithinLimits, WithinCaps, Coherent, StartedOnce, KeysApart, DbAdvances;
    AdvancingIsReflexive(s.db);
    StoppingKeepsLimits(c, s.running, id);
    AdvancingKeepsHistories(c, s, AfterPops(s, id));
    AdvancingKeepsStarted(s, AfterPops(s, id));
    PoppedIsCoherent(s, id);
  }

  // --- the rest ----------------------------------------------------------------------------------------------------

  lemma EditClientsStep(c: Limits, s: Sys, clients: set<(Agency, Client)>)
    requires Inv(c, s)
    ensures Inv(c, s.(db := s.db.(clients := clients))) && DbAdvances(s.db, s.db.(clients := clients))
  {
    var t := s.(db := s.db.(clients := clients));
    hide WithinLimits, WithinCaps;
    AdvancingIsReflexive(s.db);
    assert DbAdvances(s.db, t.db);
    AdvancingForgetsNone(c, s, t);
    AdvancingKeepsHistories(c, s, t);
  }

  lemma EnterStep(c: Limits, s: Sys)
    requires Inv(c, s) && s.up && s.lock == Free && s.owed > 0
    ensures Inv(c, AfterEnter(s)) && DbAdvances(s.db, AfterEnter(s).db)
  {
    hide WithinLimits, WithinCaps, DbConsistent;
    AdvancingIsReflexive(s.db);
    AdvancingKeepsHistories(c, s, AfterEnter(s));
  }

  lemma SnapshotForgetsNone(c: Limits, s: Sys)
    requires s.lock == Entered && |IdsWith(s.db, Queued)| <= QUEUE_LIMIT
    ensures NoneForgotten(c, AfterSnapshot(s))
  {
    var t := AfterSnapshot(s);
    QueuedScansFit(s.db, QUEUE_LIMIT);
    hide Blocked, QueuedScans;
    forall id ensures id in t.lock.left || Settled(c, t, id) {
      assert id in IdsWith(s.db, Queued) ==> id in t.lock.left;
    }
    if t.lock.left == [] { SettledWaits(c, t); }
  }

  lemma SnapshotIsCoherent(s: Sys)
    requires Coherent(s) && s.lock == Entered
    ensures Coherent(AfterSnapshot(s))
  {
    hide DbConsistent, QueuedScans, RunningMatches;
  }

  lemma LongQueuesAreNotWatched(c: Limits, s: Sys)
    requires c.maxQueued > QUEUE_LIMIT
    ensures NoneForgotten(c, s)
  {
  }

  lemma SnapshotStep(c: Limits, s: Sys)
    requires Inv(c, s) && s.lock == Entered
    ensures Inv(c, AfterSnapshot(s)) && DbAdvances(s.db, AfterSnapshot(s).db)
  {
    hide WithinLimits, Coherent, NoneForgotten, KeysApart, DbAdvances, QueuedScans, StartedOnce;
    if c.maxQueued <= QUEUE_LIMIT {
      SnapshotForgetsNone(c, s);
    } else {
      LongQueuesAreNotWatched(c, AfterSnapshot(s));
    }
    SnapshotIsCoherent(s);
    AdvancingIsReflexive(s.db);
    AdvancingKeepsHistories(c, s, AfterSnapshot(s));
    AdvancingKeepsStarted(s, AfterSnapshot(s));
  }

  lemma LeaveStep(c: Limits, s: Sys)
    requires Inv(c, s) && s.lock == Scanning([])
    ensures Inv(c, s.(lock := Free)) && DbAdvances(s.db, s.db)
  {
    var t := s.(lock := Free);
    hide WithinLimits, WithinCaps, DbConsistent, Waits;
    AdvancingIsReflexive(s.db);
    AdvancingKeepsHistories(c, s, t);
    if c.maxQueued <= QUEUE_LIMIT && s.owed == 0 { assert AllWait(c, t); }
  }

  lemma CloseStep(c: Limits, s: Sys)
    requires Inv(c, s) && s.up && s.lock == Free
    ensures Inv(c, s.(closed := true)) && DbAdvances(s.db, s.db)
  {
    hide WithinLimits, WithinCaps, DbConsistent;
    AdvancingIsReflexive(s.db);
    AdvancingKeepsHistories(c, s, s.(closed := true));
  }

  lemma CrashStep(c: Limits, s: Sys)
    requires Inv(c, s)
    ensures Inv(c, AfterCrash(s)) && DbAdvances(s.db, AfterCrash(s).db)
  {
    hide WithinLimits, WithinCaps, Coherent, NoneForgotten, StartedOnce, KeysApart, DbAdvances;
    AdvancingIsReflexive(s.db);
    AdvancingKeepsHistories(c, s, AfterCrash(s));
    AdvancingKeepsStarted(s, AfterCrash(s));
    CrashedIsCoherent(s);
    CrashedForgetsNone(c, s);
    NothingRunsWithinLimits(c);
  }

  lemma CrashedIsCoherent(s: Sys)
    requires Coherent(s)
    ensures Coherent(AfterCrash(s))
  {
    hide DbConsistent;
  }

  lemma CrashedForgetsNone(c: Limits, s: Sys)
    ensures NoneForgotten(c, AfterCrash(s))
  {
    hide AllWait, AllSettled;
  }

  lemma NothingRunsWithinLimits(c: Limits)
    ensures WithinLimits(c, map[])
  {
    assert forall agency :: AgencyIds(map[], agency) == {};
  }

  lemma StartStep(c: Limits, s: Sys, now: int)
    requires Inv(c, s) && !s.up && now >= s.clock
    ensures Inv(c, AfterStart(s, now)) && DbAdvances(s.db, AfterStart(s, now).db)
  {
    var t := AfterStart(s, now);
    RecoveryAdvances(s.db, now);
    hide WithinLimits, WithinCaps, DbConsistent, DbAdvances;
    AdvancingKeepsHistories(c, s, t);
    AdvancingKeepsStarted(s, t);
    forall id | id in t.db.scans ensures t.db.scans[id].status != Running {
      assert id !in IdsWith(t.db, Running);
    }
  }

  lemma StepKeepsInv(c: Limits, s: Sys, a: Action)
    requires Inv(c, s) && Enabled(s, a)
    ensures Inv(c, Apply(c, s, a)) && DbAdvances(s.db, Apply(c, s, a).db)
  {
    match a {
      case Receive(req, id, now) => ReceiveStep(c, s, req, id, now);
      case EditClients(clients) => EditClientsStep(c, s, clients);
      case EnterPump => EnterStep(c, s);
      case Snapshot => SnapshotStep(c, s);
      case Turn(now) => TurnStep(c, s, now);
      case ThreadStarts => ThreadStartsStep(c, s);
      case ThreadFails(now) => ThreadFailsStep(c, s, now);
      case LeavePump => LeaveStep(c, s);
      case Ends(id, ending, now) => EndsStep(c, s, id, ending, now);
      case Pops(id) => PopsStep(c, s, id);
      case Close => CloseStep(c, s);
      case Crash => CrashStep(c, s);
      case Start(now) => StartStep(c, s, now);
    }
  }

  // --- the steps of a pump and the pump as one function -------------------------------------------------------

  /** The thread start that follows a mark, as the environment decides it. */
  function Launched(s: Sys, env: Env): Sys {
    if s.lock.Starting? && s.lock.id in s.running then
      if env.starts(s.lock.id) then AfterThreadStarts(s) else AfterThreadFails(s, env.failedAt(s.lock.id))
    else s
  }

  /** A turn of the interleaved system, with its thread start, does to the tables what a turn of `PumpAll` does. */
  lemma TurnRefinesPumpOne(c: Limits, s: Sys, env: Env)
    requires s.lock.Scanning? && s.lock.left != [] && |s.running| < c.maxScans && s.running.Keys !! s.lost.Keys
    ensures var id := s.lock.left[0];
      var t := Launched(AfterTurn(c, s, env.markedAt(id)), env);
      && Pump(t.db, t.running, t.lost, t.started) == PumpOne(c, Pump(s.db, s.running, s.lost, s.started), id, env)
      && t.lock == Scanning(s.lock.left[1..]) && t.owed == s.owed
  {
    var id := s.lock.left[0];
    var p := Pump(s.db, s.running, s.lost, s.started);
    if !(MayStart(c, p, id) && s.db.scans[id].status == Queued) {
      hide Blocked, Launched, PumpOne;
      PumpOneSkips(c, p, id, env);
      assert AfterTurn(c, s, env.markedAt(id)) == s.(lock := Scanning(s.lock.left[1..]), clock := env.markedAt(id));
      assert Launched(s.(lock := Scanning(s.lock.left[1..]), clock := env.markedAt(id)), env)
          == s.(lock := Scanning(s.lock.left[1..]), clock := env.markedAt(id)) by { NothingToLaunch(s, env, id); }
    } else {
      assert AfterTurn(c, s, env.markedAt(id)) == Marked(s, id, env.markedAt(id)) by { hide Blocked, Launched, PumpOne; }
      hide Blocked, AfterTurn, PumpOne, MarkRunning;
      LaunchRefines(c, s, env, id);
    }
  }

  lemma NothingToLaunch(s: Sys, env: Env, id: ScanId)
    requires s.lock.Scanning? && s.lock.left != []
    ensures var t := s.(lock := Scanning(s.lock.left[1..]), clock := env.markedAt(id)); Launched(t, env) == t
  {
  }

  lemma LaunchRefines(c: Limits, s: Sys, env: Env, id: ScanId)
    requires s.lock.Scanning? && s.lock.left != []
    requires MayStart(c, Pump(s.db, s.running, s.lost, s.started), id) && s.db.scans[id].status == Queued
    ensures var t := Launched(Marked(s, id, env.markedAt(id)), env);
      && Pump(t.db, t.running, t.lost, t.started) == PumpOne(c, Pump(s.db, s.running, s.lost, s.started), id, env)
      && t.lock == Scanning(s.lock.left[1..]) && t.owed == s.owed
  {
    var p := Pump(s.db, s.running, s.lost, s.started);
    assert id !in s.running;
    hide MayStart, Blocked, PumpOne, MarkRunning;
    if env.starts(id) {
      PumpOneStarted(c, p, id, env);
    } else {
      PumpOneLost(c, p, id, env);
      assert s.running[id := SlotOf(s.db.scans[id])] - {id} == s.running;
    }
  }

  // --- the theorems --------------------------------------------------------------------------------------------

  lemma NextKeepsInv(c: Limits, s: Sys, t: Sys)
    requires Inv(c, s) && Next(c, s, t)
    ensures Inv(c, t) && DbAdvances(s.db, t.db)
  {
    var a :| Enabled(s, a) && t == Apply(c, s, a);
    hide Inv, DbAdvances, Enabled, Apply;
    StepKeepsInv(c, s, a);
  }

  lemma {:induction false} EveryStateIsGood(c: Limits, run: seq<Sys>, i: nat)
    requires IsRun(c, run) && i < |run|
    ensures Inv(c, run[i])
  {
    if i == 0 {
      InitIsGood(c, run[0]);
    } else {
      EveryStateIsGood(c, run, i - 1);
      hide Inv, Next;
      assert Next(c, run[i - 1], run[i - 1 + 1]);
      NextKeepsInv(c, run[i - 1], run[i]);
    }
  }

  lemma InitIsGood(c: Limits, s: Sys)
    requires Init(s)
    ensures Inv(c, s)
  {
    NothingRunsWithinLimits(c);
    assert forall status :: IdsWith(s.db, status) == {};
    assert forall agency :: QueuedOf(s.db, agency) == {};
  }

  /** The action that led to a state of a run. */
  lemma StepTo(c: Limits, run: seq<Sys>, i: nat) returns (a: Action)
    requires IsRun(c, run) && 0 < i < |run|
    ensures Enabled(run[i - 1], a) && run[i] == Apply(c, run[i - 1], a)
  {
    hide Enabled, Apply, Init;
    assert Next(c, run[i - 1], run[i - 1 + 1]);
    a :| Enabled(run[i - 1], a) && run[i] == Apply(c, run[i - 1], a);
  }

  /** Nobody is in a pump, and nobody is on the way to one. */
  predicate AtRest(s: Sys) { s.up && !s.closed && s.lock == Free && s.owed == 0 }

  /**
   * No lost wakeup. In every state of every run in which an open service has no pump in progress and none owed, each
   * queued scan waits for the global limit, its agency's limit or a scan of its host. When the last pump could start
   * all its threads, those are scans that really run, so a queued scan implies a running one.
   */
  lemma NoLostWakeup(c: Limits, run: seq<Sys>, i: nat)
    requires IsRun(c, run) && i < |run| && c.Valid() && c.maxQueued <= QUEUE_LIMIT && AtRest(run[i])
    ensures forall id :: Waits(c, run[i].db, run[i].running, run[i].lost, id)
    ensures run[i].lost == map[] && run[i].running == map[] ==> IdsWith(run[i].db, Queued) == {}
  {
    EveryStateIsGood(c, run, i);
    var s := run[i];
    if s.lost == map[] && s.running == map[] {
      assert s.running + s.lost == map[];
      NothingRunsWithinLimits(c);
      forall id | id in s.db.scans ensures s.db.scans[id].status != Queued {
        assert Waits(c, s.db, s.running, s.lost, id);
        assert AgencyIds(map[], SlotOf(s.db.scans[id]).agency) == {};
      }
    }
  }

  /**
   * Safety. In every state of every run, crashes, restarts and failed thread starts included: the limits hold for
   * `_running`, so also for the scans the database calls running, which are among them while the process is up.
   */
  lemma LimitsAlwaysHold(c: Limits, run: seq<Sys>, i: nat)
    requires IsRun(c, run) && i < |run|
    ensures WithinLimits(c, run[i].running)
    ensures run[i].up ==> IdsWith(run[i].db, Running) <= run[i].running.Keys
    ensures RunningMatches(run[i].db, run[i].running)
    ensures WithinCaps(c, run[i].db)
  {
    EveryStateIsGood(c, run, i);
  }

  lemma RunAdvances(c: Limits, run: seq<Sys>, j: nat)
    requires IsRun(c, run) && 0 < j < |run|
    ensures DbAdvances(run[j - 1].db, run[j].db)
  {
    EveryStateIsGood(c, run, j - 1);
    hide Inv, Next, Init;
    assert Next(c, run[j - 1], run[j - 1 + 1]);
    NextKeepsInv(c, run[j - 1], run[j]);
  }

  /** Lifecycle. Between any two moments of a run, no scan disappears and every row only moved forward. */
  lemma {:induction false} RowsOnlyAdvance(c: Limits, run: seq<Sys>, i: nat, j: nat)
    requires IsRun(c, run) && i <= j < |run|
    ensures DbAdvances(run[i].db, run[j].db)
  {
    hide IsRun, RowAdvances;
    if i < j {
      RowsOnlyAdvance(c, run, i, j - 1);
      RunAdvances(c, run, j);
      hide DbAdvances;
      AdvancingIsTransitive(run[i].db, run[j - 1].db, run[j].db);
    } else {
      AdvancingIsReflexive(run[i].db);
    }
  }

  /** In every state, a stored report means completed, an error code means failed, and claims name existing scans. */
  lemma RowsAreConsistent(c: Limits, run: seq<Sys>, i: nat)
    requires IsRun(c, run) && i < |run|
    ensures DbConsistent(run[i].db)
  {
    EveryStateIsGood(c, run, i);
  }

  /** No scan gets a second thread, not even across restarts: the started threads are for pairwise different scans. */
  lemma EachScanStartsAtMostOnce(c: Limits, run: seq<Sys>, i: nat, a: nat, b: nat)
    requires IsRun(c, run) && i < |run| && a < b < |run[i].started|
    ensures run[i].started[a] != run[i].started[b]
    ensures run[i].started[a] in run[i].db.scans && run[i].db.scans[run[i].started[a]].status != Queued
  {
    EveryStateIsGood(c, run, i);
  }

  /** Two scans accepted under one agency and key were created at least the key's lifetime apart. */
  lemma KeyedScansAreApart(c: Limits, run: seq<Sys>, i: nat, a: nat, b: nat)
    requires IsRun(c, run) && i < |run| && a < b < |run[i].log|
    requires run[i].log[a].agency == run[i].log[b].agency && run[i].log[a].key == run[i].log[b].key
    ensures run[i].log[a].id in run[i].db.scans && run[i].log[b].id in run[i].db.scans
    ensures run[i].db.scans[run[i].log[a].id].createdAt + c.ClaimMillis() <= run[i].db.scans[run[i].log[b].id].createdAt
  {
    EveryStateIsGood(c, run, i);
    hide WithinLimits, WithinCaps, Coherent, NoneForgotten, StartedOnce;
    assert Remembered(c, run[i], run[i].log[a]) && Remembered(c, run[i], run[i].log[b]);
    assert Apart(c, run[i].log[a], run[i].log[b]);
  }

  /** How the table answers the repeat of an accepted request: with the first scan, or with a conflict. */
  function RepeatAnswer(db: Db, e: Entry, req: Request): Answer {
    if (req.agency, req.client) !in db.clients then NotFound
    else if req.bodyHash == e.hash then Replayed(e.id)
    else KeyConflict
  }

  /**
   * Idempotent creation, in every state of every run: as long as an accepted request is younger than the lifetime of its
   * key, any request of that agency with that key gets the scan that was accepted, or a conflict when its body is
   * another, and changes no scan.
   */
  lemma RepeatsGetTheFirstScan(c: Limits, run: seq<Sys>, i: nat, k: nat, req: Request, id: ScanId, now: int)
    requires IsRun(c, run) && i < |run| && k < |run[i].log|
    requires var e := run[i].log[k];
      req.agency == e.agency && req.key == Some(e.key) && run[i].clock <= now < e.at + c.ClaimMillis()
    ensures var e := run[i].log[k]; var (after, answer) := CreateScan(run[i].db, c, req, now, id);
      && answer == RepeatAnswer(run[i].db, e, req)
      && after.scans == run[i].db.scans
      && e.id in after.scans && after.scans[e.id].agency == e.agency && after.scans[e.id].createdAt == e.at
  {
    EveryStateIsGood(c, run, i);
    hide WithinLimits, WithinCaps, Coherent, NoneForgotten, StartedOnce, IsRun;
    assert Remembered(c, run[i], run[i].log[k]);
  }
}
