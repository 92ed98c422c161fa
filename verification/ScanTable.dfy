/**
 * The service's `scans`, `clients` and `idempotency` tables as values, and each repository call as a function from
 * tables to tables. One call is one transaction, so these functions are the atomic steps of the service.
 * Times are milliseconds: the stored ISO text has that resolution and orders the same way.
 */
module ScanTable {
  import opened Options
  import opened OrderedKeys

  /** Scan ids are ULID text; module `Ulid` proves that the text orders as the number it writes. */
  type ScanId = nat

  // Names and texts that the service only compares.
  type Agency(==, !new)
  type Client(==, !new)
  type Host(==, !new)
  type Key(==, !new)
  type Hash(==, !new)
  type Path(==, !new)

  datatype Status = Queued | Running | Completed | Failed
  datatype ErrorCode = ScanError | Interrupted

  datatype Row = Row(
    agency: Agency, client: Client, host: Host, createdAt: int,
    status: Status, startedAt: Option<int>, finishedAt: Option<int>,
    resultPath: Option<Path>, errorCode: Option<ErrorCode>)

  /** One row of `idempotency`, without its primary key (agency, key). */
  datatype Claim = Claim(bodyHash: Hash, scan: ScanId, createdAt: int)

  datatype Db = Db(
    clients: set<(Agency, Client)>,  // (agency, client) of the active clients
    scans: map<ScanId, Row>,
    claims: map<(Agency, Key), Claim>)

  datatype Request = Request(agency: Agency, client: Client, host: Host, key: Option<Key>, bodyHash: Hash)

  datatype Limits = Limits(
    maxScans: nat, maxPerAgency: nat, maxQueued: nat, maxQueuedPerAgency: nat, claimSeconds: nat)
  {
    predicate Valid() {
      maxScans > 0 && maxPerAgency > 0 && maxQueued > 0 && maxQueuedPerAgency > 0 && claimSeconds > 0
    }

    function ClaimMillis(): nat { 1000 * claimSeconds }
  }

  datatype Answer =
    | NotFound
    | KeyConflict
    | QueueFull
    | IdTaken  // the primary key refused the new row
    | Replayed(id: ScanId)
    | Accepted(id: ScanId)

  // --- queries ------------------------------------------------------------------------------------

  function IdsWith(db: Db, status: Status): set<ScanId> {
    set id | id in db.scans && db.scans[id].status == status
  }

  function QueuedOf(db: Db, agency: Agency): set<ScanId> {
    set id | id in db.scans && db.scans[id].status == Queued && db.scans[id].agency == agency
  }

  /** `SELECT ... WHERE status = 'queued' ORDER BY scan_id LIMIT ?` */
  function QueuedScans(db: Db, limit: nat): (ids: seq<ScanId>) {
    var all := Listing(IdsWith(db, Queued), false);
    if |all| <= limit then all else all[..limit]
  }

  // --- transactions -------------------------------------------------------------------------------

  function Unexpired(claims: map<(Agency, Key), Claim>, cutoff: int): map<(Agency, Key), Claim> {
    map k | k in claims && claims[k].createdAt > cutoff :: claims[k]
  }

  function NewRow(req: Request, now: int): Row {
    Row(req.agency, req.client, req.host, now, Queued, None, None, None, None)
  }

  /** The queue checks and the insert; a refusal rolls the whole transaction back to `db`. */
  function Enqueue(db: Db, purged: map<(Agency, Key), Claim>, limits: Limits, req: Request, now: int, id: ScanId)
    : (Db, Answer)
  {
    if |IdsWith(db, Queued)| >= limits.maxQueued || |QueuedOf(db, req.agency)| >= limits.maxQueuedPerAgency then
      (db, QueueFull)
    else if id in db.scans then
      (db, IdTaken)
    else
      var claims := if req.key.None? then purged
                    else purged[(req.agency, req.key.value) := Claim(req.bodyHash, id, now)];
      (db.(scans := db.scans[id := NewRow(req, now)], claims := claims), Accepted(id))
  }

  function CreateScan(db: Db, limits: Limits, req: Request, now: int, id: ScanId): (Db, Answer) {
    if (req.agency, req.client) !in db.clients then
      (db, NotFound)
    else if req.key.None? then
      Enqueue(db, db.claims, limits, req, now, id)
    else
      var claimKey := (req.agency, req.key.value);
      var purged := Unexpired(db.claims, now - limits.ClaimMillis());
      if claimKey in purged then
        if purged[claimKey].bodyHash != req.bodyHash then (db, KeyConflict)
        else (db.(claims := purged), Replayed(purged[claimKey].scan))
      else
        Enqueue(db, purged, limits, req, now, id)
  }

  function MarkRunning(db: Db, id: ScanId, now: int): (Db, bool) {
    if id in db.scans && db.scans[id].status == Queued then
      (db.(scans := db.scans[id := db.scans[id].(status := Running, startedAt := Some(now))]), true)
    else
      (db, false)
  }

  function FinishScan(db: Db, id: ScanId, path: Path, now: int): Db {
    if id in db.scans && db.scans[id].status == Running then
      db.(scans := db.scans[id := db.scans[id].(
        status := Completed, finishedAt := Some(now), resultPath := Some(path))])
    else
      db
  }

  function FailScan(db: Db, id: ScanId, code: ErrorCode, now: int): Db {
    if id in db.scans && (db.scans[id].status == Queued || db.scans[id].status == Running) then
      db.(scans := db.scans[id := db.scans[id].(
        status := Failed, finishedAt := Some(now), errorCode := Some(code))])
    else
      db
  }

  function RecoverInterrupted(db: Db, now: int): Db {
    db.(scans := map id | id in db.scans ::
      if db.scans[id].status == Running
      then db.scans[id].(status := Failed, finishedAt := Some(now), errorCode := Some(Interrupted))
      else db.scans[id])
  }

  // --- what every transaction keeps ---------------------------------------------------------------

  /** The columns that describe the outcome agree with the status. */
  predicate RowConsistent(r: Row) {
    && (r.resultPath.Some? <==> r.status == Completed)
    && (r.errorCode.Some? <==> r.status == Failed)
    && (r.finishedAt.Some? <==> r.status == Completed || r.status == Failed)
    && (r.status == Queued ==> r.startedAt.None?)
    && (r.status == Running || r.status == Completed ==> r.startedAt.Some?)
  }

  ghost predicate DbConsistent(db: Db) {
    && (forall id :: id in db.scans ==> RowConsistent(db.scans[id]))
    && (forall k :: k in db.claims ==>
          db.claims[k].scan in db.scans && db.scans[db.claims[k].scan].agency == k.0)
  }

  predicate Terminal(s: Status) { s == Completed || s == Failed }

  /** queued -> running -> completed or failed, queued -> failed; nothing else, and nothing after the end. */
  predicate Advances(a: Status, b: Status) {
    a == b || a == Queued || (a == Running && Terminal(b))
  }

  /** What may happen to one row over any stretch of time. */
  predicate RowAdvances(a: Row, b: Row) {
    && a.agency == b.agency && a.client == b.client && a.host == b.host && a.createdAt == b.createdAt
    && Advances(a.status, b.status)
    && (Terminal(a.status) ==> a == b)
    && (a.startedAt.Some? ==> a.startedAt == b.startedAt)
  }

  /** No scan disappears, every scan only advances. */
  ghost predicate DbAdvances(a: Db, b: Db) {
    forall id :: id in a.scans ==> id in b.scans && RowAdvances(a.scans[id], b.scans[id])
  }

  lemma AdvancingIsTransitive(a: Db, b: Db, c: Db)
    requires DbAdvances(a, b) && DbAdvances(b, c)
    ensures DbAdvances(a, c)
  {
    forall id | id in a.scans ensures id in c.scans && RowAdvances(a.scans[id], c.scans[id]) {
      assert RowAdvances(a.scans[id], b.scans[id]) && RowAdvances(b.scans[id], c.scans[id]);
    }
  }

  /** Writing one row that is new and queued, or an advance of the old one, advances the table. */
  lemma OneRowAdvances(db: Db, id: ScanId, row: Row)
    requires DbConsistent(db) && RowConsistent(row)
    requires id in db.scans ==> RowAdvances(db.scans[id], row)
    ensures DbConsistent(db.(scans := db.scans[id := row]))
    ensures DbAdvances(db, db.(scans := db.scans[id := row]))
  {
    var after := db.(scans := db.scans[id := row]);
    forall k | k in after.claims
      ensures after.claims[k].scan in after.scans && after.scans[after.claims[k].scan].agency == k.0
    {
      assert db.claims[k].scan in db.scans && db.scans[db.claims[k].scan].agency == k.0;
    }
    forall other | other in db.scans ensures other in after.scans && RowAdvances(db.scans[other], after.scans[other]) {
    }
  }

  lemma EnqueueAdvances(db: Db, purged: map<(Agency, Key), Claim>, limits: Limits, req: Request, now: int, id: ScanId)
    requires DbConsistent(db) && DbConsistent(db.(claims := purged))
    ensures DbConsistent(Enqueue(db, purged, limits, req, now, id).0)
    ensures DbAdvances(db, Enqueue(db, purged, limits, req, now, id).0)
  {
    var after := Enqueue(db, purged, limits, req, now, id).0;
    if after != db {
      OneRowAdvances(db.(claims := purged), id, NewRow(req, now));
      forall k | k in after.claims
        ensures after.claims[k].scan in after.scans && after.scans[after.claims[k].scan].agency == k.0
      {
        if k in purged && after.claims[k] == purged[k] {
          assert purged[k].scan in db.scans && db.scans[purged[k].scan].agency == k.0;
        }
      }
    }
  }

  lemma PurgeIsConsistent(db: Db, cutoff: int)
    requires DbConsistent(db)
    ensures DbConsistent(db.(claims := Unexpired(db.claims, cutoff)))
    ensures DbAdvances(db, db.(claims := Unexpired(db.claims, cutoff)))
  {
  }

  lemma CreateAdvances(db: Db, limits: Limits, req: Request, now: int, id: ScanId)
    requires DbConsistent(db)
    ensures DbConsistent(CreateScan(db, limits, req, now, id).0)
    ensures DbAdvances(db, CreateScan(db, limits, req, now, id).0)
  {
    if (req.agency, req.client) in db.clients {
      if req.key.None? {
        EnqueueAdvances(db, db.claims, limits, req, now, id);
      } else {
        var purged := Unexpired(db.claims, now - limits.ClaimMillis());
        PurgeIsConsistent(db, now - limits.ClaimMillis());
        if (req.agency, req.key.value) !in purged {
          EnqueueAdvances(db, purged, limits, req, now, id);
        }
      }
    }
  }

  lemma MarkAdvances(db: Db, id: ScanId, now: int)
    requires DbConsistent(db)
    ensures DbConsistent(MarkRunning(db, id, now).0) && DbAdvances(db, MarkRunning(db, id, now).0)
  {
    if MarkRunning(db, id, now).1 {
      assert RowConsistent(db.scans[id]);
      OneRowAdvances(db, id, db.scans[id].(status := Running, startedAt := Some(now)));
    }
  }

  lemma FinishAdvances(db: Db, id: ScanId, path: Path, now: int)
    requires DbConsistent(db)
    ensures DbConsistent(FinishScan(db, id, path, now)) && DbAdvances(db, FinishScan(db, id, path, now))
  {
    if FinishScan(db, id, path, now) != db {
      assert RowConsistent(db.scans[id]);
      OneRowAdvances(db, id,
        db.scans[id].(status := Completed, finishedAt := Some(now), resultPath := Some(path)));
    }
  }

  lemma FailAdvances(db: Db, id: ScanId, code: ErrorCode, now: int)
    requires DbConsistent(db)
    ensures DbConsistent(FailScan(db, id, code, now)) && DbAdvances(db, FailScan(db, id, code, now))
  {
    if FailScan(db, id, code, now) != db {
      assert RowConsistent(db.scans[id]);
      OneRowAdvances(db, id, db.scans[id].(status := Failed, finishedAt := Some(now), errorCode := Some(code)));
    }
  }

  lemma RecoveryAdvances(db: Db, now: int)
    requires DbConsistent(db)
    ensures DbConsistent(RecoverInterrupted(db, now)) && DbAdvances(db, RecoverInterrupted(db, now))
    ensures IdsWith(RecoverInterrupted(db, now), Running) == {}
    ensures IdsWith(RecoverInterrupted(db, now), Queued) == IdsWith(db, Queued)
  {
    var after := RecoverInterrupted(db, now);
    forall id | id in after.scans ensures RowConsistent(after.scans[id]) && RowAdvances(db.scans[id], after.scans[id]) {
      assert RowConsistent(db.scans[id]);
    }
    forall k | k in after.claims
      ensures after.claims[k].scan in after.scans && after.scans[after.claims[k].scan].agency == k.0
    {
      assert db.claims[k].scan in db.scans && db.scans[db.claims[k].scan].agency == k.0;
    }
  }

  /** A key that was used inside its lifetime changes no scan: same body replays the first scan, another body conflicts. */
  lemma RepeatedKeyQueuesNothing(db: Db, limits: Limits, req: Request, now: int, id: ScanId)
    requires DbConsistent(db) && (req.agency, req.client) in db.clients && req.key.Some?
    requires (req.agency, req.key.value) in db.claims
    requires now < db.claims[(req.agency, req.key.value)].createdAt + limits.ClaimMillis()
    ensures var claim := db.claims[(req.agency, req.key.value)];
            var (after, answer) := CreateScan(db, limits, req, now, id);
            after.scans == db.scans
            && answer == (if claim.bodyHash == req.bodyHash then Replayed(claim.scan) else KeyConflict)
            && claim.scan in after.scans && after.scans[claim.scan].agency == req.agency
  {
  }

  lemma CreateAddsOneQueued(db: Db, limits: Limits, req: Request, now: int, id: ScanId)
    requires CreateScan(db, limits, req, now, id).1 == Accepted(id)
    ensures id !in db.scans && CreateScan(db, limits, req, now, id).0.scans == db.scans[id := NewRow(req, now)]
    ensures |IdsWith(db, Queued)| < limits.maxQueued && |QueuedOf(db, req.agency)| < limits.maxQueuedPerAgency
    ensures (req.agency, req.client) in db.clients
  {
  }

  lemma CreateLeavesScans(db: Db, limits: Limits, req: Request, now: int, id: ScanId)
    requires CreateScan(db, limits, req, now, id).1 != Accepted(id)
    ensures CreateScan(db, limits, req, now, id).0.scans == db.scans
  {
  }

  ghost predicate WithinCaps(limits: Limits, db: Db) {
    |IdsWith(db, Queued)| <= limits.maxQueued && forall agency :: |QueuedOf(db, agency)| <= limits.maxQueuedPerAgency
  }

  /** Both queue caps hold after a create that kept to them before, whatever it answered. */
  lemma CreateKeepsCaps(db: Db, limits: Limits, req: Request, now: int, id: ScanId)
    requires WithinCaps(limits, db)
    ensures WithinCaps(limits, CreateScan(db, limits, req, now, id).0)
  {
    hide CreateScan, Enqueue;
    var (after, answer) := CreateScan(db, limits, req, now, id);
    if answer == Accepted(id) {
      CreateAddsOneQueued(db, limits, req, now, id);
      QueuedRowAdds(db, after, id, NewRow(req, now), req.agency);
      forall agency ensures |QueuedOf(after, agency)| <= limits.maxQueuedPerAgency {
        QueuedRowAdds(db, after, id, NewRow(req, now), agency);
      }
    } else {
      CreateLeavesScans(db, limits, req, now, id);
      SameScansSameQueues(db, after);
    }
  }

  lemma SameScansSameQueues(a: Db, b: Db)
    requires a.scans == b.scans
    ensures forall status :: IdsWith(a, status) == IdsWith(b, status)
    ensures forall agency :: QueuedOf(a, agency) == QueuedOf(b, agency)
  {
  }

  lemma QueuedRowAdds(db: Db, after: Db, id: ScanId, row: Row, agency: Agency)
    requires id !in db.scans && after.scans == db.scans[id := row] && row.status == Queued
    ensures |IdsWith(after, Queued)| == |IdsWith(db, Queued)| + 1
    ensures |QueuedOf(after, agency)| == |QueuedOf(db, agency)| + (if agency == row.agency then 1 else 0)
  {
    assert IdsWith(after, Queued) == IdsWith(db, Queued) + {id};
    hide IdsWith;
    AgencyRowAdds(db, after, id, row, agency);
    hide QueuedOf;
  }

  lemma AgencyRowAdds(db: Db, after: Db, id: ScanId, row: Row, agency: Agency)
    requires id !in db.scans && after.scans == db.scans[id := row] && row.status == Queued
    ensures QueuedOf(after, agency) == QueuedOf(db, agency) + (if agency == row.agency then {id} else {})
    ensures id !in QueuedOf(db, agency)
  {
  }

  /** A transaction that only moves rows forward never adds a queued one. */
  lemma AdvancingKeepsCaps(limits: Limits, a: Db, b: Db)
    requires WithinCaps(limits, a) && DbAdvances(a, b) && b.scans.Keys == a.scans.Keys
    ensures WithinCaps(limits, b)
  {
    forall id | id in b.scans && b.scans[id].status == Queued
      ensures a.scans[id].status == Queued && a.scans[id].agency == b.scans[id].agency
    {
      assert RowAdvances(a.scans[id], b.scans[id]);
    }
    SubsetSize(IdsWith(b, Queued), IdsWith(a, Queued));
    forall agency ensures |QueuedOf(b, agency)| <= limits.maxQueuedPerAgency {
      SubsetSize(QueuedOf(b, agency), QueuedOf(a, agency));
    }
  }

  lemma {:induction false} SubsetSize<T>(a: set<T>, b: set<T>)
    requires a <= b
    ensures |a| <= |b|
  {
    if a != {} {
      var x :| x in a;
      SubsetSize(a - {x}, b - {x});
    }
  }

  lemma QueuedScansFit(db: Db, limit: nat)
    requires |IdsWith(db, Queued)| <= limit
    ensures Ordered(false, QueuedScans(db, limit))
    ensures forall id :: id in QueuedScans(db, limit) <==> id in IdsWith(db, Queued)
  {
  }

  /** The queue the runner reads: queued ids only, oldest first, and all of them when they fit the limit. */
  lemma QueuedScansAreTheOldest(db: Db, limit: nat)
    ensures var ids := QueuedScans(db, limit);
            Ordered(false, ids)
            && (forall id :: id in ids ==> id in IdsWith(db, Queued))
            && |ids| == (if |IdsWith(db, Queued)| <= limit then |IdsWith(db, Queued)| else limit)
            && (|IdsWith(db, Queued)| <= limit ==> forall id :: id in IdsWith(db, Queued) ==> id in ids)
            && (forall id, other :: id in ids && other in IdsWith(db, Queued) && other !in ids ==> id < other)
  {
    var all := Listing(IdsWith(db, Queued), false);
    if |all| > limit {
      forall id, other | id in all[..limit] && other in IdsWith(db, Queued) && other !in all[..limit]
        ensures id < other
      {
        var i :| 0 <= i < limit && all[i] == id;
        assert other in all;
        var j :| 0 <= j < |all| && all[j] == other;
        assert forall m :: 0 <= m < limit ==> all[..limit][m] == all[m] && all[m] in all[..limit];
        assert Before(false, all[i], all[j]);
      }
    }
  }
}
