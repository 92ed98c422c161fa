/** What each transaction on the scan tables answers and writes: exact laws, condition by condition and column by column. */
module ScanLaws {
  import opened Options
  import opened ScanTable

  // --- creating a scan -------------------------------------------------------------------------------------------

  /** The key of the request was used less than its lifetime ago. */
  predicate KeyIsLive(db: Db, limits: Limits, req: Request, now: int) {
    && req.key.Some? && (req.agency, req.key.value) in db.claims
    && now < db.claims[(req.agency, req.key.value)].createdAt + limits.ClaimMillis()
  }

  predicate QueueHasRoom(db: Db, limits: Limits, agency: Agency) {
    && |IdsWith(db, Queued)| < limits.maxQueued
    && |set id | id in db.scans && db.scans[id].status == Queued && db.scans[id].agency == agency|
       < limits.maxQueuedPerAgency
  }

  /**
   * When each answer is given: a scan is accepted if and only if the client is active, the key is new or older than its
   * lifetime, the queue has room and the id is fresh; only a live key gives a replay or a conflict.
   */
  lemma CreateAnswers(db: Db, limits: Limits, req: Request, now: int, id: ScanId)
    ensures var answer := CreateScan(db, limits, req, now, id).1;
      var active := (req.agency, req.client) in db.clients; var live := KeyIsLive(db, limits, req, now);
      && (answer == NotFound <==> !active)
      && (answer == KeyConflict <==>
            active && live && db.claims[(req.agency, req.key.value)].bodyHash != req.bodyHash)
      && (forall scan :: answer == Replayed(scan) <==>
            (active && live && db.claims[(req.agency, req.key.value)].bodyHash == req.bodyHash
             && db.claims[(req.agency, req.key.value)].scan == scan))
      && (answer == QueueFull <==> active && !live && !QueueHasRoom(db, limits, req.agency))
      && (answer == IdTaken <==> active && !live && QueueHasRoom(db, limits, req.agency) && id in db.scans)
      && (forall scan :: answer == Accepted(scan) <==>
            (active && !live && QueueHasRoom(db, limits, req.agency) && id !in db.scans && scan == id))
  {
    assert QueuedOf(db, req.agency)
        == set k | k in db.scans && db.scans[k].status == Queued && db.scans[k].agency == req.agency;
    hide IdsWith;
  }

  /** What an accepted scan starts as. */
  predicate Fresh(row: Row, req: Request, now: int) {
    && row.agency == req.agency && row.client == req.client && row.host == req.host && row.createdAt == now
    && row.status == Queued && row.startedAt == None && row.finishedAt == None
    && row.resultPath == None && row.errorCode == None
  }

  /** Only an accepted request writes a row, and only it and a replay drop the claims that are over. */
  lemma CreateWrites(db: Db, limits: Limits, req: Request, now: int, id: ScanId)
    ensures var (after, answer) := CreateScan(db, limits, req, now, id);
      && after.clients == db.clients
      && (answer != Accepted(id) ==> after.scans == db.scans)
      && (answer == Accepted(id) ==> OnlyRow(db, after, id) && id in after.scans && Fresh(after.scans[id], req, now))
      && ((!answer.Accepted? && !answer.Replayed?) || req.key == None ==> after.claims == db.claims)
      && (answer.Accepted? || answer.Replayed? ==> forall k :: req.key.Some? ==>
            if answer.Accepted? && k == (req.agency, req.key.value)
            then k in after.claims && after.claims[k] == Claim(req.bodyHash, id, now)
            else (k in after.claims <==> k in db.claims && now < db.claims[k].createdAt + limits.ClaimMillis())
                 && (k in after.claims ==> after.claims[k] == db.claims[k]))
  {
  }

  // --- the life of a scan ------------------------------------------------------------------------------------------

  /** No other row changed. */
  ghost predicate OnlyRow(db: Db, after: Db, id: ScanId) {
    forall other :: other != id ==>
      (other in after.scans <==> other in db.scans) && (other in db.scans ==> after.scans[other] == db.scans[other])
  }

  /** The columns that no transaction rewrites, and when the scan was started. */
  predicate SameScan(a: Row, b: Row) {
    a.agency == b.agency && a.client == b.client && a.host == b.host && a.createdAt == b.createdAt
  }

  predicate Is(db: Db, id: ScanId, status: Status) {
    id in db.scans && db.scans[id].status == status
  }

  /** Only a queued scan is marked running, with the time of its start; the caller learns whether it was. */
  lemma MarkStarts(db: Db, id: ScanId, now: int)
    ensures var (after, marked) := MarkRunning(db, id, now);
      && marked == Is(db, id, Queued)
      && (!marked ==> after == db)
      && (marked ==>
            && OnlyRow(db, after, id) && after.clients == db.clients && after.claims == db.claims
            && id in after.scans && SameScan(db.scans[id], after.scans[id])
            && after.scans[id].status == Running && after.scans[id].startedAt == Some(now)
            && after.scans[id].finishedAt == db.scans[id].finishedAt
            && after.scans[id].resultPath == db.scans[id].resultPath
            && after.scans[id].errorCode == db.scans[id].errorCode)
  {
  }

  /** A scan that delivers its report while it is running is completed, with that report; otherwise nothing happens. */
  lemma FinishCompletes(db: Db, id: ScanId, path: Path, now: int)
    ensures var after := FinishScan(db, id, path, now);
      && (!Is(db, id, Running) ==> after == db)
      && (Is(db, id, Running) ==>
            && OnlyRow(db, after, id) && after.clients == db.clients && after.claims == db.claims
            && id in after.scans && SameScan(db.scans[id], after.scans[id])
            && after.scans[id].status == Completed && after.scans[id].resultPath == Some(path)
            && after.scans[id].finishedAt == Some(now) && after.scans[id].startedAt == db.scans[id].startedAt
            && after.scans[id].errorCode == db.scans[id].errorCode)
  {
  }

  /** A scan that has not ended is failed with the error code, without a report; otherwise nothing happens. */
  lemma FailFails(db: Db, id: ScanId, code: ErrorCode, now: int)
    ensures var after := FailScan(db, id, code, now);
      && (!Is(db, id, Queued) && !Is(db, id, Running) ==> after == db)
      && (Is(db, id, Queued) || Is(db, id, Running) ==>
            && OnlyRow(db, after, id) && after.clients == db.clients && after.claims == db.claims
            && id in after.scans && SameScan(db.scans[id], after.scans[id])
            && after.scans[id].status == Failed && after.scans[id].errorCode == Some(code)
            && after.scans[id].finishedAt == Some(now) && after.scans[id].startedAt == db.scans[id].startedAt
            && after.scans[id].resultPath == db.scans[id].resultPath)
  {
  }

  /** Recovery fails exactly the running scans, as interrupted. */
  lemma RecoveryInterrupts(db: Db, now: int, id: ScanId)
    ensures var after := RecoverInterrupted(db, now);
      && after.clients == db.clients && after.claims == db.claims && (id in after.scans <==> id in db.scans)
      && (id in db.scans && db.scans[id].status != Running ==> after.scans[id] == db.scans[id])
      && (Is(db, id, Running) ==>
            && SameScan(db.scans[id], after.scans[id])
            && after.scans[id].status == Failed && after.scans[id].errorCode == Some(Interrupted)
            && after.scans[id].finishedAt == Some(now) && after.scans[id].startedAt == db.scans[id].startedAt
            && after.scans[id].resultPath == db.scans[id].resultPath)
  {
  }
}
