/** Why each scan of the service is in the state it is in, in every state of every run. */
module ServiceFates {
  import opened Options
  import opened ScanTable
  import opened ScanLaws
  import opened RunnerRules
  import opened ScanService
  import opened ServiceRuns

  predicate CompletedWith(row: Row, path: Path, at: int) {
    row.status == Completed && row.resultPath == Some(path) && row.finishedAt == Some(at)
  }

  predicate FailedWith(row: Row, code: ErrorCode, at: int) {
    row.status == Failed && row.errorCode == Some(code) && row.finishedAt == Some(at)
  }

  /** The row of a scan tells exactly what happened to it. */
  ghost predicate RowTells(row: Row, id: ScanId, fates: set<Fate>) {
    && (forall path, at :: CompletedWith(row, path, at) <==> ThreadEnded(id, Reported(path), at) in fates)
    && (forall at :: FailedWith(row, ScanError, at) <==> ThreadEnded(id, Broke, at) in fates || NoThread(id, at) in fates)
    && (forall at :: FailedWith(row, Interrupted, at) <==> FoundRunning(id, at) in fates)
  }

  ghost predicate RowsTell(s: Sys) {
    && (forall fate :: fate in s.fates ==> fate.id in s.db.scans)
    && (forall id :: id in s.db.scans ==> RowTells(s.db.scans[id], id, s.fates))
  }

  /** What a row says after this fate. */
  predicate ToldBy(row: Row, fate: Fate) {
    match fate
    case ThreadEnded(_, Reported(path), at) => CompletedWith(row, path, at)
    case ThreadEnded(_, Broke, at) => FailedWith(row, ScanError, at)
    case NoThread(_, at) => FailedWith(row, ScanError, at)
    case FoundRunning(_, at) => FailedWith(row, Interrupted, at)
  }

  lemma FateIsTold(row: Row, fates: set<Fate>, fate: Fate)
    requires RowTells(row, fate.id, fates) && fate in fates
    ensures ToldBy(row, fate)
  {
  }

  /** A scan that has not ended has no fate yet. */
  lemma NotEndedHasNoFate(row: Row, id: ScanId, fates: set<Fate>, fate: Fate)
    requires RowTells(row, id, fates) && !Terminal(row.status) && fate in fates
    ensures fate.id != id
  {
    if fate.id == id {
      FateIsTold(row, fates, fate);
    }
  }

  /** Fates of other scans do not matter to a row. */
  lemma OtherFates(row: Row, id: ScanId, fates: set<Fate>, more: set<Fate>)
    requires RowTells(row, id, fates) && forall fate: Fate :: fate.id == id ==> (fate in fates <==> fate in more)
    ensures RowTells(row, id, more)
  {
  }

  /** Rows that have not ended tell the same, whatever else they say. */
  lemma UnendedTells(row: Row, other: Row, id: ScanId, fates: set<Fate>)
    requires RowTells(row, id, fates) && !Terminal(row.status) && !Terminal(other.status)
    ensures RowTells(other, id, fates)
  {
  }

  lemma NewRowTells(row: Row, id: ScanId, fates: set<Fate>)
    requires !Terminal(row.status) && forall fate :: fate in fates ==> fate.id != id
    ensures RowTells(row, id, fates)
  {
    assert ThreadEnded(id, Broke, 0).id == id;
    forall path, at ensures ThreadEnded(id, Reported(path), at) !in fates {
      assert ThreadEnded(id, Reported(path), at).id == id;
    }
    forall at ensures ThreadEnded(id, Broke, at) !in fates && NoThread(id, at) !in fates && FoundRunning(id, at) !in fates {
      assert ThreadEnded(id, Broke, at).id == id && NoThread(id, at).id == id && FoundRunning(id, at).id == id;
    }
  }

  lemma ReceiveTells(c: Limits, s: Sys, req: Request, id: ScanId, now: int)
    requires RowsTell(s)
    ensures RowsTell(AfterReceive(c, s, req, id, now))
  {
    hide CreateScan, RowTells;
    CreateAnswers(s.db, c, req, now, id);
    CreateWrites(s.db, c, req, now, id);
    var t := AfterReceive(c, s, req, id, now);
    if CreateScan(s.db, c, req, now, id).1 == Accepted(id) {
      NewRowTells(t.db.scans[id], id, s.fates);
    }
  }

  lemma TurnTells(c: Limits, s: Sys, now: int)
    requires RowsTell(s) && s.lock.Scanning? && s.lock.left != []
    ensures RowsTell(AfterTurn(c, s, now))
  {
    hide MarkRunning, RowTells, Blocked;
    var id := s.lock.left[0];
    var t := AfterTurn(c, s, now);
    MarkStarts(s.db, id, now);
    if Is(s.db, id, Queued) {
      UnendedTells(s.db.scans[id], MarkRunning(s.db, id, now).0.scans[id], id, s.fates);
    }
  }

  /** One running scan ends, and its fate is told. */
  lemma OneFateMore(s: Sys, t: Sys, id: ScanId, fate: Fate)
    requires RowsTell(s) && Is(s.db, id, Running) && OnlyRow(s.db, t.db, id) && id in t.db.scans
    requires fate.id == id && t.fates == s.fates + {fate}
    requires ToldBy(t.db.scans[id], fate)
    ensures RowsTell(t)
  {
    forall other | other in t.db.scans ensures RowTells(t.db.scans[other], other, t.fates) {
      if other == id {
        forall f | f in s.fates ensures f.id != id {
          NotEndedHasNoFate(s.db.scans[id], id, s.fates, f);
        }
        FirstFate(t.db.scans[id], id, s.fates, fate);
      } else {
        OtherFates(s.db.scans[other], other, s.fates, t.fates);
      }
    }
  }

  lemma FirstFate(row: Row, id: ScanId, fates: set<Fate>, fate: Fate)
    requires fate.id == id && forall f :: f in fates ==> f.id != id
    requires ToldBy(row, fate)
    ensures RowTells(row, id, fates + {fate})
  {
    var more := fates + {fate};
    forall f: Fate | f.id == id ensures f in more <==> f == fate {
    }
    forall path, at ensures CompletedWith(row, path, at) <==> ThreadEnded(id, Reported(path), at) in more {
      assert ThreadEnded(id, Reported(path), at).id == id;
    }
    forall at
      ensures FailedWith(row, ScanError, at) <==> ThreadEnded(id, Broke, at) in more || NoThread(id, at) in more
      ensures FailedWith(row, Interrupted, at) <==> FoundRunning(id, at) in more
    {
      assert ThreadEnded(id, Broke, at).id == id && NoThread(id, at).id == id && FoundRunning(id, at).id == id;
    }
  }

  lemma StartTells(s: Sys, now: int)
    requires RowsTell(s)
    ensures RowsTell(AfterStart(s, now))
  {
    var t := AfterStart(s, now);
    forall id | id in t.db.scans ensures RowTells(t.db.scans[id], id, t.fates) {
      RecoveryInterrupts(s.db, now, id);
      hide RecoverInterrupted;
      if Is(s.db, id, Running) {
        forall f | f in s.fates ensures f.id != id {
          NotEndedHasNoFate(s.db.scans[id], id, s.fates, f);
        }
        FirstFate(t.db.scans[id], id, s.fates, FoundRunning(id, now));
        OtherFates(t.db.scans[id], id, s.fates + {FoundRunning(id, now)}, t.fates);
      } else {
        OtherFates(s.db.scans[id], id, s.fates, t.fates);
      }
    }
  }

  lemma StepTells(c: Limits, s: Sys, a: Action)
    requires Inv(c, s) && RowsTell(s) && Enabled(s, a)
    ensures RowsTell(Apply(c, s, a))
  {
    hide WithinLimits, WithinCaps, DbConsistent, NoneForgotten, StartedOnce, KeysApart, RowsTell, FailScan, FinishScan;
    match a {
      case Receive(req, id, now) => ReceiveTells(c, s, req, id, now);
      case Turn(now) => TurnTells(c, s, now);
      case ThreadFails(now) =>
        FailFails(s.db, s.lock.id, ScanError, now);
        OneFateMore(s, AfterThreadFails(s, now), s.lock.id, NoThread(s.lock.id, now));
      case Ends(id, ending, now) =>
        WorkingIsRunning(s, id);
        EndingTells(s, id, ending, now);
      case Start(now) => StartTells(s, now);
      case _ => SameRowsTell(s, Apply(c, s, a));
    }
  }

  lemma SameRowsTell(s: Sys, t: Sys)
    requires RowsTell(s) && t.db.scans == s.db.scans && t.fates == s.fates
    ensures RowsTell(t)
  {
  }

  lemma EndingTells(s: Sys, id: ScanId, ending: Ending, now: int)
    requires RowsTell(s) && Is(s.db, id, Running)
    ensures RowsTell(AfterEnds(s, id, ending, now))
  {
    hide RowsTell, FailScan, FinishScan;
    match ending {
      case Reported(path) => FinishCompletes(s.db, id, path, now);
      case Broke => FailFails(s.db, id, ScanError, now);
    }
    OneFateMore(s, AfterEnds(s, id, ending, now), id, ThreadEnded(id, ending, now));
  }

  /**
   * The ledger of every run: a scan is completed with a report if and only if its own thread ended with that report, at
   * that time; it is failed with a scan error if and only if its thread broke or could not be started, and as
   * interrupted if and only if a restart found it running.
   */
  lemma {:induction false} RowsTellTheirFate(c: Limits, run: seq<Sys>, i: nat)
    requires IsRun(c, run) && i < |run|
    ensures forall id :: id in run[i].db.scans ==> RowTells(run[i].db.scans[id], id, run[i].fates)
    ensures RowsTell(run[i])
  {
    if i > 0 {
      RowsTellTheirFate(c, run, i - 1);
      EveryStateIsGood(c, run, i - 1);
      var a := StepTo(c, run, i);
      hide Inv, Enabled, Apply, RowTells;
      StepTells(c, run[i - 1], a);
    }
  }
}
