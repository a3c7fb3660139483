/** The periodic clean-up sweep (backend/tasks/cleanup.py). The clock is an
    input (`now`, in seconds), the storage backend's `delete_file` is an
    oracle from row to outcome, and a failure of the database or of the
    backend lookup outside the per-file loop is an input naming where it
    strikes. */
module Cleanup {
  import opened Wrappers
  import opened Records

  const SecondsPerDay: int := 86400

  /** The number of days a caller of `cleanup_old_files_task` gets by default. */
  const DefaultDays: int := 90

  /** What `storage.delete_file` did for one row: returned True, returned
      False, or raised. */
  datatype DeleteOutcome = Deleted | NotDeleted | Raised(message: string)

  /** Where an exception outside the per-file loop strikes, if anywhere:
      the query or the backend lookup, the commit of the deletions, or the
      commit of the audit entry. */
  datatype Fault =
    | NoFault
    | SetupFails(message: string)
    | CommitFails(message: string)
    | AuditCommitFails(message: string)

  /** The dictionary the Celery task returns: status 'success' (Completed) with the counts,
      or status 'error' (Aborted) with the message and the counts reached so far. */
  datatype Report =
    | Completed(deletedCount: nat, failedCount: nat)
    | Aborted(message: string, deletedCount: nat, failedCount: nat)

  /** `cutoff_date = utcnow() - timedelta(days=days)`. */
  function Cutoff(now: int, days: int): int
  {
    now - days * SecondsPerDay
  }

  /** The query's filter: failed uploads, and pending uploads created
      strictly before the cutoff. SQL's `created_at < cutoff` is not true
      for a NULL creation time, so such a pending row is not selected. */
  predicate Selected(f: FileMetadata, cutoff: int) {
    f.uploadStatus == "failed" || (f.uploadStatus == "pending" && f.createdAt.Some? && f.createdAt.value < cutoff)
  }

  /** The query's result: the selected rows, in table order. */
  function Select(files: seq<FileMetadata>, cutoff: int): (sel: seq<FileMetadata>)
    ensures |sel| <= |files|
    ensures forall f :: f in sel <==> f in files && Selected(f, cutoff)
  {
    if files == [] then []
    else Select(files[..|files| - 1], cutoff)
         + (if Selected(files[|files| - 1], cutoff) then [files[|files| - 1]] else [])
  }

  /** How many of `rows` the storage reported deleted. */
  function DeletedCount(rows: seq<FileMetadata>, outcome: FileMetadata -> DeleteOutcome): (n: nat)
    ensures n <= |rows|
  {
    if rows == [] then 0
    else DeletedCount(rows[..|rows| - 1], outcome) + (if outcome(rows[|rows| - 1]) == Deleted then 1 else 0)
  }

  /** A row is doomed when it is selected and its storage delete says so. */
  predicate Doomed(f: FileMetadata, cutoff: int, outcome: FileMetadata -> DeleteOutcome) {
    Selected(f, cutoff) && outcome(f) == Deleted
  }

  /** The rows that survive the sweep, in order: the reference for what
      the committed deletions leave. */
  function Survivors(files: seq<FileMetadata>, cutoff: int, outcome: FileMetadata -> DeleteOutcome): (kept: seq<FileMetadata>)
    ensures forall f :: f in kept <==> f in files && !Doomed(f, cutoff, outcome)
  {
    if files == [] then []
    else Survivors(files[..|files| - 1], cutoff, outcome)
         + (if Doomed(files[|files| - 1], cutoff, outcome) then [] else [files[|files| - 1]])
  }

  /** Removing exactly the doomed rows leaves the survivors. */
  lemma {:induction false} RemoveDoomed(files: seq<FileMetadata>, staged: set<FileMetadata>, cutoff: int,
                                        outcome: FileMetadata -> DeleteOutcome)
    requires forall f :: f in files ==> (f in staged <==> Doomed(f, cutoff, outcome))
    ensures RemoveRecords(files, staged) == Survivors(files, cutoff, outcome)
  {
    if files != [] {
      RemoveDoomed(files[..|files| - 1], staged, cutoff, outcome);
    }
  }

  /** Committing the rows of the query whose delete returned True leaves
      the survivors. */
  lemma RemoveDeleted(files: seq<FileMetadata>, staged: set<FileMetadata>, cutoff: int,
                      outcome: FileMetadata -> DeleteOutcome)
    requires forall f :: f in staged <==> f in Select(files, cutoff) && outcome(f) == Deleted
    ensures RemoveRecords(files, staged) == Survivors(files, cutoff, outcome)
  {
    RemoveDoomed(files, staged, cutoff, outcome);
  }

  /** Every row that is not doomed survives, and so does every row the
      query does not select (a complete upload, a recent pending one). */
  lemma SurvivorsKeep(files: seq<FileMetadata>, cutoff: int, outcome: FileMetadata -> DeleteOutcome, f: FileMetadata)
    requires f in files && !Selected(f, cutoff)
    ensures f in Survivors(files, cutoff, outcome)
  {
  }

  lemma DeletedCountSnoc(rows: seq<FileMetadata>, x: FileMetadata, outcome: FileMetadata -> DeleteOutcome)
    ensures DeletedCount(rows + [x], outcome) == DeletedCount(rows, outcome) + (if outcome(x) == Deleted then 1 else 0)
  {
    assert (rows + [x])[..|rows|] == rows;
  }

  /** The survivors and the rows counted as deleted make up the table. */
  lemma {:induction false} SurvivorsCount(files: seq<FileMetadata>, cutoff: int, outcome: FileMetadata -> DeleteOutcome)
    ensures |Survivors(files, cutoff, outcome)| + DeletedCount(Select(files, cutoff), outcome) == |files|
  {
    if files != [] {
      var init, last := files[..|files| - 1], files[|files| - 1];
      SurvivorsCount(init, cutoff, outcome);
      var sel := Select(init, cutoff);
      assert |Survivors(files, cutoff, outcome)|
          == |Survivors(init, cutoff, outcome)| + (if Doomed(last, cutoff, outcome) then 0 else 1);
      if Selected(last, cutoff) {
        assert Select(files, cutoff) == sel + [last];
        DeletedCountSnoc(sel, last, outcome);
      } else {
        assert Select(files, cutoff) == sel;
      }
    }
  }

  /** The per-file loop of `cleanup_old_files_task`: every row's storage
      object is deleted; a True outcome stages the row's deletion and
      counts it as deleted, while a False outcome or an exception counts
      one failure and the loop goes on. */
  method DeleteSelected(rows: seq<FileMetadata>, outcome: FileMetadata -> DeleteOutcome)
    returns (staged: set<FileMetadata>, deletedCount: nat, failedCount: nat)
    ensures deletedCount == DeletedCount(rows, outcome)
    ensures deletedCount + failedCount == |rows|
    ensures forall f :: f in staged <==> f in rows && outcome(f) == Deleted
  {
    staged, deletedCount, failedCount := {}, 0, 0;
    var i := 0;
    while i < |rows|
      invariant 0 <= i <= |rows|
      invariant deletedCount == DeletedCount(rows[..i], outcome)
      invariant deletedCount + failedCount == i
      invariant forall f :: f in staged <==> f in rows[..i] && outcome(f) == Deleted
    {
      var file := rows[i];
      assert rows[..i + 1] == rows[..i] + [file];
      match outcome(file) {
        case Deleted =>
          staged := staged + {file};
          deletedCount := deletedCount + 1;
        case NotDeleted =>
          failedCount := failedCount + 1;
        case Raised(_) =>
          failedCount := failedCount + 1;
      }
      i := i + 1;
    }
    assert rows[..i] == rows;
  }

  /** `cleanup_old_files_task(days)`. The selected rows go through the
      per-file loop; the staged deletions are committed together, then the
      audit entry (no user, "system_cleanup", the counts and the cutoff)
      is committed. An exception outside the loop returns 'error' with the
      counts reached so far; what was committed before it stays. */
  method CleanupOldFiles(db: Database, now: int, days: int := DefaultDays, outcome: FileMetadata -> DeleteOutcome, fault: Fault)
    returns (report: Report)
    modifies db
    ensures db.scanStatusLog == old(db.scanStatusLog)
    ensures var cutoff := Cutoff(now, days);
            var selected := Select(old(db.files), cutoff);
            var deleted := DeletedCount(selected, outcome);
            && report == (if fault.SetupFails? then Aborted(fault.message, 0, 0)
                          else if fault.NoFault? then Completed(deleted, |selected| - deleted)
                          else Aborted(fault.message, deleted, |selected| - deleted))
            && db.files == (if fault.SetupFails? || fault.CommitFails? then old(db.files)
                            else Survivors(old(db.files), cutoff, outcome))
            && db.audits == (if fault.NoFault? then old(db.audits) + [AuditLog(None, "system_cleanup", CleanupDetails(deleted, |selected| - deleted, cutoff))]
                             else old(db.audits))
  {
    if fault.SetupFails? {
      return Aborted(fault.message, 0, 0);
    }
    var cutoff := Cutoff(now, days);
    var filesToDelete := Select(db.files, cutoff);
    var staged, deletedCount, failedCount := DeleteSelected(filesToDelete, outcome);
    if !fault.CommitFails? {
      db.CommitDeletes(staged);
      RemoveDeleted(old(db.files), staged, cutoff, outcome);
      if !fault.AuditCommitFails? {
        db.AddAudit(AuditLog(None, "system_cleanup", CleanupDetails(deletedCount, failedCount, cutoff)));
      }
    }
    report := if fault.NoFault? then Completed(deletedCount, failedCount)
              else Aborted(fault.message, deletedCount, failedCount);
  }
}
