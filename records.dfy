/** The database rows the background tasks read and write
    (backend/core/models.py), and the session they go through. */
module Records {
  import opened Wrappers
  import opened StorageKeys

  /** A `file_metadata` row. Times are seconds on one clock; `created_at`
      is a nullable column, so a row may have no creation time. The
      encrypted name and wrapped key columns are opaque to the backend and
      left out. */
  datatype FileMetadata = FileMetadata(
    id: Id,
    ownerId: Id,
    sizeBytes: int,
    uploadStatus: string,
    avScanStatus: string,
    avScanResult: Option<string>,
    createdAt: Option<int>)

  /** The JSON `details` of the audit entries the Celery tasks write. */
  datatype AuditDetails =
    | CleanupDetails(deletedFiles: nat, failedDeletions: nat, cutoffDate: int)
    | ScanInfectedDetails(fileId: Id, virusName: Option<string>, severity: string)

  /** An `audit_logs` row; no user for system events. */
  datatype AuditLog = AuditLog(userId: Option<Id>, action: string, details: AuditDetails)

  /** `query(FileMetadata).filter(id == ...).first()`: the position of the
      first row with that id. */
  function FindFile(files: seq<FileMetadata>, id: Id): (k: Option<nat>)
    ensures k.Some? ==> k.value < |files| && files[k.value].id == id
    ensures k.Some? ==> forall j :: 0 <= j < k.value ==> files[j].id != id
    ensures k.None? ==> forall j :: 0 <= j < |files| ==> files[j].id != id
  {
    if files == [] then None
    else if files[0].id == id then Some(0)
    else match FindFile(files[1..], id)
      case None => None
      case Some(j) => Some(j + 1)
  }

  /** The rows left once the staged deletions are committed, in order. */
  function RemoveRecords(files: seq<FileMetadata>, staged: set<FileMetadata>): (kept: seq<FileMetadata>)
    ensures forall f :: f in kept <==> f in files && f !in staged
    ensures |kept| <= |files|
  {
    if files == [] then []
    else RemoveRecords(files[..|files| - 1], staged)
         + (if files[|files| - 1] in staged then [] else [files[|files| - 1]])
  }

  /** A database session: the two tables, plus (as a ghost record) every
      `av_scan_status` value committed, in order. */
  class Database {
    var files: seq<FileMetadata>
    var audits: seq<AuditLog>
    ghost var scanStatusLog: seq<(Id, string)>

    constructor (rows: seq<FileMetadata>, log: seq<AuditLog>)
      ensures files == rows && audits == log && scanStatusLog == []
    {
      files := rows;
      audits := log;
      scanStatusLog := [];
    }

    /** Set a row's scan status and result and commit. */
    method SetScanStatus(k: nat, status: string, result: Option<string>)
      requires k < |files|
      modifies this
      ensures files == old(files)[k := old(files)[k].(avScanStatus := status, avScanResult := result)]
      ensures audits == old(audits)
      ensures scanStatusLog == old(scanStatusLog) + [(old(files)[k].id, status)]
    {
      files := files[k := files[k].(avScanStatus := status, avScanResult := result)];
      scanStatusLog := scanStatusLog + [(files[k].id, status)];
    }

    /** `db.add(audit)` followed by a commit. */
    method AddAudit(entry: AuditLog)
      modifies this
      ensures audits == old(audits) + [entry]
      ensures files == old(files) && scanStatusLog == old(scanStatusLog)
    {
      audits := audits + [entry];
    }

    /** A commit of `db.delete(row)` for every staged row. */
    method CommitDeletes(staged: set<FileMetadata>)
      modifies this
      ensures files == RemoveRecords(old(files), staged)
      ensures audits == old(audits) && scanStatusLog == old(scanStatusLog)
    {
      files := RemoveRecords(files, staged);
    }
  }
}
