/** Virus scanning (backend/tasks/antivirus.py): the classification of
    ClamAV's reply and the scan task's updates to a file's scan status.
    The clamd socket is a set of replies given as inputs; the storage
    download is the sequence of pieces the backend yields, or the message
    of what it raised. */
module Antivirus {
  import opened Wrappers
  import opened StorageKeys
  import opened Blobs
  import opened Config
  import opened Records

  /** One entry of clamd's `instream` result: a tag and an optional detail. */
  datatype ScanTuple = ScanTuple(tag: string, detail: Option<string>)

  /** What `client.instream(data)` did: raised, or returned a (possibly
      missing) dictionary keyed by stream name. */
  datatype InstreamReply =
    | InstreamRaised(message: string)
    | InstreamReturned(result: Option<map<string, ScanTuple>>)

  /** The dictionary `scan_stream` returns, by its 'status' key. */
  datatype ScanResult =
    | Clean
    | Infected(virusName: Option<string>)
    | ScanError(message: string)

  /** Python's `str` of a `str | None`. */
  function PyStr(o: Option<string>): string
  {
    match o
    case None => "None"
    case Some(v) => v
  }

  /** Python's `str` of a two-element tuple of strings or None. */
  function TupleRepr(t: ScanTuple): string
  {
    "('" + t.tag + "', " + (match t.detail case None => "None" case Some(d) => "'" + d + "'") + ")"
  }

  /** The 'status' string of a scan result. */
  function StatusName(r: ScanResult): (name: string)
    ensures name in ["clean", "infected", "error"]
  {
    match r
    case Clean => "clean"
    case Infected(_) => "infected"
    case ScanError(_) => "error"
  }

  /** `ClamAVScanner.__init__`: refuses to connect while scanning is off. */
  function OpenScanner(s: Settings): (o: Outcome<string>)
    ensures o.Pass? <==> s.clamavEnabled
    ensures o.Fail? ==> o.error == "ClamAV is not enabled"
  {
    if !s.clamavEnabled then Fail("ClamAV is not enabled") else Pass
  }

  /** `ClamAVScanner.ping`: True only for a "PONG" reply; a failing ping
      (given as a Failure) is False. */
  predicate Ping(reply: Result<string, string>) {
    reply.Success? && reply.value == "PONG"
  }

  /** `ClamAVScanner.scan_stream`: clean exactly when the stream's verdict
      is 'OK', infected with the verdict's detail as virus name exactly
      when it is 'FOUND'; any other verdict, a missing result or stream
      entry, or an exception from the client, is an error. */
  function ScanStream(reply: InstreamReply): (r: ScanResult)
    ensures r == Clean <==>
              reply.InstreamReturned? && reply.result.Some? && "stream" in reply.result.value
              && reply.result.value["stream"].tag == "OK"
    ensures r.Infected? <==>
              reply.InstreamReturned? && reply.result.Some? && "stream" in reply.result.value
              && reply.result.value["stream"].tag == "FOUND"
    ensures r.Infected? ==> r.virusName == reply.result.value["stream"].detail
    ensures reply.InstreamRaised? ==> r == ScanError(reply.message)
    ensures reply.InstreamReturned? && (reply.result.None? || "stream" !in reply.result.value) ==>
              r == ScanError("Unexpected scan result format")
  {
    match reply
    case InstreamRaised(msg) => ScanError(msg)
    case InstreamReturned(result) =>
      if result.Some? && "stream" in result.value then
        var verdict := result.value["stream"];
        if verdict.tag == "OK" then Clean
        else if verdict.tag == "FOUND" then Infected(verdict.detail)
        else ScanError(TupleRepr(verdict))
      else ScanError("Unexpected scan result format")
  }

  /** The reply clamd gives for a verdict classifies back to that verdict. */
  lemma ScanStreamRoundTrip(virusName: Option<string>)
    ensures ScanStream(InstreamReturned(Some(map["stream" := ScanTuple("OK", None)]))) == Clean
    ensures ScanStream(InstreamReturned(Some(map["stream" := ScanTuple("FOUND", virusName)]))) == Infected(virusName)
  {
  }

  /** How a scan task run ends, before its database effects: skipped,
      scanned with a result, or failed with an exception message. */
  datatype Verdict = Skipped | Scanned(result: ScanResult) | Failed(message: string)

  /** The reference run of the Celery task on an existing row: scanning switched
      off, ClamAV not answering, a download that raises, or the result of
      scanning the downloaded bytes. */
  function RunVerdict(s: Settings, pingReply: Result<string, string>, download: Result<seq<Bytes>, string>,
                      instream: Bytes -> InstreamReply): Verdict
  {
    if !s.clamavEnabled then Skipped
    else if !Ping(pingReply) then Failed("ClamAV is not responding")
    else if download.Failure? then Failed(download.error)
    else Scanned(ScanStream(instream(Flatten(download.value))))
  }

  /** The `av_scan_status` a verdict leaves. */
  function FinalStatus(v: Verdict): string
  {
    match v
    case Skipped => "skipped"
    case Scanned(r) => StatusName(r)
    case Failed(_) => "error"
  }

  /** The `av_scan_result` a verdict leaves. */
  function FinalResult(v: Verdict): string
  {
    match v
    case Skipped => "ClamAV disabled"
    case Scanned(Clean) => "No threats detected"
    case Scanned(Infected(name)) => "Virus found: " + PyStr(name)
    case Scanned(ScanError(msg)) => msg
    case Failed(msg) => "Scan failed: " + msg
  }

  /** The task's return value: its dictionary, or the retry it raises. */
  datatype TaskOutcome =
    | Returned(fileId: Id, status: string, message: string, details: Option<ScanResult>)
    | Retry(error: string)

  /** The audit entry for an infected file. */
  function InfectedAudit(fileId: Id, userId: Id, virusName: Option<string>): AuditLog
  {
    AuditLog(Some(userId), "file_scan_infected", ScanInfectedDetails(fileId, virusName, "critical"))
  }

  /** The final scan status always names what happened: the row is
      'infected' exactly when the scanner reported FOUND, and 'clean'
      exactly when it reported OK; a run that raised is always 'error'. */
  lemma FinalStatusMeaning(s: Settings, pingReply: Result<string, string>, download: Result<seq<Bytes>, string>,
                           instream: Bytes -> InstreamReply)
    ensures var v := RunVerdict(s, pingReply, download, instream);
            && FinalStatus(v) in ["skipped", "clean", "infected", "error"]
            && (FinalStatus(v) == "skipped" <==> !s.clamavEnabled)
            && (FinalStatus(v) == "infected" <==> v.Scanned? && v.result.Infected?)
            && (FinalStatus(v) == "clean" <==> v.Scanned? && v.result == Clean)
            && (v.Failed? ==> FinalStatus(v) == "error")
  {
    var v := RunVerdict(s, pingReply, download, instream);
    if v.Scanned? {
      var r := v.result;
      assert FinalStatus(v) == StatusName(r);
    }
  }

  /** The concatenation loop of `read_file`: the downloaded pieces, joined. */
  method ReadAll(pieces: seq<Bytes>) returns (data: Bytes)
    ensures data == Flatten(pieces)
  {
    data := [];
    var i := 0;
    while i < |pieces|
      invariant 0 <= i <= |pieces|
      invariant data == Flatten(pieces[..i])
    {
      assert pieces[..i + 1][..i] == pieces[..i];
      data := data + pieces[i];
      i := i + 1;
    }
    assert pieces[..i] == pieces;
  }

  /** The part of `scan_file_task` between the 'scanning' commit and the
      final status: the enabled check, the scanner and its ping, the
      download and the scan. It touches no row. */
  method RunScan(s: Settings, pingReply: Result<string, string>, download: Result<seq<Bytes>, string>,
                 instream: Bytes -> InstreamReply) returns (v: Verdict)
    ensures v == RunVerdict(s, pingReply, download, instream)
  {
    if !s.clamavEnabled {
      return Skipped;
    }
    var scanner := OpenScanner(s);
    assert scanner == Pass;
    if !Ping(pingReply) {
      return Failed("ClamAV is not responding");
    }
    if download.Failure? {
      return Failed(download.error);
    }
    var data := ReadAll(download.value);
    return Scanned(ScanStream(instream(data)));
  }

  /** The final commit of `scan_file_task` for the row at `k`: the
      verdict's status and result, the audit entry for an infected file,
      and the Celery task's return value or retry. */
  method RecordVerdict(db: Database, k: nat, fileId: Id, userId: Id, v: Verdict) returns (t: TaskOutcome)
    requires k < |db.files|
    modifies db
    ensures db.files == old(db.files)[k := old(db.files)[k].(avScanStatus := FinalStatus(v), avScanResult := Some(FinalResult(v)))]
    ensures db.scanStatusLog == old(db.scanStatusLog) + [(old(db.files)[k].id, FinalStatus(v))]
    ensures db.audits == old(db.audits) + (if v.Scanned? && v.result.Infected? then [InfectedAudit(fileId, userId, v.result.virusName)] else [])
    ensures v.Failed? <==> t.Retry?
    ensures t.Returned? ==> t.fileId == fileId && t.status == FinalStatus(v)
  {
    match v {
      case Skipped =>
        db.SetScanStatus(k, "skipped", Some("ClamAV disabled"));
        t := Returned(fileId, "skipped", "ClamAV is disabled", None);
      case Scanned(Clean) =>
        db.SetScanStatus(k, "clean", Some("No threats detected"));
        t := Returned(fileId, "clean", "File is clean", Some(Clean));
      case Scanned(Infected(name)) =>
        db.SetScanStatus(k, "infected", Some("Virus found: " + PyStr(name)));
        db.AddAudit(InfectedAudit(fileId, userId, name));
        t := Returned(fileId, "infected", "Virus detected: " + PyStr(name), Some(Infected(name)));
      case Scanned(ScanError(msg)) =>
        db.SetScanStatus(k, "error", Some(msg));
        t := Returned(fileId, "error", "Scan error: " + msg, Some(ScanError(msg)));
      case Failed(failure) =>
        db.SetScanStatus(k, "error", Some("Scan failed: " + failure));
        t := Retry(failure);
    }
  }

  /** `scan_file_task(file_id, user_id)`. A missing row raises "File not
      found" and the Celery task retries with nothing changed. Otherwise the row's
      status is committed as 'scanning' first and then as the verdict's
      final status and result; an infected verdict also adds the critical
      audit entry, whose user is the `user_id` argument of the call (not
      the row's owner); a failure retries. */
  method ScanFileTask(db: Database, s: Settings, fileId: Id, userId: Id, pingReply: Result<string, string>,
                      download: Result<seq<Bytes>, string>, instream: Bytes -> InstreamReply)
    returns (t: TaskOutcome)
    modifies db
    ensures FindFile(old(db.files), fileId).None? ==>
              && t == Retry("File not found: " + fileId)
              && db.files == old(db.files) && db.audits == old(db.audits)
              && db.scanStatusLog == old(db.scanStatusLog)
    ensures FindFile(old(db.files), fileId).Some? ==>
              var k := FindFile(old(db.files), fileId).value;
              var v := RunVerdict(s, pingReply, download, instream);
              && db.files == old(db.files)[k := old(db.files)[k].(avScanStatus := FinalStatus(v), avScanResult := Some(FinalResult(v)))]
              && db.scanStatusLog == old(db.scanStatusLog) + [(fileId, "scanning"), (fileId, FinalStatus(v))]
              && db.audits == old(db.audits) + (if v.Scanned? && v.result.Infected? then [InfectedAudit(fileId, userId, v.result.virusName)] else [])
              && (v.Failed? <==> t.Retry?)
              && (t.Returned? ==> t.fileId == fileId && t.status == FinalStatus(v))
  {
    var found := FindFile(db.files, fileId);
    if found.None? {
      return Retry("File not found: " + fileId);
    }
    var k := found.value;
    var row := db.files[k];
    db.SetScanStatus(k, "scanning", row.avScanResult);
    ghost var log := db.scanStatusLog;
    var v := RunScan(s, pingReply, download, instream);
    t := RecordVerdict(db, k, fileId, userId, v);
    assert db.files[k] == row.(avScanStatus := FinalStatus(v), avScanResult := Some(FinalResult(v)));
    assert db.scanStatusLog == log + [(fileId, FinalStatus(v))];
    assert log == old(db.scanStatusLog) + [(fileId, "scanning")];
  }
}
