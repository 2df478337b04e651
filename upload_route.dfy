/**
 * The batch upload handler. Each file of the form is checked (size, then
 * type, then sanitised name); a rejected file yields an error entry and the
 * loop goes on; an accepted file gets a fresh access id, its bytes are saved
 * in the database's file store under "<accessId>_<name>", and a record
 * expiring 48 hours later is created. Any exception from storage or the
 * database ends the batch with a single 500 response; what was written
 * before it stays.
 */
module UploadRoute {
  import opened Wrappers
  import opened Utils
  import opened FileModel
  import opened Backend

  /** One `file` entry of the multipart form. */
  datatype UploadedFile = UploadedFile(name: string, fileType: string, size: int, content: seq<bv8>)

  /** Which foreign call throws while an accepted file is being stored. */
  datatype Fault =
    | NoFault
    | SaveThrows     // the file store refuses the bytes
    | ConnectThrows  // the database connection fails after the bytes were saved

  /**
   * What the foreign code yields for one file, should that file be accepted:
   * the generated access id, the file store's id for the saved bytes, and the
   * fault, if any.
   */
  datatype Draw = Draw(accessId: string, gridFsId: string, fault: Fault)

  /** The generator's output: 16 characters of the URL-safe alphabet A-Z a-z 0-9 _ -. */
  predicate IsAccessId(id: string)
  {
    |id| == 16 &&
    forall i :: 0 <= i < |id| ==>
      ('A' <= id[i] <= 'Z') || ('a' <= id[i] <= 'z') || ('0' <= id[i] <= '9') || id[i] == '_' || id[i] == '-'
  }

  /** One entry of the response's `files` list. */
  datatype FileResult =
    | Rejected(fileName: string, error: string)
    | Stored(accessId: string, fileName: string, expiresAt: int)

  datatype Response =
    | NoFiles               // 400 "No files provided"
    | Created(files: seq<FileResult>)  // 201 with one entry per file
    | Failed                // 500 "Failed to upload files"
  {
    function Status(): int
    {
      match this
      case NoFiles => 400
      case Created(_) => 201
      case Failed => 500
    }
  }

  const SizeError := "File size exceeds 100MB limit"
  const TypeError := "File type not allowed for security reasons"
  const NameError := "Invalid filename"

  /** The outcome of the three checks on one file. */
  datatype Verdict = Reject(error: string) | Accept(sanitizedName: string)

  /** The checks run in a fixed order and the first that fails decides the message. */
  function Check(f: UploadedFile): (v: Verdict)
    ensures v == Reject(SizeError) <==> !ValidateFileSize(f.size)
    ensures v == Reject(TypeError) <==> ValidateFileSize(f.size) && !ValidateFileType(f.fileType)
    ensures v == Reject(NameError) <==>
      ValidateFileSize(f.size) && ValidateFileType(f.fileType) && SanitizeFilename(f.name) == ""
    ensures v.Accept? <==>
      ValidateFileSize(f.size) && ValidateFileType(f.fileType) && SanitizeFilename(f.name) != ""
    ensures v.Accept? ==> v.sanitizedName == SanitizeFilename(f.name)
  {
    if !ValidateFileSize(f.size) then Reject(SizeError)
    else if !ValidateFileType(f.fileType) then Reject(TypeError)
    else
      var name := SanitizeFilename(f.name);
      if name == "" then Reject(NameError) else Accept(name)
  }

  /** The record an accepted file should produce when nothing throws. */
  function RecordFor(f: UploadedFile, d: Draw, name: string, now: int): FileRecord
  {
    FileRecord(name, f.size, f.fileType, Some(d.gridFsId), None, d.accessId, now, CalculateExpirationDate(now))
  }

  /** The response entry a file earns when the batch completes. */
  function EntryFor(f: UploadedFile, d: Draw, now: int): FileResult
  {
    match Check(f)
    case Reject(e) => Rejected(f.name, e)
    case Accept(name) => Stored(d.accessId, name, CalculateExpirationDate(now))
  }

  /**
   * One iteration of the loop. `Err` carries the backend as it stands when
   * the exception is thrown.
   */
  function ProcessFile(f: UploadedFile, d: Draw, b: Backend, now: int): (r: Result<(FileResult, Backend), Backend>)
    ensures Check(f).Reject? ==> r == Ok((Rejected(f.name, Check(f).error), b))
    ensures IsAccessId(d.accessId) ==>
      (r.Ok? <==> Check(f).Reject? || (d.fault == NoFault && f.fileType != "" && d.accessId !in b.files))
    ensures r.Ok? && Check(f).Accept? ==>
      var name := Check(f).sanitizedName;
      && r.value.0 == Stored(d.accessId, name, CalculateExpirationDate(now))
      && r.value.1.gridFs == b.gridFs[d.gridFsId := Blob(d.accessId + "_" + name, f.content)]
      && r.value.1.files == b.files[d.accessId := RecordFor(f, d, name, now)]
      && r.value.1.blobUrls == b.blobUrls
      && d.accessId !in b.files
    ensures r.Err? ==> r.error == b || (r.error.gridFs.Keys == b.gridFs.Keys + {d.gridFsId} && r.error.files == b.files)
    ensures r.Err? ==> r.error.blobUrls == b.blobUrls
  {
    match Check(f)
    case Reject(e) => Ok((Rejected(f.name, e), b))
    case Accept(name) =>
      if d.fault == SaveThrows then Err(b)
      else
        var saved := b.(gridFs := b.gridFs[d.gridFsId := Blob(d.accessId + "_" + name, f.content)]);
        var expiresAt := CalculateExpirationDate(now);
        if d.fault == ConnectThrows then Err(saved)
        else
          var created := Create(saved.files, NewFile(name, f.size, f.fileType, Some(d.gridFsId), None,
                                                     d.accessId, None, expiresAt), now);
          assert IsAccessId(d.accessId) ==> d.accessId != [];
          if created.Err? then Err(saved)
          else
            var (files, record) := created.value;
            assert d.fault == NoFault;
            assert f.fileType != "";
            assert d.accessId !in b.files;
            Ok((Stored(record.accessId, record.fileName, record.expiresAt), saved.(files := files)))
  }

  datatype BatchOutcome =
    | Completed(results: seq<FileResult>, backend: Backend)
    | Threw(backend: Backend)

  /** The loop over a prefix of the batch: the last file is processed after all earlier ones. */
  function ProcessBatch(files: seq<UploadedFile>, draws: seq<Draw>, b: Backend, now: int): BatchOutcome
    requires |draws| == |files|
    decreases |files|
  {
    if files == [] then Completed([], b)
    else
      var n := |files| - 1;
      match ProcessBatch(files[..n], draws[..n], b, now)
      case Threw(thrown) => Threw(thrown)
      case Completed(results, current) =>
        match ProcessFile(files[n], draws[n], current, now)
        case Err(thrown) => Threw(thrown)
        case Ok((entry, next)) => Completed(results + [entry], next)
  }

  /**
   * The handler: the response and the backend afterwards. An empty form gets
   * 400 and nothing else does; a 201 carries one entry per file, in order.
   */
  function Post(files: seq<UploadedFile>, draws: seq<Draw>, b: Backend, now: int): (r: (Response, Backend))
    requires |draws| == |files|
    ensures r.0.Status() == 400 <==> |files| == 0
    ensures |files| == 0 ==> r.1 == b
    ensures r.0.Created? ==>
      |r.0.files| == |files| && forall i :: 0 <= i < |files| ==> r.0.files[i] == EntryFor(files[i], draws[i], now)
  {
    if |files| == 0 then (NoFiles, b)
    else
      match ProcessBatch(files, draws, b, now)
      case Completed(results, after) =>
        CompletedResults(files, draws, b, now);
        (Created(results), after)
      case Threw(after) => (Failed, after)
  }

  /** Once the loop has thrown on a prefix, the whole batch ends in the same state. */
  lemma {:induction false} ThrowEndsBatch(files: seq<UploadedFile>, draws: seq<Draw>, b: Backend, now: int, k: nat)
    requires |draws| == |files| && k <= |files|
    requires ProcessBatch(files[..k], draws[..k], b, now).Threw?
    ensures ProcessBatch(files, draws, b, now) == ProcessBatch(files[..k], draws[..k], b, now)
    decreases |files|
  {
    if k < |files| {
      var n := |files| - 1;
      assert files[..n][..k] == files[..k] && draws[..n][..k] == draws[..k];
      ThrowEndsBatch(files[..n], draws[..n], b, now, k);
    } else {
      assert files[..k] == files && draws[..k] == draws;
    }
  }

  /** One more iteration of the loop extends the prefix by one file. */
  lemma BatchStep(files: seq<UploadedFile>, draws: seq<Draw>, b: Backend, now: int, i: nat,
                  results: seq<FileResult>, current: Backend)
    requires |draws| == |files| && i < |files|
    requires ProcessBatch(files[..i], draws[..i], b, now) == Completed(results, current)
    ensures ProcessBatch(files[..i + 1], draws[..i + 1], b, now) ==
      match ProcessFile(files[i], draws[i], current, now)
      case Err(thrown) => Threw(thrown)
      case Ok((entry, next)) => Completed(results + [entry], next)
  {
    assert files[..i + 1][..i] == files[..i] && draws[..i + 1][..i] == draws[..i];
  }

  /** The handler as written: a loop that pushes one entry per file and returns at the first exception. */
  method HandlePost(files: seq<UploadedFile>, draws: seq<Draw>, backend: Backend, now: int)
    returns (response: Response, after: Backend)
    requires |draws| == |files|
    ensures (response, after) == Post(files, draws, backend, now)
  {
    if |files| == 0 {
      return NoFiles, backend;
    }
    var results: seq<FileResult> := [];
    var b := backend;
    var i := 0;
    while i < |files|
      invariant 0 <= i <= |files|
      invariant ProcessBatch(files[..i], draws[..i], backend, now) == Completed(results, b)
    {
      var file, draw := files[i], draws[i];
      BatchStep(files, draws, backend, now, i, results, b);
      if !ValidateFileSize(file.size) {
        results := results + [Rejected(file.name, SizeError)];
        i := i + 1;
        continue;
      }
      if !ValidateFileType(file.fileType) {
        results := results + [Rejected(file.name, TypeError)];
        i := i + 1;
        continue;
      }
      var sanitizedName := SanitizeFilename(file.name);
      if sanitizedName == "" {
        results := results + [Rejected(file.name, NameError)];
        i := i + 1;
        continue;
      }
      var accessId := draw.accessId;
      var uniqueFilename := accessId + "_" + sanitizedName;
      if draw.fault == SaveThrows {
        ThrowEndsBatch(files, draws, backend, now, i + 1);
        return Failed, b;
      }
      b := b.(gridFs := b.gridFs[draw.gridFsId := Blob(uniqueFilename, file.content)]);
      var expiresAt := CalculateExpirationDate(now);
      if draw.fault == ConnectThrows {
        ThrowEndsBatch(files, draws, backend, now, i + 1);
        return Failed, b;
      }
      var created := Create(b.files, NewFile(sanitizedName, file.size, file.fileType, Some(draw.gridFsId), None,
                                             accessId, None, expiresAt), now);
      if created.Err? {
        ThrowEndsBatch(files, draws, backend, now, i + 1);
        return Failed, b;
      }
      var record := created.value.1;
      b := b.(files := created.value.0);
      results := results + [Stored(record.accessId, record.fileName, record.expiresAt)];
      i := i + 1;
    }
    assert files[..i] == files && draws[..i] == draws;
    return Created(results), b;
  }

  // ---------------------------------------------------------------------
  // Properties of the batch
  // ---------------------------------------------------------------------

  /** The access ids the batch assigns: those of the accepted files. */
  function AcceptedIds(files: seq<UploadedFile>, draws: seq<Draw>): set<string>
    requires |draws| == |files|
  {
    if files == [] then {}
    else
      var n := |files| - 1;
      AcceptedIds(files[..n], draws[..n]) + (if Check(files[n]).Accept? then {draws[n].accessId} else {})
  }

  /** The file store ids the batch writes: those of the accepted files. */
  function AcceptedBlobs(files: seq<UploadedFile>, draws: seq<Draw>): set<string>
    requires |draws| == |files|
  {
    if files == [] then {}
    else
      var n := |files| - 1;
      AcceptedBlobs(files[..n], draws[..n]) + (if Check(files[n]).Accept? then {draws[n].gridFsId} else {})
  }

  /**
   * A completed batch answers every file, in input order: a rejected file by
   * its original name and the first failing check's message, an accepted one
   * by its access id, sanitised name and expiry.
   */
  lemma {:induction false} CompletedResults(files: seq<UploadedFile>, draws: seq<Draw>, b: Backend, now: int)
    requires |draws| == |files|
    requires ProcessBatch(files, draws, b, now).Completed?
    ensures |ProcessBatch(files, draws, b, now).results| == |files|
    ensures forall i :: 0 <= i < |files| ==> ProcessBatch(files, draws, b, now).results[i] == EntryFor(files[i], draws[i], now)
    decreases |files|
  {
    if files != [] {
      var n := |files| - 1;
      CompletedResults(files[..n], draws[..n], b, now);
      var out := ProcessBatch(files, draws, b, now);
      forall i | 0 <= i < |files| ensures out.results[i] == EntryFor(files[i], draws[i], now) {
        if i < n { assert files[..n][i] == files[i] && draws[..n][i] == draws[i]; }
      }
    }
  }

  /**
   * A completed batch writes records under exactly the accepted files' access
   * ids and bytes under exactly their file store ids; earlier records keep
   * their values and the blob service is not touched.
   */
  lemma {:induction false} CompletedWrites(files: seq<UploadedFile>, draws: seq<Draw>, b: Backend, now: int)
    requires |draws| == |files|
    requires ProcessBatch(files, draws, b, now).Completed?
    ensures var after := ProcessBatch(files, draws, b, now).backend;
      && after.files.Keys == b.files.Keys + AcceptedIds(files, draws)
      && (forall id :: id in b.files ==> after.files[id] == b.files[id])
      && after.gridFs.Keys == b.gridFs.Keys + AcceptedBlobs(files, draws)
      && after.blobUrls == b.blobUrls
    decreases |files|
  {
    if files != [] {
      var n := |files| - 1;
      CompletedWrites(files[..n], draws[..n], b, now);
    }
  }

  /**
   * Every accepted file of a completed batch has its record, with the
   * sanitised name, the declared size and type, the file store id, no
   * blob URL, and an expiry 48 hours after the request; given fresh, distinct
   * file store ids, its bytes sit under "<accessId>_<name>".
   */
  lemma {:induction false} AcceptedFileStored(files: seq<UploadedFile>, draws: seq<Draw>, b: Backend, now: int, k: nat)
    requires |draws| == |files| && k < |files|
    requires ProcessBatch(files, draws, b, now).Completed?
    requires Check(files[k]).Accept?
    requires forall i, j :: 0 <= i < j < |draws| ==> draws[i].gridFsId != draws[j].gridFsId
    ensures var out := ProcessBatch(files, draws, b, now).backend;
      var name := SanitizeFilename(files[k].name);
      && draws[k].accessId in out.files
      && out.files[draws[k].accessId] == FileRecord(name, files[k].size, files[k].fileType, Some(draws[k].gridFsId), None,
                                                     draws[k].accessId, now, now + 172800000)
      && draws[k].gridFsId in out.gridFs
      && out.gridFs[draws[k].gridFsId] == Blob(draws[k].accessId + "_" + name, files[k].content)
    decreases |files|
  {
    var n := |files| - 1;
    assert files == files[..n] + [files[n]];
    var prefix := ProcessBatch(files[..n], draws[..n], b, now);
    var out := ProcessBatch(files, draws, b, now);
    if k < n {
      assert files[..n][k] == files[k] && draws[..n][k] == draws[k];
      AcceptedFileStored(files[..n], draws[..n], b, now, k);
      if Check(files[n]).Accept? {
        assert draws[k].accessId in prefix.backend.files;
        assert draws[k].gridFsId != draws[n].gridFsId;
      }
    }
  }

  /** A batch whose files all fail a check answers 201 with one error entry each and writes nothing. */
  lemma AllRejected(files: seq<UploadedFile>, draws: seq<Draw>, b: Backend, now: int)
    requires |draws| == |files| && |files| > 0
    requires forall i :: 0 <= i < |files| ==> Check(files[i]).Reject?
    ensures var (response, after) := Post(files, draws, b, now);
      && response.Status() == 201
      && response == Created(seq(|files|, i requires 0 <= i < |files| => Rejected(files[i].name, Check(files[i]).error)))
      && after == b
  {
    AllRejectedBatch(files, draws, b, now);
    var out := ProcessBatch(files, draws, b, now);
    assert out.results == seq(|files|, i requires 0 <= i < |files| => Rejected(files[i].name, Check(files[i]).error));
  }

  lemma {:induction false} AllRejectedBatch(files: seq<UploadedFile>, draws: seq<Draw>, b: Backend, now: int)
    requires |draws| == |files|
    requires forall i :: 0 <= i < |files| ==> Check(files[i]).Reject?
    ensures ProcessBatch(files, draws, b, now).Completed?
    ensures ProcessBatch(files, draws, b, now).backend == b
    ensures |ProcessBatch(files, draws, b, now).results| == |files|
    ensures forall i :: 0 <= i < |files| ==>
      ProcessBatch(files, draws, b, now).results[i] == Rejected(files[i].name, Check(files[i]).error)
    decreases |files|
  {
    if files != [] {
      var n := |files| - 1;
      forall i | 0 <= i < n ensures Check(files[..n][i]).Reject? { assert files[..n][i] == files[i]; }
      AllRejectedBatch(files[..n], draws[..n], b, now);
      var out := ProcessBatch(files, draws, b, now);
      forall i | 0 <= i < |files| ensures out.results[i] == Rejected(files[i].name, Check(files[i]).error) {
        if i < n { assert files[..n][i] == files[i]; }
      }
    }
  }

  /** An empty form is refused with 400 before anything is touched. */
  lemma NoFilesProvided(draws: seq<Draw>, b: Backend, now: int)
    requires |draws| == 0
    ensures Post([], draws, b, now) == (NoFiles, b)
    ensures Post([], draws, b, now).0.Status() == 400
  {
  }

  /**
   * Whatever the outcome, nothing written earlier is undone or overwritten:
   * old records keep their values, the file store only gains ids, and the
   * unique-access-id invariant of the File collection holds afterwards.
   */
  lemma {:induction false} NoRollback(files: seq<UploadedFile>, draws: seq<Draw>, b: Backend, now: int)
    requires |draws| == |files|
    ensures var after := ProcessBatch(files, draws, b, now).backend;
      && b.files.Keys <= after.files.Keys
      && (forall id :: id in b.files ==> after.files[id] == b.files[id])
      && b.gridFs.Keys <= after.gridFs.Keys
      && after.blobUrls == b.blobUrls
      && (ValidStore(b.files) ==> ValidStore(after.files))
    decreases |files|
  {
    if files != [] {
      var n := |files| - 1;
      NoRollback(files[..n], draws[..n], b, now);
      var prefix := ProcessBatch(files[..n], draws[..n], b, now);
      if prefix.Completed? {
        var step := ProcessFile(files[n], draws[n], prefix.backend, now);
        if step.Ok? && Check(files[n]).Accept? {
          var name := Check(files[n]).sanitizedName;
          var doc := NewFile(name, files[n].size, files[n].fileType, Some(draws[n].gridFsId), None,
                             draws[n].accessId, None, CalculateExpirationDate(now));
          assert Create(prefix.backend.files, doc, now).Ok?;
        }
      }
    }
  }

  /**
   * An exception on file `k` ends the request with 500 but undoes nothing:
   * the records written for the accepted files before it stay, and so do the
   * bytes saved so far.
   */
  lemma ThrowKeepsEarlierWrites(files: seq<UploadedFile>, draws: seq<Draw>, b: Backend, now: int, k: nat,
                                results: seq<FileResult>, c: Backend)
    requires |draws| == |files| && k < |files|
    requires ProcessBatch(files[..k], draws[..k], b, now) == Completed(results, c)
    requires ProcessFile(files[k], draws[k], c, now).Err?
    ensures Post(files, draws, b, now).0 == Failed
    ensures Post(files, draws, b, now).1.files == c.files
    ensures c.gridFs.Keys <= Post(files, draws, b, now).1.gridFs.Keys
    ensures c.files.Keys == b.files.Keys + AcceptedIds(files[..k], draws[..k])
  {
    BatchStep(files, draws, b, now, k, results, c);
    ThrowEndsBatch(files, draws, b, now, k + 1);
    CompletedWrites(files[..k], draws[..k], b, now);
  }

  /**
   * A file whose browser-reported type is empty passes the type check, but its
   * record has an empty required field: the insert throws after the bytes were
   * saved, so the whole request answers 500 and the bytes stay orphaned.
   */
  lemma EmptyTypeThrows(f: UploadedFile, d: Draw, b: Backend, now: int)
    requires Check(f).Accept? && f.fileType == "" && d.fault == NoFault
    ensures ProcessFile(f, d, b, now).Err?
    ensures d.gridFsId in ProcessFile(f, d, b, now).error.gridFs
    ensures ProcessFile(f, d, b, now).error.files == b.files
  {
  }

  /**
   * The name check only rejects names the sanitiser empties: a name holding
   * one character that no pass removes is accepted when size and type pass.
   */
  lemma OrdinaryNameAccepted(f: UploadedFile, i: int)
    requires ValidateFileSize(f.size) && ValidateFileType(f.fileType)
    requires 0 <= i < |f.name| && IsOrdinary(f.name[i])
    ensures Check(f) == Accept(SanitizeFilename(f.name))
  {
    var c := f.name[i];
    assert c in multiset(f.name);
    SanitizeKeepsOrdinary(f.name, c);
    assert c in multiset(SanitizeFilename(f.name));
  }

  /** Generated access ids are never empty, so with a known type only a taken id or a fault throws. */
  lemma TakenAccessIdThrows(f: UploadedFile, d: Draw, b: Backend, now: int)
    requires Check(f).Accept? && f.fileType != "" && d.fault == NoFault && IsAccessId(d.accessId)
    ensures ProcessFile(f, d, b, now).Err? <==> d.accessId in b.files
  {
  }
}
