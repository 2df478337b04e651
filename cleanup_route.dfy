/**
 * The expiration sweep. A request must carry the shared secret as a bearer
 * token; the handler then finds every record whose expiry is strictly before
 * `now` and, one record at a time, deletes its blob (when it has a blob URL)
 * and then the record. A failure on one record is counted and the sweep goes
 * on; the summary reports how many were found, deleted and failed.
 */
module CleanupRoute {
  import opened Wrappers
  import opened Utils
  import opened FileModel
  import opened Backend

  // ---------------------------------------------------------------------
  // The bearer-secret gate
  // ---------------------------------------------------------------------

  /**
   * The header the handler expects, built as a template literal: an unset
   * secret is rendered as the text "undefined".
   */
  function ExpectedHeaderAsWritten(secret: Option<string>): string
  {
    "Bearer " + secret.GetOr("undefined")
  }

  /**
   * The gate as written: the header must equal the expected text exactly, so
   * with a secret set it must be "Bearer " followed by the secret, and with
   * the secret unset it must be "Bearer undefined".
   */
  function AuthorizedAsWritten(header: Option<string>, secret: Option<string>): (ok: bool)
    ensures secret.Some? ==> (ok <==> header == Some("Bearer " + secret.value))
    ensures secret.None? ==> (ok <==> header == Some("Bearer undefined"))
  {
    assert "Bearer " + "undefined" == "Bearer undefined";
    header == Some(ExpectedHeaderAsWritten(secret))
  }

  /** The gate as intended: there must be a secret, and the header must be "Bearer " followed by it. */
  predicate Authorized(header: Option<string>, secret: Option<string>)
  {
    secret.Some? && header == Some("Bearer " + secret.value)
  }

  /** The intended gate is closed without a secret and agrees with the written one whenever a secret is set. */
  lemma AuthorizedIntended(header: Option<string>, secret: Option<string>)
    ensures !Authorized(header, None)
    ensures secret.Some? ==> (Authorized(header, secret) <==> AuthorizedAsWritten(header, secret))
    ensures Authorized(header, secret) <==> secret.Some? && header.Some? && header.value == "Bearer " + secret.value
  {
  }

  /** Which bearer check guards the handler: the one written, or the intended one. */
  datatype Gate = WrittenGate | IntendedGate

  predicate Admits(gate: Gate, header: Option<string>, secret: Option<string>)
  {
    match gate
    case WrittenGate => AuthorizedAsWritten(header, secret)
    case IntendedGate => Authorized(header, secret)
  }

  // ---------------------------------------------------------------------
  // The sweep
  // ---------------------------------------------------------------------

  /**
   * Which foreign calls throw: the connection or the query (the whole request
   * fails), the blob deletion for some URLs, the record deletion for some ids.
   */
  datatype Faults = Faults(dbThrows: bool, delThrows: set<string>, deleteThrows: set<string>)

  datatype Summary = Summary(total: nat, deleted: nat, errors: nat)

  datatype Response =
    | Unauthorized            // 401
    | Completed(results: Summary)  // 200 "Cleanup completed"
    | InternalError           // 500
  {
    function Status(): int
    {
      match this
      case Unauthorized => 401
      case Completed(_) => 200
      case InternalError => 500
    }
  }

  /** The records the query finds: expiry strictly before `now`. */
  function ExpiredIds(files: Store, now: int): (ids: set<string>)
    ensures ids <= files.Keys
  {
    set id | id in files && files[id].expiresAt < now
  }

  /** A blob deletion is attempted only for a blob URL that is set and non-empty (a truthy string). */
  predicate HasBlobUrl(r: FileRecord)
  {
    r.blobUrl.Some? && r.blobUrl.value != ""
  }

  /** Both deletions for this record succeed. */
  predicate Removable(r: FileRecord, id: string, faults: Faults)
  {
    !(HasBlobUrl(r) && r.blobUrl.value in faults.delThrows) && id !in faults.deleteThrows
  }

  /** Among `ids`, the records whose blob and record deletions both succeed. */
  function Removed(files: Store, ids: set<string>, faults: Faults): (removed: set<string>)
    ensures removed <= ids
  {
    set id | id in ids && id in files && Removable(files[id], id, faults)
  }

  /** Among `ids`, the blob URLs whose deletion succeeds. */
  function Freed(files: Store, ids: set<string>, faults: Faults): set<string>
  {
    set id | id in ids && id in files && HasBlobUrl(files[id]) && files[id].blobUrl.value !in faults.delThrows
      :: files[id].blobUrl.value
  }

  /** The sweep once the gate and the query have passed: the summary and the backend afterwards. */
  function Sweep(b: Backend, now: int, faults: Faults): (Summary, Backend)
  {
    var expired := ExpiredIds(b.files, now);
    var removed := Removed(b.files, expired, faults);
    (Summary(|expired|, |removed|, |expired - removed|),
     b.(files := b.files - removed, blobUrls := b.blobUrls - Freed(b.files, expired, faults)))
  }

  /**
   * The handler: the response and the backend afterwards. A refused header
   * gets 401; a completed sweep counts every found record once, as deleted
   * or as an error; only a completed sweep changes anything.
   */
  function Cleanup(gate: Gate, header: Option<string>, secret: Option<string>, b: Backend, now: int,
                   faults: Faults): (r: (Response, Backend))
    ensures r.0 == Unauthorized <==> !Admits(gate, header, secret)
    ensures r.0.Completed? ==>
      && r.0.results.total == |ExpiredIds(b.files, now)|
      && r.0.results.deleted + r.0.results.errors == r.0.results.total
    ensures !r.0.Completed? ==> r.1 == b
  {
    if !Admits(gate, header, secret) then (Unauthorized, b)
    else if faults.dbThrows then (InternalError, b)
    else
      var expired := ExpiredIds(b.files, now);
      var removed := Removed(b.files, expired, faults);
      assert expired == removed + (expired - removed);
      var (summary, after) := Sweep(b, now, faults);
      (Completed(summary), after)
  }

  /** Handling one more found record adds it to exactly one of the two counts. */
  lemma CountStep(files: Store, done: set<string>, id: string, faults: Faults)
    requires id in files && id !in done
    ensures var removed, removed' := Removed(files, done, faults), Removed(files, done + {id}, faults);
      if Removable(files[id], id, faults) then
        removed' == removed + {id} && |removed'| == |removed| + 1 &&
        (done + {id}) - removed' == done - removed
      else
        removed' == removed &&
        |(done + {id}) - removed'| == |done - removed| + 1
  {
  }

  /** Handling one more found record frees its blob URL exactly when the blob deletion succeeds. */
  lemma FreedStep(files: Store, done: set<string>, id: string, faults: Faults)
    requires id in files
    ensures Freed(files, done + {id}, faults) ==
      Freed(files, done, faults) +
      (if HasBlobUrl(files[id]) && files[id].blobUrl.value !in faults.delThrows then {files[id].blobUrl.value} else {})
  {
  }

  /** The sweep's progress after handling the found records in `done`. */
  predicate Progress(found: Store, done: set<string>, faults: Faults, deleted: nat, errors: nat,
                     files: Store, urls: set<string>, b: Backend)
  {
    && deleted == |Removed(found, done, faults)|
    && errors == |done - Removed(found, done, faults)|
    && files == b.files - Removed(found, done, faults)
    && urls == b.blobUrls - Freed(found, done, faults)
  }

  /** Handling one more found record keeps the progress accounting right. */
  lemma ProgressStep(b: Backend, done: set<string>, id: string, faults: Faults, deleted: nat, errors: nat,
                     files: Store, urls: set<string>)
    requires id in b.files && id !in done
    requires Progress(b.files, done, faults, deleted, errors, files, urls, b)
    ensures var file := b.files[id];
      var ok := Removable(file, id, faults);
      Progress(b.files, done + {id}, faults,
               if ok then deleted + 1 else deleted, if ok then errors else errors + 1,
               if ok then files - {id} else files,
               if HasBlobUrl(file) && file.blobUrl.value !in faults.delThrows then urls - {file.blobUrl.value} else urls,
               b)
  {
    CountStep(b.files, done, id, faults);
    FreedStep(b.files, done, id, faults);
    var removed := Removed(b.files, done, faults);
    if Removable(b.files[id], id, faults) {
      assert (b.files - removed) - {id} == b.files - (removed + {id});
    }
  }

  /**
   * The per-record `try`: delete the blob when the record has a blob URL,
   * then the record, and count a deletion; the first call that throws
   * abandons the rest and counts an error instead.
   */
  method CleanUpRecord(id: string, file: FileRecord, faults: Faults, results: Summary, files: Store, urls: set<string>)
    returns (results': Summary, files': Store, urls': set<string>)
    ensures results' == if Removable(file, id, faults) then results.(deleted := results.deleted + 1)
                         else results.(errors := results.errors + 1)
    ensures files' == if Removable(file, id, faults) then files - {id} else files
    ensures urls' == if HasBlobUrl(file) && file.blobUrl.value !in faults.delThrows
                     then urls - {file.blobUrl.value} else urls
  {
    files', urls' := files, urls;
    if HasBlobUrl(file) {
      if file.blobUrl.value in faults.delThrows {
        return results.(errors := results.errors + 1), files', urls';
      }
      urls' := urls' - {file.blobUrl.value};
    }
    if id in faults.deleteThrows {
      return results.(errors := results.errors + 1), files', urls';
    }
    files' := files' - {id};
    results' := results.(deleted := results.deleted + 1);
  }

  /** One iteration of the loop: handle one more found record and keep the accounting right. */
  method VisitRecord(backend: Backend, faults: Faults, ghost done: set<string>, id: string,
                     results: Summary, files: Store, urls: set<string>)
    returns (results': Summary, files': Store, urls': set<string>)
    requires id in backend.files && id !in done
    requires Progress(backend.files, done, faults, results.deleted, results.errors, files, urls, backend)
    ensures results'.total == results.total
    ensures Progress(backend.files, done + {id}, faults, results'.deleted, results'.errors, files', urls', backend)
  {
    ProgressStep(backend, done, id, faults, results.deleted, results.errors, files, urls);
    results', files', urls' := CleanUpRecord(id, backend.files[id], faults, results, files, urls);
  }

  /**
   * The handler as written: the gate, the query, then one pass over the found
   * records.
   */
  method HandleCleanup(gate: Gate, header: Option<string>, secret: Option<string>, backend: Backend, now: int,
                       faults: Faults)
    returns (response: Response, after: Backend)
    ensures (response, after) == Cleanup(gate, header, secret, backend, now, faults)
  {
    if !Admits(gate, header, secret) {
      return Unauthorized, backend;
    }
    if faults.dbThrows {
      return InternalError, backend;
    }
    var expiredFiles := ExpiredIds(backend.files, now);
    var results, files, urls := SweepFound(backend, expiredFiles, faults);
    SweepDone(backend, now, faults, results, files, urls);
    return Completed(results), backend.(files := files, blobUrls := urls);
  }

  /**
   * The loop of the handler: one pass over the found records, in whatever
   * order the query returns them, counting successes and failures.
   */
  method SweepFound(backend: Backend, found: set<string>, faults: Faults)
    returns (results: Summary, files: Store, urls: set<string>)
    requires found <= backend.files.Keys
    ensures results.total == |found|
    ensures Progress(backend.files, found, faults, results.deleted, results.errors, files, urls, backend)
  {
    results := Summary(|found|, 0, 0);
    files, urls := backend.files, backend.blobUrls;
    var done: set<string> := {};
    while found - done != {}
      invariant done <= found
      invariant results.total == |found|
      invariant Progress(backend.files, done, faults, results.deleted, results.errors, files, urls, backend)
      decreases found - done
    {
      var id :| id in found - done;
      results, files, urls := VisitRecord(backend, faults, done, id, results, files, urls);
      done := done + {id};
    }
    assert done == found;
  }

  /** Once every found record is handled, the progress is the sweep's outcome. */
  lemma SweepDone(b: Backend, now: int, faults: Faults, results: Summary, files: Store, urls: set<string>)
    requires results.total == |ExpiredIds(b.files, now)|
    requires Progress(b.files, ExpiredIds(b.files, now), faults, results.deleted, results.errors, files, urls, b)
    ensures (results, b.(files := files, blobUrls := urls)) == Sweep(b, now, faults)
  {
  }

  // ---------------------------------------------------------------------
  // Properties of the sweep
  // ---------------------------------------------------------------------

  /** The query's strict comparison selects exactly the records `IsExpired` calls expired at the same instant. */
  lemma ExpiredMeansIsExpired(files: Store, now: int, id: string)
    ensures id in ExpiredIds(files, now) <==> id in files && IsExpired(files[id].expiresAt, now)
  {
  }

  /** A record written at `created` with the 48-hour expiry is swept exactly when `now` is past the window. */
  lemma SweptAfterWindow(files: Store, id: string, created: int, now: int)
    requires id in files && files[id].expiresAt == CalculateExpirationDate(created)
    ensures id in ExpiredIds(files, now) <==> now > created + 172800000
  {
  }

  /**
   * What the sweep changes: records before `now` whose deletions succeed go,
   * failed ones stay, and every record expiring at or after `now` is kept
   * unchanged. The database's file store is never touched, so bytes referenced
   * only by a file store id stay behind.
   */
  lemma SweepEffect(gate: Gate, header: Option<string>, secret: Option<string>, b: Backend, now: int, faults: Faults)
    ensures var (response, after) := Cleanup(gate, header, secret, b, now, faults);
      && after.gridFs == b.gridFs
      && after.files.Keys <= b.files.Keys
      && (forall id :: id in after.files ==> after.files[id] == b.files[id])
      && (forall id :: id in b.files && b.files[id].expiresAt >= now ==> id in after.files)
      && (response.Completed? ==>
            forall id :: id in b.files ==>
              (id !in after.files <==> b.files[id].expiresAt < now && Removable(b.files[id], id, faults)))
      && (!response.Completed? ==> after == b)
  {
  }

  /** A wrong or missing bearer token answers 401 and touches nothing. */
  lemma WrongTokenTouchesNothing(gate: Gate, header: Option<string>, secret: Option<string>, b: Backend, now: int, faults: Faults)
    requires !Admits(gate, header, secret)
    ensures Cleanup(gate, header, secret, b, now, faults) == (Unauthorized, b)
    ensures Cleanup(gate, header, secret, b, now, faults).0.Status() == 401
  {
  }

  /** A record whose blob deletion throws is kept and counted as an error. */
  lemma FailedBlobDeleteKeepsRecord(gate: Gate, header: Option<string>, secret: Option<string>, b: Backend, now: int,
                                    faults: Faults, id: string)
    requires Admits(gate, header, secret) && !faults.dbThrows
    requires id in b.files && b.files[id].expiresAt < now
    requires HasBlobUrl(b.files[id]) && b.files[id].blobUrl.value in faults.delThrows
    ensures var (response, after) := Cleanup(gate, header, secret, b, now, faults);
      id in after.files && response.results.errors >= 1
  {
    var expired := ExpiredIds(b.files, now);
    assert id in expired && id !in Removed(b.files, expired, faults);
  }

  /** The sweep keeps the File collection's unique-access-id invariant. */
  lemma SweepKeepsStoreValid(gate: Gate, header: Option<string>, secret: Option<string>, b: Backend, now: int, faults: Faults)
    requires ValidStore(b.files)
    ensures ValidStore(Cleanup(gate, header, secret, b, now, faults).1.files)
  {
  }

  /**
   * When every deletion succeeds, a second sweep at the same instant finds
   * nothing, deletes nothing and changes nothing.
   */
  lemma SweepIdempotent(gate: Gate, header: Option<string>, secret: Option<string>, b: Backend, now: int,
                          faults: Faults, faults2: Faults)
    requires Admits(gate, header, secret) && !faults.dbThrows && !faults2.dbThrows
    requires forall id :: id in b.files && b.files[id].expiresAt < now ==> Removable(b.files[id], id, faults)
    ensures var after := Cleanup(gate, header, secret, b, now, faults).1;
      var (response2, after2) := Cleanup(gate, header, secret, after, now, faults2);
      && response2 == Completed(Summary(0, 0, 0))
      && after2.files == after.files
  {
  }

  /**
   * With the secret unset, the handler as written runs the sweep for anyone
   * who sends "Bearer undefined"; the intended gate refuses that request.
   */
  lemma UnsetSecretRunsSweep(b: Backend, now: int, faults: Faults)
    requires !faults.dbThrows
    ensures Cleanup(WrittenGate, Some("Bearer undefined"), None, b, now, faults).0.Completed?
    ensures Cleanup(IntendedGate, Some("Bearer undefined"), None, b, now, faults) == (Unauthorized, b)
  {
  }
}
