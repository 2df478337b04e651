/**
 * The File collection: one metadata record per shared file, kept in a
 * document store whose unique index on `accessId` makes the collection a
 * map from access id to record.
 */
module FileModel {
  import opened Wrappers

  /** A stored record. `gridFsId` and `blobUrl` are the two optional storage references. */
  datatype FileRecord = FileRecord(
    fileName: string,
    fileSize: int,
    fileType: string,
    gridFsId: Option<string>,
    blobUrl: Option<string>,
    accessId: string,
    createdAt: int,
    expiresAt: int)

  /** The document handed to `create`; `createdAt` may be left out. */
  datatype NewFile = NewFile(
    fileName: string,
    fileSize: int,
    fileType: string,
    gridFsId: Option<string>,
    blobUrl: Option<string>,
    accessId: string,
    createdAt: Option<int>,
    expiresAt: int)

  /** The collection, keyed by access id. */
  type Store = map<string, FileRecord>

  datatype CreateError =
    | ValidationError  // a required string field is empty
    | DuplicateKey     // the unique index on accessId already holds the id

  /**
   * The schema's required String fields. The document store's `required`
   * check refuses an empty string as well as a missing one.
   */
  predicate HasRequiredFields(fileName: string, fileType: string, accessId: string)
  {
    fileName != "" && fileType != "" && accessId != ""
  }

  /** Every record sits under its own access id and carries its required fields. */
  predicate ValidStore(store: Store)
  {
    forall id :: id in store ==>
      store[id].accessId == id &&
      HasRequiredFields(store[id].fileName, store[id].fileType, store[id].accessId)
  }

  /**
   * Inserts a record: the required fields are validated first, then the
   * unique index is consulted; `createdAt` defaults to the creation instant.
   */
  function Create(store: Store, doc: NewFile, now: int): (r: Result<(Store, FileRecord), CreateError>)
    ensures r.Ok? <==> HasRequiredFields(doc.fileName, doc.fileType, doc.accessId) && doc.accessId !in store
    ensures r == Err(ValidationError) <==> !HasRequiredFields(doc.fileName, doc.fileType, doc.accessId)
    ensures r.Ok? ==>
      var (store', record) := r.value;
      && record.accessId == doc.accessId
      && record.fileName == doc.fileName && record.fileSize == doc.fileSize && record.fileType == doc.fileType
      && record.gridFsId == doc.gridFsId && record.blobUrl == doc.blobUrl
      && record.createdAt == (if doc.createdAt.Some? then doc.createdAt.value else now)
      && record.expiresAt == doc.expiresAt
      && store' == store[doc.accessId := record]
    ensures ValidStore(store) && r.Ok? ==> ValidStore(r.value.0)
  {
    if !HasRequiredFields(doc.fileName, doc.fileType, doc.accessId) then Err(ValidationError)
    else if doc.accessId in store then Err(DuplicateKey)
    else
      var record := FileRecord(doc.fileName, doc.fileSize, doc.fileType, doc.gridFsId, doc.blobUrl,
                               doc.accessId, doc.createdAt.GetOr(now), doc.expiresAt);
      Ok((store[doc.accessId := record], record))
  }

  /** Creating a second record under an access id that is already taken fails. */
  lemma AccessIdUnique(store: Store, first: NewFile, second: NewFile, now: int, later: int)
    requires Create(store, first, now).Ok?
    requires second.accessId == first.accessId
    ensures Create(Create(store, first, now).value.0, second, later).Err?
  {
  }
}
