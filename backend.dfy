/**
 * The services the route handlers talk to, as values: the database's file
 * store for bytes (objects named and addressed by an id), the external blob
 * service (live blob URLs) and the File collection.
 */
module Backend {
  import opened FileModel

  /** A file stored in the database's file store: its name there and its bytes. */
  datatype Blob = Blob(filename: string, content: seq<bv8>)

  datatype Backend = Backend(
    gridFs: map<string, Blob>,
    blobUrls: set<string>,
    files: Store)
}
