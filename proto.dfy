/**
 * The request and response messages of the query protocol, as the server
 * and the read command see them (field names as in the protocol definition).
 */
module Proto {
  import opened Bytes

  /** Go's int32. */
  type Int32 = x: int | -0x8000_0000 <= x < 0x8000_0000

  /** One result entry: a path and whether it is a directory. */
  datatype File = File(name: Bytes, dir: bool)

  /** A query for the paths under `prefix`, nearest `currentDir` first. */
  datatype ListRequest = ListRequest(
    prefix: Bytes,
    limit: Int32,
    dirsOnly: bool,
    batchSize: Int32,
    currentDir: Bytes,
    filesOnly: bool)

  /** google.protobuf.Empty. */
  datatype Empty = Empty
}
