/** The options a store's Fetch takes (fslist.ReadOptions). */
module FsListOptions {
  import opened Bytes

  datatype ReadOptions = ReadOptions(
    prefix: Bytes,
    limit: int,
    dirsOnly: bool,
    filesOnly: bool,
    currentDir: Bytes)
}
