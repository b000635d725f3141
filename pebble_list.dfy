/**
 * The Pebble-backed store (`PebbleList`, fslist/pebble.go).
 *
 * `Add` serialises an entry and upserts it into the ordered key-value
 * engine under the entry's Name bytes; every other operation of the store is
 * a stub that returns a constant. The database handle is the key-value
 * contents it holds; opening the database and the JSON encoder are
 * parameters.
 */
module PebbleStore {
  import opened Bytes
  import opened Wrappers
  import opened PebbleDb
  import opened FsListAddData
  import opened FsListOptions

  datatype StoreError =
    | NoLocation      // "Must supply a location for the database"
    | OpenFailed      // pebble.Open reported an error
    | MarshalFailed   // json.Marshal reported an error
    | SetFailed       // db.Set reported an error

  /** JSON marshalling of an entry; None when it fails. */
  type Encoder = AddData -> Option<Bytes>

  class PebbleList {
    var db: seq<KV>
    const location: Bytes

    ghost predicate Valid()
      reads this
    {
      Sorted(db)
    }

    /** `OpenPebble` after pebble.Open succeeded with the contents `db`. */
    constructor Open(location: Bytes, db: seq<KV>)
      requires Sorted(db)
      ensures Valid()
      ensures this.location == location && this.db == db
    {
      this.location := location;
      this.db := db;
    }

    /** The store never reports pending work. */
    method Pending() returns (p: bool)
      ensures !p
    {
      return false;
    }

    /**
     * Marshals `data` and stores it under the key `data.Name` (not the
     * normalised `pebbleKey`). A marshal failure or a failed write returns
     * the error and leaves the contents as they were.
     */
    method Add(data: AddData, encode: Encoder, setOk: bool) returns (err: Option<StoreError>)
      requires Valid()
      modifies this`db
      ensures Valid()
      ensures encode(data).None? ==> err == Some(MarshalFailed) && db == old(db)
      ensures encode(data).Some? && !setOk ==> err == Some(SetFailed) && db == old(db)
      ensures encode(data).Some? && setOk ==> err == None && db == Set(old(db), data.name, encode(data).value)
    {
      var encoded := encode(data);
      if encoded.None? {
        return Some(MarshalFailed);
      }
      if !setOk {
        return Some(SetFailed);
      }
      db := Set(db, data.name, encoded.value);
      return None;
    }

    /** Deleting is not implemented: it succeeds and removes nothing. */
    method Delete(name: Bytes) returns (err: Option<StoreError>)
      ensures err == None
    {
      return None;
    }

    /** The length is not implemented and always reads 0. */
    method Len() returns (n: int)
      ensures n == 0
    {
      return 0;
    }

    /** Copying is not implemented: it writes nothing and succeeds. */
    method Copy(opts: ReadOptions) returns (err: Option<StoreError>)
      ensures err == None
    {
      return None;
    }
  }

  /**
   * `NewPebble(location)`: an empty location is refused before anything is
   * opened; otherwise `open` is what pebble.Open gives for that location
   * (None when it fails, else the contents already stored there).
   */
  method NewPebble(location: Bytes, open: Option<seq<KV>>) returns (s: PebbleList?, err: Option<StoreError>)
    requires open.Some? ==> Sorted(open.value)
    ensures |location| == 0 ==> s == null && err == Some(NoLocation)
    ensures |location| > 0 && open.None? ==> s == null && err == Some(OpenFailed)
    ensures |location| > 0 && open.Some? ==>
      err == None && s != null && fresh(s) && s.Valid() && s.location == location && s.db == open.value
  {
    if |location| == 0 {
      return null, Some(NoLocation);
    }
    if open.None? {
      return null, Some(OpenFailed);
    }
    s := new PebbleList.Open(location, open.value);
    err := None;
  }

  /**
   * An added entry is found under its Name and under no other key: for a
   * directory whose Name lacks the trailing `/`, the normalised key
   * `pebbleKey` still reads what it read before.
   */
  lemma AddKeyIsName(db: seq<KV>, data: AddData, encoded: Bytes)
    requires Sorted(db)
    ensures Get(Set(db, data.name, encoded), data.name) == Some(encoded)
    ensures PebbleKey(data) != data.name ==>
      Get(Set(db, data.name, encoded), PebbleKey(data)) == Get(db, PebbleKey(data))
  {
  }
}
