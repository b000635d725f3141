/**
 * The older fetcher of fslist/pebble_fetch.go. Its store keeps files and
 * directories in two key spaces, each key being a key-type prefix (one for
 * files, one for directories) followed by the path. A fetch copies the file
 * key space (unless only directories are wanted) and then the directory key
 * space, each split at the current directory like the newer fetcher's
 * prefixed fetch. It has no ignore check and no files-only filter, and it
 * only logs the errors of its passes.
 */
module PebbleFetchLegacy {
  import opened Bytes
  import opened Wrappers
  import opened PebbleDb
  import opened FsListAddData
  import opened FsListOptions
  import opened PebbleFetcher
  import opened PebbleFetcherProperties
  import opened Seqs

  /** The loop of this fetchRange checks neither DirsOnly nor FilesOnly. */
  function Unfiltered(opts: ReadOptions): (o: ReadOptions)
    ensures forall d :: !Filtered(o, d)
    ensures o.limit == opts.limit && o.prefix == opts.prefix && o.currentDir == opts.currentDir
  {
    opts.(dirsOnly := false, filesOnly := false)
  }

  /**
   * copySet's bounds in the key space of keyType: [keyType+Prefix,
   * calcUpperBound(keyType+Prefix)), split at keyType+CurrentDir when
   * CurrentDir is set and differs from Prefix.
   */
  function CopySetBounds(keyType: Bytes, opts: ReadOptions): (b: SplitBounds)
    ensures b.lower == keyType + opts.prefix
    ensures b.upper == CalcUpperBound(keyType + opts.prefix)
    ensures b.middle == if |opts.currentDir| > 0 && opts.currentDir != opts.prefix
                        then keyType + opts.currentDir else b.lower
  {
    var lower := keyType + opts.prefix;
    SplitBounds(lower,
                if |opts.currentDir| > 0 && opts.currentDir != opts.prefix then keyType + opts.currentDir else lower,
                CalcUpperBound(lower))
  }

  /** copySet(keyType): the two scans of that key space, without ignores or filters. */
  function CopySetSpec(db: seq<KV>, opts: ReadOptions, decode: Decoder, keyType: Bytes, count: int): Scanned
    requires Sorted(db)
  {
    NoIgnoresSkipsForward(db, decode);
    SplitScanWithin(db, CopySetBounds(keyType, opts), Unfiltered(opts), NoIgnores(), decode, count)
  }

  /** Fetch's file pass: copySet(filePrefix), skipped when only directories are wanted. */
  function FilePass(db: seq<KV>, opts: ReadOptions, decode: Decoder, filePrefix: Bytes, count: int): Scanned
    requires Sorted(db)
  {
    if opts.dirsOnly then Scanned([], [], count, None) else CopySetSpec(db, opts, decode, filePrefix, count)
  }

  /**
   * Fetch: the file pass, then the directory pass starting from the count
   * the file pass returned, whether or not it failed; errors are dropped.
   */
  function LegacyFetchSpec(db: seq<KV>, opts: ReadOptions, decode: Decoder, filePrefix: Bytes, dirPrefix: Bytes,
                           count: int): Scanned
    requires Sorted(db)
  {
    var files := FilePass(db, opts, decode, filePrefix, count);
    var dirs := CopySetSpec(db, opts, decode, dirPrefix, files.count);
    Scanned(files.sent + dirs.sent, files.at + dirs.at, dirs.count, None)
  }

  /** pebbleFetcher of the older key layout. */
  class LegacyFetcher {
    const db: seq<KV>
    const decode: Decoder
    const opts: ReadOptions
    /** The key-type prefixes of the file and of the directory key space. */
    const filePrefix: Bytes
    const dirPrefix: Bytes
    var count: int
    /** Everything sent on the channel, in order. */
    var sent: seq<AddData>
    var closed: bool

    predicate Valid()
    {
      Sorted(db) && |filePrefix| > 0 && |dirPrefix| > 0 && filePrefix != dirPrefix
    }

    constructor (db: seq<KV>, decode: Decoder, opts: ReadOptions, filePrefix: Bytes, dirPrefix: Bytes)
      ensures this.db == db && this.decode == decode && this.opts == opts
      ensures this.filePrefix == filePrefix && this.dirPrefix == dirPrefix
      ensures count == 0 && sent == [] && !closed
    {
      this.db, this.decode, this.opts := db, decode, opts;
      this.filePrefix, this.dirPrefix := filePrefix, dirPrefix;
      count, sent, closed := 0, [], false;
    }

    /** Fetch: both passes, then the channel is closed; the error is always nil. */
    method Fetch() returns (n: int, err: Option<FetchError>)
      requires Valid()
      modifies this
      ensures closed && err == None
      ensures var r := LegacyFetchSpec(db, opts, decode, filePrefix, dirPrefix, old(count));
        sent == old(sent) + r.sent && n == r.count && count == n
    {
      ghost var sent0 := sent;
      ghost var files := FilePass(db, opts, decode, filePrefix, count);
      var e;
      if !opts.dirsOnly {
        count, e := CopySet(filePrefix);
      }
      assert sent == sent0 + files.sent && count == files.count;
      ghost var dirs := CopySetSpec(db, opts, decode, dirPrefix, count);
      count, e := CopySet(dirPrefix);
      AppendAssoc(sent0, files.sent, dirs.sent);
      closed := true;
      return count, None;
    }

    /** copySet(keyType): [middle, upper) first; unless it failed, then [lower, middle). */
    method CopySet(keyType: Bytes) returns (n: int, err: Option<FetchError>)
      requires Valid()
      modifies this`count, this`sent
      ensures var r := CopySetSpec(db, opts, decode, keyType, old(count));
        sent == old(sent) + r.sent && n == r.count && err == r.err
    {
      NoIgnoresSkipsForward(db, decode);
      var lower := keyType + opts.prefix;
      var middle := lower;
      var upper := CalcUpperBound(keyType + opts.prefix);
      if |opts.currentDir| > 0 && opts.currentDir != opts.prefix {
        middle := keyType + opts.currentDir;
      }
      ghost var sent0 := sent;
      count, err := FetchRange(middle, upper);
      if err.Some? {
        return count, err;
      }
      ghost var sent1 := sent;
      n, err := FetchRange(lower, middle);
      AppendAssoc(sent0, sent1[|sent0|..], sent[|sent1|..]);
    }

    /** fetchRange: sends every decodable entry of [lower, upper) in key order until the limit. */
    method FetchRange(lower: Bytes, upper: Bytes) returns (n: int, err: Option<FetchError>)
      requires Valid()
      modifies this`count, this`sent
      ensures SkipsForward(db, NoIgnores(), decode)
      ensures var r := RangeScan(db, lower, upper, Unfiltered(opts), NoIgnores(), decode, old(count));
        sent == old(sent) + r.sent && count == old(count) + |r.sent| && n == r.count && err == r.err
    {
      NoIgnoresSkipsForward(db, decode);
      var plain := Unfiltered(opts);
      ghost var whole := RangeScan(db, lower, upper, plain, NoIgnores(), decode, count);
      ghost var at: seq<nat> := [];
      ghost var emitted: seq<AddData> := [];
      ghost var sent0, count0 := sent, count;
      var i := SeekGE(db, lower);
      ResumeIsAfter(db, lower, upper, plain, NoIgnores(), decode, i, count, [], []);
      while IterValid(db, upper, i)
        invariant i <= |db|
        invariant sent == sent0 + emitted
        invariant count == count0 + |emitted|
        invariant whole == Resume(db, lower, upper, plain, NoIgnores(), decode, i, count, emitted, at)
        decreases |db| - i
      {
        if opts.limit > 0 && count >= opts.limit {
          return count, None;
        }
        var data := decode(db[i].value);
        if data.None? {
          return count, Some(DecodeError(db[i].key));
        }
        var d := data.value;
        assert StepAt(db, lower, upper, plain, NoIgnores(), decode, i, count) == Send(d);
        AppendAssoc(sent0, emitted, [d]);
        sent := sent + [d];
        count := count + 1;
        emitted := emitted + [d];
        at := at + [i];
        i := i + 1;
      }
      return 0, None;
    }
  }

  /** A key that falls in the range of keyType+Prefix, for a last byte below 0xFF, lies in keyType's key space. */
  lemma InKeySpace(keyType: Bytes, prefix: Bytes, k: Bytes)
    requires |keyType + prefix| > 0 && (keyType + prefix)[|keyType + prefix| - 1] < 255
    requires InBounds(k, keyType + prefix, CalcUpperBound(keyType + prefix))
    ensures keyType <= k
  {
    PrefixIffInRange(keyType + prefix, k);
    assert (keyType + prefix)[..|keyType|] == keyType;
  }

  /** Everything copySet(keyType) sends comes from keyType's key space. */
  lemma CopySetInKeySpace(db: seq<KV>, opts: ReadOptions, decode: Decoder, keyType: Bytes, count: int)
    requires Sorted(db) && |keyType| > 0
    requires Ordered(CopySetBounds(keyType, opts))
    requires (keyType + opts.prefix)[|keyType + opts.prefix| - 1] < 255
    ensures var r := CopySetSpec(db, opts, decode, keyType, count);
      forall j :: 0 <= j < |r.at| ==> r.at[j] < |db| && keyType <= db[r.at[j]].key
  {
    NoIgnoresSkipsForward(db, decode);
    var r := CopySetSpec(db, opts, decode, keyType, count);
    SplitScanSends(db, CopySetBounds(keyType, opts), Unfiltered(opts), NoIgnores(), decode, count);
    forall j | 0 <= j < |r.at|
      ensures keyType <= db[r.at[j]].key
    {
      InKeySpace(keyType, opts.prefix, db[r.at[j]].key);
    }
  }

  /** Positions from the file key space followed by positions from the directory key space. */
  lemma JoinKeySpaces(db: seq<KV>, files: seq<nat>, dirs: seq<nat>, filePrefix: Bytes, dirPrefix: Bytes)
    requires forall j :: 0 <= j < |files| ==> files[j] < |db| && filePrefix <= db[files[j]].key
    requires forall j :: 0 <= j < |dirs| ==> dirs[j] < |db| && dirPrefix <= db[dirs[j]].key
    ensures var at := files + dirs;
      && (forall j :: 0 <= j < |files| ==> at[j] < |db| && filePrefix <= db[at[j]].key)
      && (forall j :: |files| <= j < |at| ==> at[j] < |db| && dirPrefix <= db[at[j]].key)
  {
    var at := files + dirs;
    forall j | |files| <= j < |at|
      ensures at[j] < |db| && dirPrefix <= db[at[j]].key
    {
      assert at[j] == dirs[j - |files|];
    }
  }

  /**
   * Every emitted file precedes every emitted directory: the entries of the
   * file pass, none when only directories are wanted, come from the file key
   * space, and all later ones from the directory key space.
   */
  lemma LegacyFilesBeforeDirs(db: seq<KV>, opts: ReadOptions, decode: Decoder, filePrefix: Bytes, dirPrefix: Bytes,
                              count: int)
    requires Sorted(db) && |filePrefix| > 0 && |dirPrefix| > 0
    requires Ordered(CopySetBounds(filePrefix, opts)) && Ordered(CopySetBounds(dirPrefix, opts))
    requires (filePrefix + opts.prefix)[|filePrefix + opts.prefix| - 1] < 255
    requires (dirPrefix + opts.prefix)[|dirPrefix + opts.prefix| - 1] < 255
    ensures var r := LegacyFetchSpec(db, opts, decode, filePrefix, dirPrefix, count);
      var n := |FilePass(db, opts, decode, filePrefix, count).at|;
      && n <= |r.at| && (opts.dirsOnly ==> n == 0)
      && (forall j :: 0 <= j < n ==> r.at[j] < |db| && filePrefix <= db[r.at[j]].key)
      && (forall j :: n <= j < |r.at| ==> r.at[j] < |db| && dirPrefix <= db[r.at[j]].key)
  {
    var files := FilePass(db, opts, decode, filePrefix, count);
    var dirs := CopySetSpec(db, opts, decode, dirPrefix, files.count);
    assert LegacyFetchSpec(db, opts, decode, filePrefix, dirPrefix, count).at == files.at + dirs.at;
    if opts.dirsOnly {
      assert files.at == [];
    } else {
      CopySetInKeySpace(db, opts, decode, filePrefix, count);
    }
    CopySetInKeySpace(db, opts, decode, dirPrefix, files.count);
    JoinKeySpaces(db, files.at, dirs.at, filePrefix, dirPrefix);
  }

  /**
   * Without a limit and with every value decodable, copySet sends each entry
   * whose key extends keyType+Prefix exactly once, and nothing else.
   */
  lemma CopySetExact(db: seq<KV>, opts: ReadOptions, decode: Decoder, keyType: Bytes, count: int)
    requires Sorted(db) && opts.limit <= 0
    requires forall q :: 0 <= q < |db| ==> decode(db[q].value).Some?
    requires Ordered(CopySetBounds(keyType, opts))
    requires |keyType + opts.prefix| > 0 && (keyType + opts.prefix)[|keyType + opts.prefix| - 1] < 255
    ensures var r := CopySetSpec(db, opts, decode, keyType, count);
      && r.err.None? && r.count == 0
      && (forall q :: q in r.at <==> 0 <= q < |db| && keyType + opts.prefix <= db[q].key)
      && (forall j, k :: 0 <= j < k < |r.at| ==> r.at[j] != r.at[k])
  {
    NoIgnoresSkipsForward(db, decode);
    assert Plain(db, Unfiltered(opts), NoIgnores(), decode);
    SplitScanExact(db, CopySetBounds(keyType, opts), Unfiltered(opts), NoIgnores(), decode, count);
    forall q: nat | q < |db|
      ensures keyType + opts.prefix <= db[q].key
        <==> InBounds(db[q].key, keyType + opts.prefix, CalcUpperBound(keyType + opts.prefix))
    {
      PrefixIffInRange(keyType + opts.prefix, db[q].key);
    }
  }
}
