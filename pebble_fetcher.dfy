/**
 * The prefix-range fetch over the Pebble key space (fslist/pebble_fetcher.go).
 *
 * A fetch turns the query prefix P into the half-open key range
 * [P, CalcUpperBound(P)), splits it at the caller's current directory and
 * scans the upper part first, then the lower part. Each scan walks an
 * iterator in ascending key order, decodes each value, drops entries an
 * ignore matcher rejects (seeking past an ignored directory's whole key
 * range), applies the dirs-only / files-only filters and the limit, and sends
 * the remaining entries on the result channel, modelled as the sequence
 * `sent` of everything sent so far.
 */
module PebbleFetcher {
  import opened Bytes
  import opened Wrappers
  import opened PebbleDb
  import opened FsListAddData
  import opened FsListOptions
  import opened Seqs

  /** A gitignore matcher: Match(path, isDir). */
  type Matcher = (Bytes, bool) -> bool

  /** ignoreCache.Get: the matcher that governs a path, if any. */
  type IgnoreLookup = Bytes -> Option<Matcher>

  /** json.Unmarshal of a stored value into an AddData; None when it fails. */
  type Decoder = Bytes -> Option<AddData>

  /** The error a scan stops with: the value under `key` did not decode. */
  datatype FetchError = DecodeError(key: Bytes)

  /**
   * calcUpperBound: the prefix with its last byte incremented (wrapping at
   * 256, as a Go byte does); the empty prefix gives the empty bound.
   */
  function CalcUpperBound(prefix: Bytes): (upper: Bytes)
    ensures |upper| == |prefix|
    ensures |prefix| > 0 ==>
      && upper[..|prefix| - 1] == prefix[..|prefix| - 1]
      && upper[|prefix| - 1] == (prefix[|prefix| - 1] as int + 1) % 256
  {
    if |prefix| == 0 then []
    else prefix[..|prefix| - 1] + [(prefix[|prefix| - 1] as int + 1) % 256]
  }

  /** The matcher governing d's name matches d. */
  predicate Ignored(lookup: IgnoreLookup, d: AddData)
  {
    lookup(d.name).Some? && lookup(d.name).value(d.name, d.isDir)
  }

  /** The dirs-only or the files-only option rejects d. */
  predicate Filtered(opts: ReadOptions, d: AddData)
  {
    (opts.dirsOnly && !d.isDir) || (opts.filesOnly && d.isDir)
  }

  /** The position an ignored directory d sends the cursor to: SeekGE(calcUpperBound(d.Name)). */
  function SkipTarget(db: seq<KV>, lower: Bytes, d: AddData): nat
  {
    SeekGEWithin(db, lower, CalcUpperBound(d.name))
  }

  /**
   * The seek made at position i, if the entry there is an ignored directory,
   * does not land before i.
   */
  predicate SkipsForwardAt(db: seq<KV>, lookup: IgnoreLookup, decode: Decoder, i: nat)
    requires i < |db|
  {
    match decode(db[i].value)
    case Some(d) => Ignored(lookup, d) && d.isDir ==> i <= SeekGE(db, CalcUpperBound(d.name))
    case None => true
  }

  /**
   * No ignored directory's seek lands before the directory itself. Without
   * this the source's loop can revisit entries: a name that is empty or ends
   * in byte 0xFF (which no UTF-8 path does) has an upper bound that sorts
   * before the name, and when an earlier key lies at or after that bound the
   * seek goes back, so the loop cycles until the limit stops it, or forever
   * without one.
   */
  predicate SkipsForward(db: seq<KV>, lookup: IgnoreLookup, decode: Decoder)
  {
    forall i :: 0 <= i < |db| ==> SkipsForwardAt(db, lookup, decode, i)
  }

  /** No matcher governs any path. */
  function NoIgnores(): (lookup: IgnoreLookup)
    ensures forall d :: !Ignored(lookup, d)
  {
    n => None
  }

  /** Nothing is ignored, so every store is one whose ignored-directory seeks move forward. */
  lemma NoIgnoresSkipsForward(db: seq<KV>, decode: Decoder)
    ensures SkipsForward(db, NoIgnores(), decode)
  {
    forall i | 0 <= i < |db|
      ensures SkipsForwardAt(db, NoIgnores(), decode, i)
    {
      match decode(db[i].value)
      case Some(d) =>
        assert !Ignored(NoIgnores(), d);
      case None =>
    }
  }

  /** Clamping a seek to the iterator's lower bound never moves it back. */
  lemma SeekWithinNotBefore(db: seq<KV>, lower: Bytes, k: Bytes, i: nat)
    requires Sorted(db) && i <= SeekGE(db, k)
    ensures i <= SeekGEWithin(db, lower, k)
  {
    var target := if LexLess(k, lower) then lower else k;
    assert LexLessEq(k, target);
    SeekGEMonotone(db, k, target);
  }

  /** The outcome of a scan: what it sent, the store positions they came from, what it returns. */
  datatype Scanned = Scanned(sent: seq<AddData>, at: seq<nat>, count: int, err: Option<FetchError>)

  /** What one pass of fetchRange's loop body does at cursor position i. */
  datatype Step =
    | Stop(count: int, err: Option<FetchError>)  // the loop returns (count, err)
    | Pass(next: nat)                              // nothing is sent; the cursor moves to next
    | Send(d: AddData)                             // d is sent and counted; the cursor moves one on

  /**
   * One pass of fetchRange's loop at cursor position i with the counter at
   * `count`: an exhausted iterator returns 0, not the counter; the limit
   * returns the counter; a value that does not decode returns the error; an
   * ignored entry is passed over, and for an ignored directory the cursor
   * first seeks to calcUpperBound(name), after which the loop's Next() moves
   * one further; a filtered entry is passed over; any other entry is sent.
   */
  function StepAt(db: seq<KV>, lower: Bytes, upper: Bytes, opts: ReadOptions, lookup: IgnoreLookup,
                  decode: Decoder, i: nat, count: int): (s: Step)
    requires Sorted(db) && SkipsForward(db, lookup, decode) && i <= |db|
    ensures s.Pass? ==> i < s.next <= |db|
    ensures s.Send? ==> IterValid(db, upper, i)
  {
    if !IterValid(db, upper, i) then Stop(0, None)
    else if opts.limit > 0 && count >= opts.limit then Stop(count, None)
    else match decode(db[i].value)
      case None => Stop(count, Some(DecodeError(db[i].key)))
      case Some(d) =>
        if Ignored(lookup, d) then
          var pos := if d.isDir then SkipTarget(db, lower, d) else i;
          assert i <= pos by {
            if d.isDir {
              assert SkipsForwardAt(db, lookup, decode, i);
              SeekWithinNotBefore(db, lower, CalcUpperBound(d.name), i);
            }
          }
          Pass(Next(db, pos))
        else if Filtered(opts, d) then Pass(i + 1)
        else Send(d)
  }

  /** The loop of fetchRange from cursor position i with the counter at `count`. */
  function Scan(db: seq<KV>, lower: Bytes, upper: Bytes, opts: ReadOptions, lookup: IgnoreLookup,
                decode: Decoder, i: nat, count: int): Scanned
    requires Sorted(db) && SkipsForward(db, lookup, decode) && i <= |db|
    decreases |db| - i
  {
    match StepAt(db, lower, upper, opts, lookup, decode, i, count)
    case Stop(n, err) => Scanned([], [], n, err)
    case Pass(j) => Scan(db, lower, upper, opts, lookup, decode, j, count)
    case Send(d) =>
      var r := Scan(db, lower, upper, opts, lookup, decode, i + 1, count + 1);
      Scanned([d] + r.sent, [i] + r.at, r.count, r.err)
  }

  /** The outcome of a scan that had already sent `sent` from positions `at` before continuing as `r`. */
  function After(sent: seq<AddData>, at: seq<nat>, r: Scanned): Scanned
  {
    Scanned(sent + r.sent, at + r.at, r.count, r.err)
  }

  /**
   * The scan in the shape of fetchRange's loop: what was sent so far and the
   * positions it came from are carried along, and the result is what the
   * loop has sent and returns once it stops.
   */
  function Resume(db: seq<KV>, lower: Bytes, upper: Bytes, opts: ReadOptions, lookup: IgnoreLookup,
                  decode: Decoder, i: nat, count: int, sent: seq<AddData>, at: seq<nat>): Scanned
    requires Sorted(db) && SkipsForward(db, lookup, decode) && i <= |db|
    decreases |db| - i
  {
    match StepAt(db, lower, upper, opts, lookup, decode, i, count)
    case Stop(n, err) => Scanned(sent, at, n, err)
    case Pass(j) => Resume(db, lower, upper, opts, lookup, decode, j, count, sent, at)
    case Send(d) => Resume(db, lower, upper, opts, lookup, decode, i + 1, count + 1, sent + [d], at + [i])
  }

  /** Resuming after `sent` and `at` is the scan from i with `sent` and `at` in front. */
  lemma {:induction false} ResumeIsAfter(db: seq<KV>, lower: Bytes, upper: Bytes, opts: ReadOptions,
                                         lookup: IgnoreLookup, decode: Decoder, i: nat, count: int,
                                         sent: seq<AddData>, at: seq<nat>)
    requires Sorted(db) && SkipsForward(db, lookup, decode) && i <= |db|
    ensures Resume(db, lower, upper, opts, lookup, decode, i, count, sent, at)
         == After(sent, at, Scan(db, lower, upper, opts, lookup, decode, i, count))
    decreases |db| - i
  {
    match StepAt(db, lower, upper, opts, lookup, decode, i, count)
    case Stop(_, _) =>
    case Pass(j) =>
      ResumeIsAfter(db, lower, upper, opts, lookup, decode, j, count, sent, at);
    case Send(d) =>
      ResumeIsAfter(db, lower, upper, opts, lookup, decode, i + 1, count + 1, sent + [d], at + [i]);
      var r := Scan(db, lower, upper, opts, lookup, decode, i + 1, count + 1);
      AppendAssoc(sent, [d], r.sent);
      AppendAssoc(at, [i], r.at);
  }

  /** fetchRange(lower, upper): the scan from the iterator's First() position. */
  function RangeScan(db: seq<KV>, lower: Bytes, upper: Bytes, opts: ReadOptions, lookup: IgnoreLookup,
                     decode: Decoder, count: int): Scanned
    requires Sorted(db) && SkipsForward(db, lookup, decode)
  {
    Scan(db, lower, upper, opts, lookup, decode, SeekGE(db, lower), count)
  }

  /** The three keys a prefixed fetch splits its range with. */
  datatype SplitBounds = SplitBounds(lower: Bytes, middle: Bytes, upper: Bytes)

  /**
   * fetchRangeWithPrefix's bounds: [Prefix, calcUpperBound(Prefix)) split at
   * CurrentDir when CurrentDir is set and differs from Prefix.
   */
  function Bounds(opts: ReadOptions): (b: SplitBounds)
    ensures |opts.prefix| == 0 ==> b == SplitBounds([], [], [])
    ensures |opts.prefix| > 0 ==> b.lower == opts.prefix && b.upper == CalcUpperBound(opts.prefix)
    ensures |opts.prefix| > 0 ==>
      b.middle == if |opts.currentDir| > 0 && opts.currentDir != opts.prefix then opts.currentDir else opts.prefix
  {
    if |opts.prefix| == 0 then SplitBounds([], [], [])
    else
      var lower := opts.prefix;
      var middle := if |opts.currentDir| > 0 && opts.currentDir != opts.prefix then opts.currentDir else lower;
      SplitBounds(lower, middle, CalcUpperBound(opts.prefix))
  }

  /**
   * Two scans over split bounds: [middle, upper) first; unless it failed,
   * then [lower, middle) with the counter the first scan returned.
   */
  function SplitScanWithin(db: seq<KV>, b: SplitBounds, opts: ReadOptions, lookup: IgnoreLookup, decode: Decoder,
                           count: int): Scanned
    requires Sorted(db) && SkipsForward(db, lookup, decode)
  {
    var r1 := RangeScan(db, b.middle, b.upper, opts, lookup, decode, count);
    if r1.err.Some? then r1
    else
      var r2 := RangeScan(db, b.lower, b.middle, opts, lookup, decode, r1.count);
      Scanned(r1.sent + r2.sent, r1.at + r2.at, r2.count, r2.err)
  }

  /** The fetcher's counter after the two scans: the first scan's result plus what the second sent. */
  function SplitCounterWithin(db: seq<KV>, b: SplitBounds, opts: ReadOptions, lookup: IgnoreLookup, decode: Decoder,
                              count: int): int
    requires Sorted(db) && SkipsForward(db, lookup, decode)
  {
    var r1 := RangeScan(db, b.middle, b.upper, opts, lookup, decode, count);
    if r1.err.Some? then r1.count
    else r1.count + |RangeScan(db, b.lower, b.middle, opts, lookup, decode, r1.count).sent|
  }

  /** fetchRangeWithPrefix: the two scans over the prefix's split bounds. */
  function SplitScan(db: seq<KV>, opts: ReadOptions, lookup: IgnoreLookup, decode: Decoder, count: int): Scanned
    requires Sorted(db) && SkipsForward(db, lookup, decode)
  {
    SplitScanWithin(db, Bounds(opts), opts, lookup, decode, count)
  }

  /** The fetcher's counter once fetchRangeWithPrefix is done. */
  function SplitCounter(db: seq<KV>, opts: ReadOptions, lookup: IgnoreLookup, decode: Decoder, count: int): int
    requires Sorted(db) && SkipsForward(db, lookup, decode)
  {
    SplitCounterWithin(db, Bounds(opts), opts, lookup, decode, count)
  }

  /** Fetch: one unbounded scan for an empty prefix, the split scan otherwise. */
  function FetchSpec(db: seq<KV>, opts: ReadOptions, lookup: IgnoreLookup, decode: Decoder, count: int): Scanned
    requires Sorted(db) && SkipsForward(db, lookup, decode)
  {
    if |opts.prefix| == 0 then RangeScan(db, [], [], opts, lookup, decode, count)
    else SplitScan(db, opts, lookup, decode, count)
  }

  /** pebbleFetcher: a store snapshot, the options, the running count and the result channel. */
  class PebbleFetcher {
    const db: seq<KV>
    const lookup: IgnoreLookup
    const decode: Decoder
    const opts: ReadOptions
    var count: int
    /** Everything sent on the channel, in order. */
    var sent: seq<AddData>
    /** The channel has been closed. */
    var closed: bool

    predicate Valid()
    {
      Sorted(db) && SkipsForward(db, lookup, decode)
    }

    constructor (db: seq<KV>, lookup: IgnoreLookup, decode: Decoder, opts: ReadOptions)
      ensures this.db == db && this.lookup == lookup && this.decode == decode && this.opts == opts
      ensures count == 0 && sent == [] && !closed
    {
      this.db, this.lookup, this.decode, this.opts := db, lookup, decode, opts;
      count, sent, closed := 0, [], false;
    }

    /** Fetch: runs the scans, then closes the channel. */
    method Fetch() returns (n: int, err: Option<FetchError>)
      requires Valid()
      modifies this
      ensures closed
      ensures var r := FetchSpec(db, opts, lookup, decode, old(count));
        sent == old(sent) + r.sent && n == r.count && err == r.err
      ensures |opts.prefix| == 0 ==> count == old(count) + |sent| - |old(sent)|
      ensures |opts.prefix| > 0 ==> count == SplitCounter(db, opts, lookup, decode, old(count))
    {
      if |opts.prefix| > 0 {
        n, err := FetchRangeWithPrefix();
      } else {
        n, err := FetchRange([], []);
      }
      closed := true;
    }

    /** fetchRangeWithPrefix. */
    method FetchRangeWithPrefix() returns (n: int, err: Option<FetchError>)
      requires Valid()
      modifies this`count, this`sent
      ensures var r := SplitScan(db, opts, lookup, decode, old(count));
        sent == old(sent) + r.sent && n == r.count && err == r.err
      ensures count == SplitCounter(db, opts, lookup, decode, old(count))
    {
      var lower, middle, upper := [], [], [];
      if |opts.prefix| > 0 {
        lower := opts.prefix;
        middle := lower;
        upper := CalcUpperBound(opts.prefix);
        if |opts.currentDir| > 0 && opts.currentDir != opts.prefix {
          middle := opts.currentDir;
        }
      }
      ghost var sent0 := sent;
      var e;
      count, e := FetchRange(middle, upper);
      if e.Some? {
        return count, e;
      }
      ghost var sent1 := sent;
      n, err := FetchRange(lower, middle);
      AppendAssoc(sent0, sent1[|sent0|..], sent[|sent1|..]);
    }

    /**
     * The body of fetchRange's loop at a valid cursor position i: the limit
     * check, the decode, the ignore check (with the seek past an ignored
     * directory), the filters, and the send. The result says whether the
     * loop returns, or where its Next() moves the cursor.
     */
    method Visit(lower: Bytes, upper: Bytes, i: nat) returns (s: Step)
      requires Valid() && IterValid(db, upper, i)
      modifies this`count, this`sent
      ensures s == StepAt(db, lower, upper, opts, lookup, decode, i, old(count))
      ensures s.Send? ==> sent == old(sent) + [s.d] && count == old(count) + 1
      ensures !s.Send? ==> sent == old(sent) && count == old(count)
    {
      if opts.limit > 0 && count >= opts.limit {
        return Stop(count, None);
      }
      var data := decode(db[i].value);
      if data.None? {
        return Stop(count, Some(DecodeError(db[i].key)));
      }
      var d := data.value;
      var ignore := lookup(d.name);
      if ignore.Some? && ignore.value(d.name, d.isDir) {
        var pos := i;
        if d.isDir {
          pos := SeekGEWithin(db, lower, CalcUpperBound(d.name));
        }
        return Pass(Next(db, pos));
      }
      if opts.dirsOnly && !d.isDir {
        return Pass(i + 1);
      } else if opts.filesOnly && d.isDir {
        return Pass(i + 1);
      }
      sent := sent + [d];
      count := count + 1;
      return Send(d);
    }

    /**
     * fetchRange: iterates [lower, upper) from First(), sending each entry
     * that decodes, is not ignored and passes the filters, until the limit.
     */
    method FetchRange(lower: Bytes, upper: Bytes) returns (n: int, err: Option<FetchError>)
      requires Valid()
      modifies this`count, this`sent
      ensures var r := RangeScan(db, lower, upper, opts, lookup, decode, old(count));
        sent == old(sent) + r.sent && count == old(count) + |r.sent| && n == r.count && err == r.err
    {
      ghost var whole := RangeScan(db, lower, upper, opts, lookup, decode, count);
      ghost var at: seq<nat> := [];
      ghost var emitted: seq<AddData> := [];
      ghost var sent0, count0 := sent, count;
      var i := SeekGE(db, lower);
      ResumeIsAfter(db, lower, upper, opts, lookup, decode, i, count, [], []);
      while IterValid(db, upper, i)
        invariant i <= |db|
        invariant sent == sent0 + emitted
        invariant count == count0 + |emitted|
        invariant whole == Resume(db, lower, upper, opts, lookup, decode, i, count, emitted, at)
        decreases |db| - i
      {
        var s := Visit(lower, upper, i);
        match s
        case Stop(c, e) =>
          return c, e;
        case Pass(next) =>
          i := next;
        case Send(d) =>
          AppendAssoc(sent0, emitted, [d]);
          emitted, at := emitted + [d], at + [i];
          i := i + 1;
      }
      return 0, None;
    }
  }
}
