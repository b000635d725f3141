/**
 * What the prefix-range fetch of fslist/pebble_fetcher.go guarantees: the
 * upper bound delimits exactly the keys that extend the prefix, the split
 * scans partition that range, each scan sends decodable, unignored, unfiltered
 * entries in ascending key order up to the limit, an ignored directory's
 * whole key range is passed over, and the two quirks of the loop (the 0
 * returned on exhaustion, the extra Next() after a seek) show in the results.
 */
module PebbleFetcherProperties {
  import opened Bytes
  import opened Wrappers
  import opened PebbleDb
  import opened FsListAddData
  import opened FsListOptions
  import opened PebbleFetcher

  /** Bumping the last byte of a longer prefix leaves its first byte alone. */
  lemma CalcUpperBoundCons(p: Bytes)
    requires |p| >= 2
    ensures CalcUpperBound(p) == [p[0]] + CalcUpperBound(p[1..])
  {
    var u, u' := CalcUpperBound(p), CalcUpperBound(p[1..]);
    assert forall k :: 0 <= k < |u| ==> u[k] == ([p[0]] + u')[k];
  }

  /** A key whose first byte differs from the prefix's neither extends it nor lies in its range. */
  lemma OtherHeadOutOfRange(p: Bytes, s: Bytes)
    requires |p| > 0 && p[|p| - 1] < 255 && |s| > 0 && s[0] != p[0]
    ensures !(p <= s) && !InBounds(s, p, CalcUpperBound(p))
  {
    if s[0] < p[0] {
      HeadLessIsLess(s, p);
      LexLessAsymmetric(s, p);
      assert p != s;
      assert !LexLessEq(p, s);
    } else {
      var u := CalcUpperBound(p);
      if |p| >= 2 {
        CalcUpperBoundCons(p);
        HeadGreaterNotLess(s, u);
      } else {
        assert u == [p[0] + 1];
        if s[0] > u[0] {
          HeadGreaterNotLess(s, u);
        } else {
          LexLessSameHead(s, u);
          assert u[1..] == [];
        }
      }
      assert !LexLess(s, u);
    }
  }

  /** The one-byte prefix [b] covers exactly the keys starting with b. */
  lemma SingleByteRange(p: Bytes, s: Bytes)
    requires |p| == 1 && p[0] < 255 && |s| > 0 && s[0] == p[0]
    ensures p <= s && InBounds(s, p, CalcUpperBound(p))
  {
    assert CalcUpperBound(p) == [p[0] + 1];
    if |s| > 1 {
      assert p[1..] == [] && LexLess([], s[1..]);
    } else {
      assert s == p;
    }
  }

  /**
   * For a prefix whose last byte is below 0xFF, the keys with that prefix are
   * exactly those in [p, calcUpperBound(p)).
   */
  lemma {:induction false} PrefixIffInRange(p: Bytes, s: Bytes)
    requires |p| > 0 && p[|p| - 1] < 255
    ensures p <= s <==> InBounds(s, p, CalcUpperBound(p))
  {
    if |s| == 0 {
      assert !LexLess(p, s);
    } else if s[0] != p[0] {
      OtherHeadOutOfRange(p, s);
    } else if |p| == 1 {
      SingleByteRange(p, s);
    } else {
      var u := CalcUpperBound(p);
      CalcUpperBoundCons(p);
      PrefixIffInRange(p[1..], s[1..]);
      LexLessSameHead(p, s);
      LexLessSameHead(s, u);
    }
  }

  /** The test's prefix "/foo/bar/baz" covers its child "/foo/bar/baz/1.txt". */
  lemma PrefixRangeChildExample()
    ensures InBounds(Ascii("/foo/bar/baz/1.txt"), Ascii("/foo/bar/baz"), CalcUpperBound(Ascii("/foo/bar/baz")))
  {
    var p, s := Ascii("/foo/bar/baz"), Ascii("/foo/bar/baz/1.txt");
    assert p == s[..12];
    PrefixIffInRange(p, s);
  }

  /** The test's prefix "/foo/bar/baz" does not cover its sibling "/foo/bar/qaz". */
  lemma PrefixRangeSiblingExample()
    ensures !InBounds(Ascii("/foo/bar/qaz"), Ascii("/foo/bar/baz"), CalcUpperBound(Ascii("/foo/bar/baz")))
  {
    var p, s := Ascii("/foo/bar/baz"), Ascii("/foo/bar/qaz");
    assert p[9] != s[9];
    PrefixIffInRange(p, s);
  }

  /**
   * A prefix ending in byte 0xFF wraps to a bound that sorts before the prefix
   * itself: its range is empty, and a seek to it moves backwards.
   */
  lemma {:induction false} UpperBoundWrapsBelow(p: Bytes)
    requires |p| > 0 && p[|p| - 1] == 255
    ensures LexLess(CalcUpperBound(p), p)
  {
    var u := CalcUpperBound(p);
    if |p| >= 2 {
      CalcUpperBoundCons(p);
      UpperBoundWrapsBelow(p[1..]);
      assert u[1..] == CalcUpperBound(p[1..]);
      LexLessSameHead(u, p);
    } else {
      assert u == [0] && p == [255];
      HeadLessIsLess(u, p);
    }
  }

  /** Bounds split at a middle key between them: every key in the whole range lies in exactly one part. */
  lemma SplitPartitions(lower: Bytes, middle: Bytes, upper: Bytes, k: Bytes)
    requires |middle| > 0 && |upper| > 0
    requires LexLessEq(lower, middle) && LexLessEq(middle, upper)
    ensures InBounds(k, lower, upper) <==> InBounds(k, middle, upper) || InBounds(k, lower, middle)
    ensures !(InBounds(k, middle, upper) && InBounds(k, lower, middle))
  {
    NotLessIsGreaterEq(k, middle);
    if InBounds(k, middle, upper) {
      LexLessEqTransitive(lower, middle, k);
    }
    if InBounds(k, lower, middle) {
      LexLessLessEqTransitive(k, middle, upper);
    }
  }

  /** Split bounds in order: lower <= middle <= upper, with a non-empty middle and upper. */
  predicate Ordered(b: SplitBounds)
  {
    |b.middle| > 0 && |b.upper| > 0 && LexLessEq(b.lower, b.middle) && LexLessEq(b.middle, b.upper)
  }

  /** A prefix that does not end in byte 0xFF gives bounds in order when the current directory is unset or in its range. */
  lemma BoundsOrdered(opts: ReadOptions)
    requires |opts.prefix| > 0 && opts.prefix[|opts.prefix| - 1] < 255
    requires |opts.currentDir| == 0
      || (LexLessEq(opts.prefix, opts.currentDir) && LexLessEq(opts.currentDir, CalcUpperBound(opts.prefix)))
    ensures Ordered(Bounds(opts))
  {
    PrefixIffInRange(opts.prefix, opts.prefix);
  }

  /** An entry a scan sends: below the upper bound, decoded from the store, not ignored, not filtered. */
  predicate Sendable(db: seq<KV>, upper: Bytes, opts: ReadOptions, lookup: IgnoreLookup, decode: Decoder,
                     q: nat, d: AddData)
  {
    q < |db| && BelowUpper(db[q].key, upper) && decode(db[q].value) == Some(d)
    && !Ignored(lookup, d) && !Filtered(opts, d)
  }

  /** The seek past an ignored directory at i lands at i or later. */
  lemma SkipNotBefore(db: seq<KV>, lower: Bytes, lookup: IgnoreLookup, decode: Decoder, i: nat, d: AddData)
    requires Sorted(db) && SkipsForward(db, lookup, decode) && i < |db|
    requires decode(db[i].value) == Some(d) && Ignored(lookup, d) && d.isDir
    ensures i <= SkipTarget(db, lower, d)
  {
    assert SkipsForwardAt(db, lookup, decode, i);
    SeekWithinNotBefore(db, lower, CalcUpperBound(d.name), i);
  }

  /**
   * A scan from position i sends, in ascending position order, only entries
   * at or after i that it may send, each paired with the position it came from.
   */
  /** A step that sends, sends the entry at its cursor, and that entry may be sent. */
  lemma StepSendIsSendable(db: seq<KV>, lower: Bytes, upper: Bytes, opts: ReadOptions,
                           lookup: IgnoreLookup, decode: Decoder, i: nat, count: int)
    requires Sorted(db) && SkipsForward(db, lookup, decode) && i <= |db|
    requires StepAt(db, lower, upper, opts, lookup, decode, i, count).Send?
    ensures Sendable(db, upper, opts, lookup, decode, i, StepAt(db, lower, upper, opts, lookup, decode, i, count).d)
  {
  }

  lemma {:induction false} ScanSends(db: seq<KV>, lower: Bytes, upper: Bytes, opts: ReadOptions,
                                     lookup: IgnoreLookup, decode: Decoder, i: nat, count: int)
    requires Sorted(db) && SkipsForward(db, lookup, decode) && i <= |db|
    ensures var r := Scan(db, lower, upper, opts, lookup, decode, i, count);
      && |r.at| == |r.sent|
      && (forall j :: 0 <= j < |r.at| ==> i <= r.at[j])
      && (forall j, k :: 0 <= j < k < |r.at| ==> r.at[j] < r.at[k])
      && (forall j :: 0 <= j < |r.at| ==> Sendable(db, upper, opts, lookup, decode, r.at[j], r.sent[j]))
    decreases |db| - i
  {
    match StepAt(db, lower, upper, opts, lookup, decode, i, count)
    case Stop(_, _) =>
    case Pass(j) => ScanSends(db, lower, upper, opts, lookup, decode, j, count);
    case Send(_) =>
      StepSendIsSendable(db, lower, upper, opts, lookup, decode, i, count);
      ScanSends(db, lower, upper, opts, lookup, decode, i + 1, count + 1);
  }

  /** fetchRange sends entries it may send, in ascending position order, with keys in [lower, upper). */
  lemma RangeScanSends(db: seq<KV>, lower: Bytes, upper: Bytes, opts: ReadOptions,
                       lookup: IgnoreLookup, decode: Decoder, count: int)
    requires Sorted(db) && SkipsForward(db, lookup, decode)
    ensures var r := RangeScan(db, lower, upper, opts, lookup, decode, count);
      && |r.at| == |r.sent|
      && (forall j, k :: 0 <= j < k < |r.at| ==> r.at[j] < r.at[k])
      && (forall j :: 0 <= j < |r.at| ==>
            Sendable(db, upper, opts, lookup, decode, r.at[j], r.sent[j]) && LexLessEq(lower, db[r.at[j]].key))
  {
    var r := RangeScan(db, lower, upper, opts, lookup, decode, count);
    ScanSends(db, lower, upper, opts, lookup, decode, SeekGE(db, lower), count);
    forall j | 0 <= j < |r.at|
      ensures LexLessEq(lower, db[r.at[j]].key)
    {
      SeekGEIff(db, lower, r.at[j]);
    }
  }

  /**
   * Joining the sends of [middle, upper) with those of [lower, middle), each
   * run at ascending positions, gives distinct positions, each an entry that
   * may be sent with a key in [lower, upper).
   */
  lemma JoinRuns(db: seq<KV>, b: SplitBounds, opts: ReadOptions, lookup: IgnoreLookup, decode: Decoder,
                 at1: seq<nat>, sent1: seq<AddData>, at2: seq<nat>, sent2: seq<AddData>)
    requires Sorted(db) && Ordered(b)
    requires |at1| == |sent1| && |at2| == |sent2|
    requires forall j, k :: 0 <= j < k < |at1| ==> at1[j] < at1[k]
    requires forall j, k :: 0 <= j < k < |at2| ==> at2[j] < at2[k]
    requires forall j :: 0 <= j < |at1| ==>
      Sendable(db, b.upper, opts, lookup, decode, at1[j], sent1[j]) && LexLessEq(b.middle, db[at1[j]].key)
    requires forall j :: 0 <= j < |at2| ==>
      Sendable(db, b.middle, opts, lookup, decode, at2[j], sent2[j]) && LexLessEq(b.lower, db[at2[j]].key)
    ensures var at, sent := at1 + at2, sent1 + sent2;
      && |at| == |sent|
      && (forall j, k :: 0 <= j < k < |at| ==> at[j] != at[k])
      && (forall j :: 0 <= j < |at| ==>
            Sendable(db, b.upper, opts, lookup, decode, at[j], sent[j]) && InBounds(db[at[j]].key, b.lower, b.upper))
  {
    var at, sent := at1 + at2, sent1 + sent2;
    forall j | 0 <= j < |at|
      ensures Sendable(db, b.upper, opts, lookup, decode, at[j], sent[j])
      ensures InBounds(db[at[j]].key, b.lower, b.upper)
    {
      if j < |at1| {
        assert at[j] == at1[j] && sent[j] == sent1[j];
        LexLessEqTransitive(b.lower, b.middle, db[at[j]].key);
      } else {
        assert at[j] == at2[j - |at1|] && sent[j] == sent2[j - |at1|];
        LexLessLessEqTransitive(db[at[j]].key, b.middle, b.upper);
      }
    }
    forall j, k | 0 <= j < k < |at|
      ensures at[j] != at[k]
    {
      if k < |at1| {
        assert at[j] == at1[j] && at[k] == at1[k];
      } else if j >= |at1| {
        assert at[j] == at2[j - |at1|] && at[k] == at2[k - |at1|];
      } else {
        assert at[j] == at1[j] && at[k] == at2[k - |at1|];
        LexLessLessEqTransitive(db[at[k]].key, b.middle, db[at[j]].key);
        LexLessIrreflexive(db[at[k]].key);
      }
    }
  }

  /**
   * Over bounds in order, the split scans send distinct positions, each an
   * entry they may send with a key in [lower, upper).
   */
  lemma SplitScanSends(db: seq<KV>, b: SplitBounds, opts: ReadOptions, lookup: IgnoreLookup, decode: Decoder,
                       count: int)
    requires Sorted(db) && SkipsForward(db, lookup, decode) && Ordered(b)
    ensures var r := SplitScanWithin(db, b, opts, lookup, decode, count);
      && |r.at| == |r.sent|
      && (forall j, k :: 0 <= j < k < |r.at| ==> r.at[j] != r.at[k])
      && (forall j :: 0 <= j < |r.at| ==>
            Sendable(db, b.upper, opts, lookup, decode, r.at[j], r.sent[j])
            && InBounds(db[r.at[j]].key, b.lower, b.upper))
  {
    var r1 := RangeScan(db, b.middle, b.upper, opts, lookup, decode, count);
    RangeScanSends(db, b.middle, b.upper, opts, lookup, decode, count);
    if r1.err.None? {
      var r2 := RangeScan(db, b.lower, b.middle, opts, lookup, decode, r1.count);
      RangeScanSends(db, b.lower, b.middle, opts, lookup, decode, r1.count);
      JoinRuns(db, b, opts, lookup, decode, r1.at, r1.sent, r2.at, r2.sent);
    } else {
      JoinRuns(db, b, opts, lookup, decode, r1.at, r1.sent, [], []);
      assert r1.at + [] == r1.at && r1.sent + [] == r1.sent;
    }
  }

  /**
   * Entries near the caller come first: the split scans send the first
   * scan's entries, all at or after middle, and then only entries before it.
   */
  lemma SplitScanNearFirst(db: seq<KV>, b: SplitBounds, opts: ReadOptions, lookup: IgnoreLookup, decode: Decoder,
                           count: int)
    requires Sorted(db) && SkipsForward(db, lookup, decode) && |b.middle| > 0
    ensures var r := SplitScanWithin(db, b, opts, lookup, decode, count);
      var n := |RangeScan(db, b.middle, b.upper, opts, lookup, decode, count).at|;
      && n <= |r.at|
      && (forall j :: 0 <= j < |r.at| ==> r.at[j] < |db|)
      && (forall j :: 0 <= j < n ==> LexLessEq(b.middle, db[r.at[j]].key))
      && (forall j :: n <= j < |r.at| ==> LexLess(db[r.at[j]].key, b.middle))
  {
    var r1 := RangeScan(db, b.middle, b.upper, opts, lookup, decode, count);
    RangeScanSends(db, b.middle, b.upper, opts, lookup, decode, count);
    if r1.err.None? {
      var r2 := RangeScan(db, b.lower, b.middle, opts, lookup, decode, r1.count);
      RangeScanSends(db, b.lower, b.middle, opts, lookup, decode, r1.count);
      var r := SplitScanWithin(db, b, opts, lookup, decode, count);
      assert r.at == r1.at + r2.at;
      assert forall j :: |r1.at| <= j < |r.at| ==> r.at[j] == r2.at[j - |r1.at|];
    }
  }

  /** Entries sent by one scan come out in ascending key order. */
  lemma ScanAscending(db: seq<KV>, lower: Bytes, upper: Bytes, opts: ReadOptions,
                      lookup: IgnoreLookup, decode: Decoder, i: nat, count: int)
    requires Sorted(db) && SkipsForward(db, lookup, decode) && i <= |db|
    ensures var r := Scan(db, lower, upper, opts, lookup, decode, i, count);
      forall j, k :: 0 <= j < k < |r.at| ==> r.at[j] < r.at[k] < |db| && LexLess(db[r.at[j]].key, db[r.at[k]].key)
  {
    ScanSends(db, lower, upper, opts, lookup, decode, i, count);
  }

  /**
   * What a scan returns: the running count, one higher per sent entry, when
   * it stops at the limit or on an error; 0 once the iterator is exhausted.
   */
  lemma {:induction false} ScanCount(db: seq<KV>, lower: Bytes, upper: Bytes, opts: ReadOptions,
                                     lookup: IgnoreLookup, decode: Decoder, i: nat, count: int)
    requires Sorted(db) && SkipsForward(db, lookup, decode) && i <= |db|
    ensures var r := Scan(db, lower, upper, opts, lookup, decode, i, count);
      && (r.count == 0 || r.count == count + |r.sent|)
      && (r.err.Some? ==> r.count == count + |r.sent|)
      && (r.err.None? && r.count != 0 ==> opts.limit > 0 && r.count >= opts.limit)
      && (opts.limit <= 0 && r.err.None? ==> r.count == 0)
    decreases |db| - i
  {
    match StepAt(db, lower, upper, opts, lookup, decode, i, count)
    case Stop(_, _) =>
    case Pass(j) => ScanCount(db, lower, upper, opts, lookup, decode, j, count);
    case Send(_) => ScanCount(db, lower, upper, opts, lookup, decode, i + 1, count + 1);
  }

  /** A scan sends nothing once the count has reached the limit, and never takes it past the limit. */
  lemma {:induction false} ScanLimit(db: seq<KV>, lower: Bytes, upper: Bytes, opts: ReadOptions,
                                     lookup: IgnoreLookup, decode: Decoder, i: nat, count: int)
    requires Sorted(db) && SkipsForward(db, lookup, decode) && i <= |db|
    requires opts.limit > 0
    ensures var r := Scan(db, lower, upper, opts, lookup, decode, i, count);
      && (count >= opts.limit ==> r.sent == [])
      && (count <= opts.limit ==> count + |r.sent| <= opts.limit)
    decreases |db| - i
  {
    match StepAt(db, lower, upper, opts, lookup, decode, i, count)
    case Stop(_, _) =>
    case Pass(j) => ScanLimit(db, lower, upper, opts, lookup, decode, j, count);
    case Send(_) => ScanLimit(db, lower, upper, opts, lookup, decode, i + 1, count + 1);
  }

  /** A scan fails only on a stored value at or after its start that does not decode, and names its key. */
  lemma {:induction false} ScanError(db: seq<KV>, lower: Bytes, upper: Bytes, opts: ReadOptions,
                                     lookup: IgnoreLookup, decode: Decoder, i: nat, count: int)
    requires Sorted(db) && SkipsForward(db, lookup, decode) && i <= |db|
    ensures var r := Scan(db, lower, upper, opts, lookup, decode, i, count);
      r.err.Some? ==> exists q :: i <= q < |db| && decode(db[q].value).None? && r.err == Some(DecodeError(db[q].key))
    decreases |db| - i
  {
    match StepAt(db, lower, upper, opts, lookup, decode, i, count)
    case Stop(_, _) =>
    case Pass(j) => ScanError(db, lower, upper, opts, lookup, decode, j, count);
    case Send(_) => ScanError(db, lower, upper, opts, lookup, decode, i + 1, count + 1);
  }

  /**
   * Meeting an ignored directory, the scan passes over its whole key range
   * [name, calcUpperBound(name)) and, through the loop's Next() after the
   * seek, the first key at or after that range too: everything it still
   * sends has a key strictly after the bound.
   */
  lemma IgnoredDirSkipsRange(db: seq<KV>, lower: Bytes, upper: Bytes, opts: ReadOptions,
                             lookup: IgnoreLookup, decode: Decoder, i: nat, count: int, d: AddData)
    requires Sorted(db) && SkipsForward(db, lookup, decode)
    requires IterValid(db, upper, i) && !(opts.limit > 0 && count >= opts.limit)
    requires decode(db[i].value) == Some(d) && Ignored(lookup, d) && d.isDir
    ensures var r := Scan(db, lower, upper, opts, lookup, decode, i, count);
      forall j :: 0 <= j < |r.at| ==>
        && SkipTarget(db, lower, d) < r.at[j] < |db|
        && LexLess(CalcUpperBound(d.name), db[r.at[j]].key)
  {
    var t := SkipTarget(db, lower, d);
    SkipNotBefore(db, lower, lookup, decode, i, d);
    assert StepAt(db, lower, upper, opts, lookup, decode, i, count) == Pass(Next(db, t));
    ScanSends(db, lower, upper, opts, lookup, decode, Next(db, t), count);
    var r := Scan(db, lower, upper, opts, lookup, decode, i, count);
    forall j | 0 <= j < |r.at|
      ensures SkipTarget(db, lower, d) < r.at[j] < |db| && LexLess(CalcUpperBound(d.name), db[r.at[j]].key)
    {
      var u := CalcUpperBound(d.name);
      var target := if LexLess(u, lower) then lower else u;
      assert LexLessEq(u, target);
      assert LexLessEq(target, db[t].key);
      LexLessEqTransitive(u, target, db[t].key);
      LexLessEqLessTransitive(u, db[t].key, db[r.at[j]].key);
    }
  }

  /** No limit, and every stored value decodes to an entry that is neither ignored nor filtered. */
  predicate Plain(db: seq<KV>, opts: ReadOptions, lookup: IgnoreLookup, decode: Decoder)
  {
    && opts.limit <= 0
    && forall q :: 0 <= q < |db| ==>
      decode(db[q].value).Some? && !Ignored(lookup, decode(db[q].value).value)
      && !Filtered(opts, decode(db[q].value).value)
  }

  /** Without a limit, ignores, filters or decode failures, a scan sends every position from i below the upper bound. */
  lemma {:induction false} ScanAll(db: seq<KV>, lower: Bytes, upper: Bytes, opts: ReadOptions,
                                   lookup: IgnoreLookup, decode: Decoder, i: nat, count: int)
    requires Sorted(db) && SkipsForward(db, lookup, decode) && i <= |db|
    requires Plain(db, opts, lookup, decode)
    ensures var r := Scan(db, lower, upper, opts, lookup, decode, i, count);
      && r.err.None? && r.count == 0
      && forall q :: q in r.at <==> i <= q < |db| && BelowUpper(db[q].key, upper)
    decreases |db| - i
  {
    if IterValid(db, upper, i) {
      ScanAll(db, lower, upper, opts, lookup, decode, i + 1, count + 1);
    } else if i < |db| {
      forall q | i < q < |db|
        ensures !BelowUpper(db[q].key, upper)
      {
        NotLessIsGreaterEq(db[i].key, upper);
        LexLessEqLessTransitive(upper, db[i].key, db[q].key);
        LexLessAsymmetric(upper, db[q].key);
      }
    }
  }

  /** The positions at or after SeekGE(lower) are exactly those whose keys are at or after lower. */
  lemma SeekGEIff(db: seq<KV>, lower: Bytes, q: nat)
    requires Sorted(db) && q < |db|
    ensures SeekGE(db, lower) <= q <==> LexLessEq(lower, db[q].key)
  {
    if SeekGE(db, lower) <= q {
      SeekGEAtOrAfter(db, lower, q);
    } else {
      NotLessIsGreaterEq(db[q].key, lower);
    }
  }

  /** Without a limit, ignores, filters or decode failures, fetchRange sends every position with a key in [lower, upper). */
  lemma RangeScanAll(db: seq<KV>, lower: Bytes, upper: Bytes, opts: ReadOptions,
                     lookup: IgnoreLookup, decode: Decoder, count: int)
    requires Sorted(db) && SkipsForward(db, lookup, decode)
    requires Plain(db, opts, lookup, decode)
    ensures var r := RangeScan(db, lower, upper, opts, lookup, decode, count);
      && r.err.None? && r.count == 0
      && forall q :: q in r.at <==> 0 <= q < |db| && InBounds(db[q].key, lower, upper)
  {
    ScanAll(db, lower, upper, opts, lookup, decode, SeekGE(db, lower), count);
    forall q: nat | q < |db| {
      SeekGEIff(db, lower, q);
    }
  }

  /** Scans whose ranges are [x, x) send nothing: with no split, the second scan of a prefixed fetch is empty. */
  lemma UnsplitSecondScanEmpty(db: seq<KV>, opts: ReadOptions, lookup: IgnoreLookup, decode: Decoder, count: int)
    requires Sorted(db) && SkipsForward(db, lookup, decode)
    requires |opts.prefix| > 0 && (|opts.currentDir| == 0 || opts.currentDir == opts.prefix)
    ensures Bounds(opts).middle == Bounds(opts).lower
    ensures var b := Bounds(opts);
      RangeScan(db, b.lower, b.middle, opts, lookup, decode, count) == Scanned([], [], 0, None)
  {
    var b := Bounds(opts);
    var i := SeekGE(db, b.lower);
    if i < |db| {
      NotLessIsGreaterEq(db[i].key, b.lower);
    }
  }

  /** With no upper bound, a scan without limit, ignores, filters or decode failures sends every position from i on, in order. */
  lemma {:induction false} ScanAllUnbounded(db: seq<KV>, lower: Bytes, opts: ReadOptions,
                                            lookup: IgnoreLookup, decode: Decoder, i: nat, count: int)
    requires Sorted(db) && SkipsForward(db, lookup, decode) && i <= |db|
    requires Plain(db, opts, lookup, decode)
    ensures Scan(db, lower, [], opts, lookup, decode, i, count).at == seq(|db| - i, k => i + k)
    decreases |db| - i
  {
    if i < |db| {
      ScanAllUnbounded(db, lower, opts, lookup, decode, i + 1, count + 1);
      assert seq(|db| - i, k => i + k) == [i] + seq(|db| - (i + 1), k => i + 1 + k);
    }
  }

  /** With no prefix, a fetch without limit, ignores, filters or decode failures sends every stored entry in key order. */
  lemma FetchAllWithoutPrefix(db: seq<KV>, opts: ReadOptions, lookup: IgnoreLookup, decode: Decoder, count: int)
    requires Sorted(db) && SkipsForward(db, lookup, decode)
    requires Plain(db, opts, lookup, decode) && |opts.prefix| == 0
    ensures var r := FetchSpec(db, opts, lookup, decode, count);
      && r.err.None? && r.count == 0
      && r.at == seq(|db|, q => q) && |r.sent| == |db|
      && forall j :: 0 <= j < |r.sent| ==> Some(r.sent[j]) == decode(db[j].value)
  {
    RangeScanAll(db, [], [], opts, lookup, decode, count);
    ScanAllUnbounded(db, [], opts, lookup, decode, 0, count);
    ScanSends(db, [], [], opts, lookup, decode, 0, count);
  }

  /**
   * Over bounds in order, split scans without limit, ignores, filters or
   * decode failures send exactly the positions whose keys lie in
   * [lower, upper), each once.
   */
  lemma SplitScanExact(db: seq<KV>, b: SplitBounds, opts: ReadOptions, lookup: IgnoreLookup, decode: Decoder,
                       count: int)
    requires Sorted(db) && SkipsForward(db, lookup, decode) && Plain(db, opts, lookup, decode) && Ordered(b)
    ensures var r := SplitScanWithin(db, b, opts, lookup, decode, count);
      && r.err.None? && r.count == 0
      && (forall q :: q in r.at <==> 0 <= q < |db| && InBounds(db[q].key, b.lower, b.upper))
      && (forall j, k :: 0 <= j < k < |r.at| ==> r.at[j] != r.at[k])
  {
    var r := SplitScanWithin(db, b, opts, lookup, decode, count);
    var r1 := RangeScan(db, b.middle, b.upper, opts, lookup, decode, count);
    RangeScanAll(db, b.middle, b.upper, opts, lookup, decode, count);
    RangeScanAll(db, b.lower, b.middle, opts, lookup, decode, r1.count);
    SplitScanSends(db, b, opts, lookup, decode, count);
    forall q: nat | q < |db|
      ensures InBounds(db[q].key, b.lower, b.upper) <==> InBounds(db[q].key, b.middle, b.upper) || InBounds(db[q].key, b.lower, b.middle)
    {
      SplitPartitions(b.lower, b.middle, b.upper, db[q].key);
    }
  }

  /**
   * For a prefix whose last byte is below 0xFF and a current directory that
   * is unset or lies in the prefix range, a fetch without limit, ignores,
   * filters or decode failures sends exactly the entries whose keys extend
   * the prefix, each once.
   */
  lemma FetchPrefixExact(db: seq<KV>, opts: ReadOptions, lookup: IgnoreLookup, decode: Decoder, count: int)
    requires Sorted(db) && SkipsForward(db, lookup, decode) && Plain(db, opts, lookup, decode)
    requires |opts.prefix| > 0 && opts.prefix[|opts.prefix| - 1] < 255
    requires |opts.currentDir| == 0
      || (LexLessEq(opts.prefix, opts.currentDir) && LexLessEq(opts.currentDir, CalcUpperBound(opts.prefix)))
    ensures var r := FetchSpec(db, opts, lookup, decode, count);
      && r.err.None? && r.count == 0
      && (forall q :: q in r.at <==> 0 <= q < |db| && opts.prefix <= db[q].key)
      && (forall j, k :: 0 <= j < k < |r.at| ==> r.at[j] != r.at[k])
  {
    BoundsOrdered(opts);
    SplitScanExact(db, Bounds(opts), opts, lookup, decode, count);
    forall q: nat | q < |db|
      ensures opts.prefix <= db[q].key <==> InBounds(db[q].key, opts.prefix, CalcUpperBound(opts.prefix))
    {
      PrefixIffInRange(opts.prefix, db[q].key);
    }
  }

  /**
   * Position q lies in the stretch a scan passes over after an ignored
   * directory at p: past p, up to and including the seek target, which the
   * loop's Next() then steps over.
   */
  predicate InSkip(db: seq<KV>, lower: Bytes, lookup: IgnoreLookup, decode: Decoder, p: nat, q: nat)
  {
    && p < |db| && decode(db[p].value).Some?
    && var d := decode(db[p].value).value;
       Ignored(lookup, d) && d.isDir && p < q <= SkipTarget(db, lower, d)
  }

  /** Keys in a sorted store below a bounded position are below the upper bound too. */
  lemma BelowUpperBefore(db: seq<KV>, upper: Bytes, i: nat, q: nat)
    requires Sorted(db) && i <= q < |db| && BelowUpper(db[q].key, upper)
    ensures BelowUpper(db[i].key, upper)
  {
    if i < q && |upper| > 0 {
      LexLessTransitive(db[i].key, db[q].key, upper);
    }
  }

  /**
   * One pass of the loop at i, before a bounded position q that lies in no
   * skip of the entry at i, either sends or moves the cursor no further than q.
   */
  lemma StepToward(db: seq<KV>, lower: Bytes, upper: Bytes, opts: ReadOptions,
                   lookup: IgnoreLookup, decode: Decoder, i: nat, count: int, q: nat)
    requires Sorted(db) && SkipsForward(db, lookup, decode) && opts.limit <= 0
    requires i < q < |db| && BelowUpper(db[q].key, upper)
    requires decode(db[i].value).Some? && !InSkip(db, lower, lookup, decode, i, q)
    ensures var s := StepAt(db, lower, upper, opts, lookup, decode, i, count);
      s.Send? || (s.Pass? && s.next <= q)
  {
    BelowUpperBefore(db, upper, i, q);
    var di := decode(db[i].value).value;
    if Ignored(lookup, di) && di.isDir {
      SkipNotBefore(db, lower, lookup, decode, i, di);
    }
  }

  /**
   * Completeness with ignores and filters: without a limit, a scan from i
   * sends every entry q it may send, as long as everything from i up to q
   * decodes and q lies in no earlier ignored directory's skip.
   */
  lemma {:induction false} ScanReaches(db: seq<KV>, lower: Bytes, upper: Bytes, opts: ReadOptions,
                                       lookup: IgnoreLookup, decode: Decoder, i: nat, count: int, q: nat, d: AddData)
    requires Sorted(db) && SkipsForward(db, lookup, decode) && opts.limit <= 0 && i <= q
    requires Sendable(db, upper, opts, lookup, decode, q, d)
    requires forall p :: i <= p < q ==> decode(db[p].value).Some? && !InSkip(db, lower, lookup, decode, p, q)
    ensures q in Scan(db, lower, upper, opts, lookup, decode, i, count).at
    decreases q - i
  {
    if i == q {
      assert StepAt(db, lower, upper, opts, lookup, decode, i, count) == Send(d);
    } else {
      StepToward(db, lower, upper, opts, lookup, decode, i, count, q);
      var s := StepAt(db, lower, upper, opts, lookup, decode, i, count);
      if s.Pass? {
        ScanReaches(db, lower, upper, opts, lookup, decode, s.next, count, q, d);
      } else {
        ScanReaches(db, lower, upper, opts, lookup, decode, i + 1, count + 1, q, d);
      }
    }
  }

  /** Without a limit and with every value decodable, a scan runs to exhaustion: no error, and 0 returned. */
  lemma {:induction false} ScanExhausts(db: seq<KV>, lower: Bytes, upper: Bytes, opts: ReadOptions,
                                        lookup: IgnoreLookup, decode: Decoder, i: nat, count: int)
    requires Sorted(db) && SkipsForward(db, lookup, decode) && i <= |db| && opts.limit <= 0
    requires forall p :: 0 <= p < |db| ==> decode(db[p].value).Some?
    ensures var r := Scan(db, lower, upper, opts, lookup, decode, i, count); r.err.None? && r.count == 0
    decreases |db| - i
  {
    match StepAt(db, lower, upper, opts, lookup, decode, i, count)
    case Stop(_, _) =>
    case Pass(j) => ScanExhausts(db, lower, upper, opts, lookup, decode, j, count);
    case Send(_) => ScanExhausts(db, lower, upper, opts, lookup, decode, i + 1, count + 1);
  }

  /** No limit, and every stored value decodes to an entry no matcher ignores; the filters may be set. */
  predicate Unignored(db: seq<KV>, opts: ReadOptions, lookup: IgnoreLookup, decode: Decoder)
  {
    && opts.limit <= 0
    && forall q :: 0 <= q < |db| ==> decode(db[q].value).Some? && !Ignored(lookup, decode(db[q].value).value)
  }

  /**
   * With the dirs-only and files-only filters in force, and without a limit,
   * ignores or decode failures, fetchRange sends exactly the positions whose
   * keys lie in [lower, upper) and whose entries the filters let through.
   */
  lemma RangeScanFiltered(db: seq<KV>, lower: Bytes, upper: Bytes, opts: ReadOptions,
                          lookup: IgnoreLookup, decode: Decoder, count: int)
    requires Sorted(db) && SkipsForward(db, lookup, decode) && Unignored(db, opts, lookup, decode)
    ensures var r := RangeScan(db, lower, upper, opts, lookup, decode, count);
      && r.err.None? && r.count == 0
      && forall q :: q in r.at <==>
           0 <= q < |db| && InBounds(db[q].key, lower, upper) && !Filtered(opts, decode(db[q].value).value)
  {
    var r := RangeScan(db, lower, upper, opts, lookup, decode, count);
    var start := SeekGE(db, lower);
    ScanExhausts(db, lower, upper, opts, lookup, decode, start, count);
    RangeScanSends(db, lower, upper, opts, lookup, decode, count);
    forall q | q in r.at
      ensures 0 <= q < |db| && InBounds(db[q].key, lower, upper) && !Filtered(opts, decode(db[q].value).value)
    {
      var j :| 0 <= j < |r.at| && r.at[j] == q;
      assert Sendable(db, upper, opts, lookup, decode, q, r.sent[j]);
    }
    forall q: nat | q < |db| && InBounds(db[q].key, lower, upper) && !Filtered(opts, decode(db[q].value).value)
      ensures q in r.at
    {
      SeekGEIff(db, lower, q);
      ScanReaches(db, lower, upper, opts, lookup, decode, start, count, q, decode(db[q].value).value);
    }
  }

  /**
   * Over bounds in order, with the filters in force and without a limit,
   * ignores or decode failures, the split scans send exactly the positions
   * with keys in [lower, upper) that the filters let through, each once.
   */
  lemma SplitScanFiltered(db: seq<KV>, b: SplitBounds, opts: ReadOptions, lookup: IgnoreLookup, decode: Decoder,
                          count: int)
    requires Sorted(db) && SkipsForward(db, lookup, decode) && Unignored(db, opts, lookup, decode) && Ordered(b)
    ensures var r := SplitScanWithin(db, b, opts, lookup, decode, count);
      && r.err.None? && r.count == 0
      && (forall q :: q in r.at <==>
            0 <= q < |db| && InBounds(db[q].key, b.lower, b.upper) && !Filtered(opts, decode(db[q].value).value))
      && (forall j, k :: 0 <= j < k < |r.at| ==> r.at[j] != r.at[k])
  {
    var r1 := RangeScan(db, b.middle, b.upper, opts, lookup, decode, count);
    RangeScanFiltered(db, b.middle, b.upper, opts, lookup, decode, count);
    RangeScanFiltered(db, b.lower, b.middle, opts, lookup, decode, r1.count);
    SplitScanSends(db, b, opts, lookup, decode, count);
    forall q: nat | q < |db|
      ensures InBounds(db[q].key, b.lower, b.upper) <==> InBounds(db[q].key, b.middle, b.upper) || InBounds(db[q].key, b.lower, b.middle)
    {
      SplitPartitions(b.lower, b.middle, b.upper, db[q].key);
    }
  }

  /**
   * For a prefix whose last byte is below 0xFF and a current directory that
   * is unset or in the prefix range, a fetch with the filters in force and
   * without a limit, ignores or decode failures sends exactly the entries
   * whose keys extend the prefix and that the filters let through, each once.
   */
  lemma FetchPrefixFiltered(db: seq<KV>, opts: ReadOptions, lookup: IgnoreLookup, decode: Decoder, count: int)
    requires Sorted(db) && SkipsForward(db, lookup, decode) && Unignored(db, opts, lookup, decode)
    requires |opts.prefix| > 0 && opts.prefix[|opts.prefix| - 1] < 255
    requires |opts.currentDir| == 0
      || (LexLessEq(opts.prefix, opts.currentDir) && LexLessEq(opts.currentDir, CalcUpperBound(opts.prefix)))
    ensures var r := FetchSpec(db, opts, lookup, decode, count);
      && r.err.None? && r.count == 0
      && (forall q :: q in r.at <==>
            0 <= q < |db| && opts.prefix <= db[q].key && !Filtered(opts, decode(db[q].value).value))
      && (forall j, k :: 0 <= j < k < |r.at| ==> r.at[j] != r.at[k])
  {
    BoundsOrdered(opts);
    SplitScanFiltered(db, Bounds(opts), opts, lookup, decode, count);
    forall q: nat | q < |db|
      ensures opts.prefix <= db[q].key <==> InBounds(db[q].key, opts.prefix, CalcUpperBound(opts.prefix))
    {
      PrefixIffInRange(opts.prefix, db[q].key);
    }
  }

  /**
   * With no prefix, a fetch with the filters in force and without a limit,
   * ignores or decode failures sends exactly the stored entries the filters
   * let through.
   */
  lemma FetchAllFiltered(db: seq<KV>, opts: ReadOptions, lookup: IgnoreLookup, decode: Decoder, count: int)
    requires Sorted(db) && SkipsForward(db, lookup, decode) && Unignored(db, opts, lookup, decode)
    requires |opts.prefix| == 0
    ensures var r := FetchSpec(db, opts, lookup, decode, count);
      && r.err.None? && r.count == 0
      && forall q :: q in r.at <==> 0 <= q < |db| && !Filtered(opts, decode(db[q].value).value)
  {
    RangeScanFiltered(db, [], [], opts, lookup, decode, count);
    forall q: nat | q < |db|
      ensures InBounds(db[q].key, [], [])
    {
      PrefixLexLessEq([], db[q].key);
    }
  }

  /**
   * Completeness of fetchRange with ignores: without a limit, every entry
   * with a key in [lower, upper) that may be sent is sent, as long as every
   * value from the first in-range position up to it decodes and it lies in
   * no earlier ignored directory's skip.
   */
  lemma RangeScanReaches(db: seq<KV>, lower: Bytes, upper: Bytes, opts: ReadOptions,
                         lookup: IgnoreLookup, decode: Decoder, count: int, q: nat, d: AddData)
    requires Sorted(db) && SkipsForward(db, lookup, decode) && opts.limit <= 0
    requires Sendable(db, upper, opts, lookup, decode, q, d) && LexLessEq(lower, db[q].key)
    requires forall p :: SeekGE(db, lower) <= p < q ==>
      decode(db[p].value).Some? && !InSkip(db, lower, lookup, decode, p, q)
    ensures q in RangeScan(db, lower, upper, opts, lookup, decode, count).at
  {
    SeekGEIff(db, lower, q);
    ScanReaches(db, lower, upper, opts, lookup, decode, SeekGE(db, lower), count, q, d);
  }

  /**
   * With a limit, a fetch that starts from a count in [0, Limit] sends at most
   * twice the limit: the second scan restarts from the 0 the exhausted first
   * scan returned.
   */
  lemma FetchSentBound(db: seq<KV>, opts: ReadOptions, lookup: IgnoreLookup, decode: Decoder, count: int)
    requires Sorted(db) && SkipsForward(db, lookup, decode)
    requires opts.limit > 0 && 0 <= count <= opts.limit
    ensures |FetchSpec(db, opts, lookup, decode, count).sent| <= 2 * opts.limit
  {
    var b := Bounds(opts);
    if |opts.prefix| == 0 {
      ScanLimit(db, [], [], opts, lookup, decode, SeekGE(db, []), count);
    } else {
      var r1 := RangeScan(db, b.middle, b.upper, opts, lookup, decode, count);
      ScanLimit(db, b.middle, b.upper, opts, lookup, decode, SeekGE(db, b.middle), count);
      ScanCount(db, b.middle, b.upper, opts, lookup, decode, SeekGE(db, b.middle), count);
      ScanLimit(db, b.lower, b.middle, opts, lookup, decode, SeekGE(db, b.lower), r1.count);
    }
  }

  /** A store whose values decode to files named by their own bytes. */
  function FileDecoder(): Decoder
  {
    v => Some(AddData(v, None, false))
  }

  /** The store of LimitExceededExample: files [1, 2] and [1, 7]. */
  const LimitStore: seq<KV> := [KV([1, 2], [1, 2]), KV([1, 7], [1, 7])]

  /** The options of LimitExceededExample: prefix [1], limit 1, current directory [1, 5]. */
  const LimitOptions: ReadOptions := ReadOptions([1], 1, false, false, [1, 5])

  lemma LimitStoreValid()
    ensures Sorted(LimitStore) && SkipsForward(LimitStore, NoIgnores(), FileDecoder())
  {
    assert LexLess([2], [7]) && LexLess([1, 2], [1, 7]);
    NoIgnoresSkipsForward(LimitStore, FileDecoder());
  }

  /** The first scan, over [[1, 5], [2]), sends [1, 7] and returns 0 on exhaustion. */
  lemma LimitFirstScan()
    ensures Sorted(LimitStore) && SkipsForward(LimitStore, NoIgnores(), FileDecoder())
    ensures RangeScan(LimitStore, [1, 5], [2], LimitOptions, NoIgnores(), FileDecoder(), 0)
         == Scanned([AddData([1, 7], None, false)], [1], 0, None)
  {
    LimitStoreValid();
    var db := LimitStore;
    assert LexLess([2], [5]) && LexLess([1, 2], [1, 5]) && !LexLess([1, 7], [1, 5]);
    assert SeekGE(db, [1, 5]) == 1;
    assert LexLess([1, 7], [2]);
    assert Scan(db, [1, 5], [2], LimitOptions, NoIgnores(), FileDecoder(), 2, 1) == Scanned([], [], 0, None);
  }

  /** The second scan, over [[1], [1, 5]), starts again from 0 and sends [1, 2]. */
  lemma LimitSecondScan()
    ensures Sorted(LimitStore) && SkipsForward(LimitStore, NoIgnores(), FileDecoder())
    ensures RangeScan(LimitStore, [1], [1, 5], LimitOptions, NoIgnores(), FileDecoder(), 0).sent
         == [AddData([1, 2], None, false)]
  {
    LimitStoreValid();
    var db := LimitStore;
    assert SeekGE(db, [1]) == 0 by {
      assert !LexLess([1, 2], [1]);
    }
    assert LexLess([1, 2], [1, 5]) by {
      assert LexLess([2], [5]);
    }
    assert !LexLess([1, 7], [1, 5]);
  }

  /**
   * The restart of the count shows: with Limit 1, prefix [1] and current
   * directory [1, 5], the first scan sends [1, 7] and returns 0 on
   * exhaustion, so the second scan still sends [1, 2]; two entries leave
   * for a limit of one.
   */
  lemma LimitExceededExample()
    ensures Sorted(LimitStore) && SkipsForward(LimitStore, NoIgnores(), FileDecoder())
    ensures FetchSpec(LimitStore, LimitOptions, NoIgnores(), FileDecoder(), 0).sent
         == [AddData([1, 7], None, false), AddData([1, 2], None, false)]
  {
    LimitFirstScan();
    LimitSecondScan();
    assert CalcUpperBound([1]) == [2];
    assert Bounds(LimitOptions) == SplitBounds([1], [1, 5], [2]);
  }

  /** The store of SkipPassesNextEntryExample: entries [1], [2] and [3]. */
  const SkipStore: seq<KV> := [KV([1], [1]), KV([2], [2]), KV([3], [3])]

  /** Values decode to entries named by their own bytes; [1] is a directory. */
  function SkipDecoder(): Decoder
  {
    v => Some(AddData(v, None, v == [1]))
  }

  /** Only [1] is governed by a matcher, and that matcher matches everything. */
  function SkipLookup(): IgnoreLookup
  {
    n => if n == [1] then Some((p: Bytes, dir: bool) => true) else None
  }

  lemma SkipStoreValid()
    ensures Sorted(SkipStore) && SkipsForward(SkipStore, SkipLookup(), SkipDecoder())
  {
    var db := SkipStore;
    assert LexLess([1], [2]) && LexLess([2], [3]) && LexLess([1], [3]);
    forall i | 0 <= i < |db|
      ensures SkipsForwardAt(db, SkipLookup(), SkipDecoder(), i)
    {
      if i > 0 {
        assert SkipDecoder()(db[i].value) == Some(AddData(db[i].key, None, false));
        assert SkipLookup()(db[i].key) == None;
      }
    }
  }

  /**
   * The Next() after a seek shows: with directory [1] ignored, the seek to
   * [2] lands on entry [2], and the loop's Next() passes over it, although it
   * is neither ignored nor inside [1]'s key range; only [3] is sent.
   */
  lemma SkipPassesNextEntryExample()
    ensures Sorted(SkipStore) && SkipsForward(SkipStore, SkipLookup(), SkipDecoder())
    ensures !Ignored(SkipLookup(), AddData([2], None, false))
    ensures !InBounds([2], [1], CalcUpperBound([1]))
    ensures FetchSpec(SkipStore, ReadOptions([], 0, false, false, []), SkipLookup(), SkipDecoder(), 0).sent
         == [AddData([3], None, false)]
  {
    SkipStoreValid();
    var db, lookup, decode := SkipStore, SkipLookup(), SkipDecoder();
    var opts := ReadOptions([], 0, false, false, []);
    assert CalcUpperBound([1]) == [2];
    LexLessIrreflexive([2]);
    assert SeekGE(db, []) == 0;
    assert SeekGE(db, [2]) == 1 by {
      assert LexLess([1], [2]);
    }
    assert Scan(db, [], [], opts, lookup, decode, 3, 1) == Scanned([], [], 0, None);
    assert Scan(db, [], [], opts, lookup, decode, 2, 0).sent == [AddData([3], None, false)];
    assert StepAt(db, [], [], opts, lookup, decode, 0, 0) == Pass(2);
  }

  /** A store holding only the directory [1, 0xFF]. */
  const WrapStore: seq<KV> := [KV([1, 255], [1, 255])]

  /** Values decode to directories named by their own bytes. */
  function DirDecoder(): Decoder
  {
    v => Some(AddData(v, None, true))
  }

  /** Every path is governed by a matcher that matches everything. */
  function IgnoreAll(): IgnoreLookup
  {
    n => Some((p: Bytes, dir: bool) => true)
  }

  /**
   * An ignored name ending in 0xFF is allowed when its seek does not go back:
   * the bound [2, 0] wraps to [1, 0], which sorts before [1, 0xFF], yet the
   * seek lands on the directory itself, Next() exhausts the iterator and the
   * fetch sends nothing.
   */
  lemma WrappedNameExample()
    ensures CalcUpperBound([1, 255]) == [1, 0] && LexLess([1, 0], [1, 255])
    ensures Sorted(WrapStore) && SkipsForward(WrapStore, IgnoreAll(), DirDecoder())
    ensures var r := FetchSpec(WrapStore, ReadOptions([], 0, false, false, []), IgnoreAll(), DirDecoder(), 0);
      r.sent == [] && r.err.None?
  {
    var db := WrapStore;
    assert LexLess([0], [255]);
    assert SeekGE(db, [1, 0]) == 0;
    assert SeekGE(db, []) == 0;
    assert SkipsForwardAt(db, IgnoreAll(), DirDecoder(), 0);
    var opts := ReadOptions([], 0, false, false, []);
    assert StepAt(db, [], [], opts, IgnoreAll(), DirDecoder(), 0, 0) == Pass(1);
  }
}
