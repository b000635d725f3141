/**
 * The daemon (`FSCache`, fscache/cache.go), reduced to its sequential
 * steps: turning a watcher event into a store call after the ignore walk,
 * handling a batch of events in order, answering a `GetFiles` request in
 * batches, and the once-only shutdown.
 *
 * The store behind the `FSList` interface is recorded as the sequence of
 * calls made to it; the gRPC response stream is a sink that accepts a given
 * number of messages; the store's `Fetch` is a function parameter.
 */
module FsCache {
  import opened Bytes
  import opened Wrappers
  import opened FsListAddData
  import opened FsListOptions
  import opened IgnoreWalk
  import opened Watcher
  import Proto
  import Seqs

  /** A call the daemon makes on its store. */
  datatype StoreCall = AddCall(data: AddData) | DeleteCall(data: AddData)

  /** The steps of shutting down, in the order `Close` takes them. */
  datatype ShutdownStep = WatcherStop | ContextCancel | StoreClose | ServerStop

  const ShutdownOrder: seq<ShutdownStep> := [WatcherStop, ContextCancel, StoreClose, ServerStop]

  /** `eventToAddData`: the event's path and kind, stamped with the time it is handled. */
  function EventToAddData(e: Event, now: Time): (a: AddData)
    ensures a.name == e.path && a.isDir == e.dir && a.updatedAt == Some(now)
  {
    AddData(e.path, Some(now), e.dir)
  }

  /**
   * The store calls one event leads to: exactly one for an Add or a Delete
   * event that the ignore walk lets through, none otherwise; the call has the
   * event's kind and carries its path and kind.
   */
  function Dispatch(ignore: IgnoreMatcher, e: Event, now: Time): (calls: seq<StoreCall>)
    ensures |calls| <= 1
    ensures |calls| == 1 <==>
      !Ignored(ignore, e.path, e.dir) && (e.eventType == EventTypeAdd || e.eventType == EventTypeDelete)
    ensures forall c :: c in calls ==>
      c.data == EventToAddData(e, now) && (c.DeleteCall? <==> e.eventType == EventTypeDelete)
  {
    if Ignored(ignore, e.path, e.dir) then []
    else if e.eventType == EventTypeDelete then [DeleteCall(EventToAddData(e, now))]
    else if e.eventType == EventTypeAdd then [AddCall(EventToAddData(e, now))]
    else []
  }

  /** The store calls a batch of events leads to, event by event. */
  function DispatchAll(ignore: IgnoreMatcher, events: seq<Event>, clock: seq<Time>): seq<StoreCall>
    requires |clock| == |events|
  {
    Flatten(seq(|events|, i requires 0 <= i < |events| => Dispatch(ignore, events[i], clock[i])))
  }

  /** Handling two batches one after the other is handling their concatenation. */
  lemma DispatchAllAppend(ignore: IgnoreMatcher, es1: seq<Event>, c1: seq<Time>, es2: seq<Event>, c2: seq<Time>)
    requires |c1| == |es1| && |c2| == |es2|
    ensures DispatchAll(ignore, es1 + es2, c1 + c2) == DispatchAll(ignore, es1, c1) + DispatchAll(ignore, es2, c2)
  {
    var es, c := es1 + es2, c1 + c2;
    var a := seq(|es1|, i requires 0 <= i < |es1| => Dispatch(ignore, es1[i], c1[i]));
    var b := seq(|es2|, i requires 0 <= i < |es2| => Dispatch(ignore, es2[i], c2[i]));
    assert seq(|es|, i requires 0 <= i < |es| => Dispatch(ignore, es[i], c[i])) == a + b;
    FlattenAppend(a, b);
  }

  /** A batch of one event makes the calls of that event. */
  lemma DispatchAllOne(ignore: IgnoreMatcher, e: Event, now: Time)
    ensures DispatchAll(ignore, [e], [now]) == Dispatch(ignore, e, now)
  {
    var d := Dispatch(ignore, e, now);
    assert seq(1, i requires 0 <= i < 1 => Dispatch(ignore, [e][i], [now][i])) == [d];
    assert Flatten([d]) == d + Flatten([d][1..]);
    assert [d][1..] == [];
  }

  /**
   * Every store call comes from an event that the ignore walk let through,
   * with that event's path and kind; an Add event gives an Add call and a
   * Delete event a Delete call.
   */
  lemma DispatchAllSources(ignore: IgnoreMatcher, events: seq<Event>, clock: seq<Time>, j: nat)
    requires |clock| == |events|
    requires j < |DispatchAll(ignore, events, clock)|
    ensures var c := DispatchAll(ignore, events, clock)[j];
      exists i :: 0 <= i < |events| && !Ignored(ignore, events[i].path, events[i].dir) &&
        c.data == EventToAddData(events[i], clock[i]) &&
        (c.AddCall? <==> events[i].eventType == EventTypeAdd) &&
        (c.DeleteCall? <==> events[i].eventType == EventTypeDelete)
  {
    var bs := seq(|events|, i requires 0 <= i < |events| => Dispatch(ignore, events[i], clock[i]));
    FlattenMember(bs, j);
    var i :| 0 <= i < |bs| && Flatten(bs)[j] in bs[i];
    assert bs[i] == Dispatch(ignore, events[i], clock[i]);
  }

  /** No more store calls than events: each event gives at most one. */
  lemma DispatchAllLength(ignore: IgnoreMatcher, events: seq<Event>, clock: seq<Time>)
    requires |clock| == |events|
    ensures |DispatchAll(ignore, events, clock)| <= |events|
  {
    var bs := seq(|events|, i requires 0 <= i < |events| => Dispatch(ignore, events[i], clock[i]));
    FlattenShort(bs);
  }

  /** A gRPC response stream (`FSCache_GetFilesServer`) that takes `capacity` messages before it breaks. */
  class FilesStream {
    var sent: seq<seq<Proto.File>>
    const capacity: Option<nat>

    ghost predicate Valid()
      reads this
    {
      capacity.Some? ==> |sent| <= capacity.value
    }

    /** Whether k more messages would be accepted. */
    predicate Accepts(k: nat)
      reads this
    {
      capacity.None? || |sent| + k <= capacity.value
    }

    constructor (capacity: Option<nat>)
      ensures Valid() && sent == [] && this.capacity == capacity
    {
      sent := [];
      this.capacity := capacity;
    }

    /** `Send(files)`: delivered, or an error once the stream is broken. */
    method Send(files: seq<Proto.File>) returns (err: Option<StreamError>)
      requires Valid()
      modifies this`sent
      ensures Valid()
      ensures old(Accepts(1)) ==> err == None && sent == old(sent) + [files]
      ensures !old(Accepts(1)) ==> err == Some(Broken) && sent == old(sent)
    {
      if Accepts(1) {
        sent := sent + [files];
        return None;
      }
      return Some(Broken);
    }
  }

  datatype StreamError = Broken

  /** The fetch options `GetFiles` builds from a request: FilesOnly is not passed on. */
  function ReadOptionsOf(req: Proto.ListRequest): (opts: ReadOptions)
    ensures opts.prefix == req.prefix && opts.limit == req.limit && opts.dirsOnly == req.dirsOnly
    ensures opts.currentDir == req.currentDir && !opts.filesOnly
  {
    ReadOptions(req.prefix, req.limit, req.dirsOnly, false, req.currentDir)
  }

  /** The batch size `GetFiles` uses: the request's, or 10 when the request leaves it 0; never 0. */
  function BatchSizeOf(req: Proto.ListRequest): (n: int)
    ensures n != 0 && -0x8000_0000 <= n < 0x8000_0000
    ensures req.batchSize != 0 ==> n == req.batchSize as int
    ensures req.batchSize == 0 ==> n == 10
  {
    if req.batchSize != 0 then req.batchSize as int else 10
  }

  /**
   * s cut into consecutive pieces of n elements; the last piece holds what
   * is left.
   */
  function Chunk<T>(s: seq<T>, n: nat): seq<seq<T>>
    requires n >= 1
    decreases |s|
  {
    if |s| == 0 then []
    else if |s| <= n then [s]
    else [s[..n]] + Chunk(s[n..], n)
  }

  /** The concatenation of the pieces. */
  function Flatten<T>(bs: seq<seq<T>>): seq<T>
  {
    if |bs| == 0 then [] else bs[0] + Flatten(bs[1..])
  }

  lemma {:induction false} FlattenAppend<T>(a: seq<seq<T>>, b: seq<seq<T>>)
    ensures Flatten(a + b) == Flatten(a) + Flatten(b)
  {
    if |a| == 0 {
      assert a + b == b;
    } else {
      assert (a + b)[1..] == a[1..] + b;
      FlattenAppend(a[1..], b);
      Seqs.AppendAssoc(a[0], Flatten(a[1..]), Flatten(b));
    }
  }

  /** Every element of the concatenation lies in one of the pieces. */
  lemma {:induction false} FlattenMember<T>(bs: seq<seq<T>>, j: nat)
    requires j < |Flatten(bs)|
    ensures exists i :: 0 <= i < |bs| && Flatten(bs)[j] in bs[i]
  {
    if j < |bs[0]| {
      assert Flatten(bs)[j] == bs[0][j];
    } else {
      FlattenMember(bs[1..], j - |bs[0]|);
      var i :| 0 <= i < |bs[1..]| && Flatten(bs[1..])[j - |bs[0]|] in bs[1..][i];
      assert bs[1..][i] == bs[i + 1];
    }
  }

  /** Pieces of at most one element concatenate to at most as many elements as pieces. */
  lemma {:induction false} FlattenShort<T>(bs: seq<seq<T>>)
    requires forall i :: 0 <= i < |bs| ==> |bs[i]| <= 1
    ensures |Flatten(bs)| <= |bs|
  {
    if |bs| > 0 {
      FlattenShort(bs[1..]);
    }
  }

  /**
   * Chunking loses nothing and reorders nothing, no piece is empty, and every
   * piece but the last is full.
   */
  lemma {:induction false} ChunkSpec<T>(s: seq<T>, n: nat)
    requires n >= 1
    ensures Flatten(Chunk(s, n)) == s
    ensures forall j :: 0 <= j < |Chunk(s, n)| ==> 0 < |Chunk(s, n)[j]| <= n
    ensures forall j :: 0 <= j < |Chunk(s, n)| - 1 ==> |Chunk(s, n)[j]| == n
    decreases |s|
  {
    if |s| > n {
      ChunkSpec(s[n..], n);
      var bs := Chunk(s, n);
      assert bs[1..] == Chunk(s[n..], n);
      assert s == s[..n] + s[n..];
    }
  }

  /** m is a whole number of pieces of n. */
  ghost predicate Multiple(m: nat, n: nat)
    requires n >= 1
  {
    m == 0 || (m >= n && Multiple(m - n, n))
  }

  /** Cutting after a whole number of pieces cuts the pieces apart. */
  lemma {:induction false} ChunkSplit<T>(s: seq<T>, m: nat, n: nat)
    requires n >= 1 && m <= |s| && Multiple(m, n)
    ensures Chunk(s, n) == Chunk(s[..m], n) + Chunk(s[m..], n)
  {
    if m == 0 {
      assert s[..0] == [] && s[0..] == s;
    } else {
      ChunkSplit(s[n..], m - n, n);
      ChunkStep(s, m, n);
    }
  }

  /** One step of ChunkSplit: the first piece of the whole is the first piece of the prefix. */
  lemma ChunkStep<T>(s: seq<T>, m: nat, n: nat)
    requires 1 <= n <= m <= |s|
    requires Chunk(s[n..], n) == Chunk(s[n..][..m - n], n) + Chunk(s[n..][m - n..], n)
    ensures Chunk(s, n) == Chunk(s[..m], n) + Chunk(s[m..], n)
  {
    var rest := s[n..];
    assert rest[..m - n] == s[n..m];
    assert rest[m - n..] == s[m..];
    if |s| == n {
      assert s[..m] == s && s[m..] == [];
    } else {
      assert Chunk(s, n) == [s[..n]] + Chunk(rest, n);
      if m > n {
        assert s[..m][..n] == s[..n] && s[..m][n..] == s[n..m];
        assert Chunk(s[..m], n) == [s[..n]] + Chunk(s[n..m], n);
      } else {
        assert s[..m] == s[..n] && s[n..m] == [];
        assert Chunk(s[..m], n) == [s[..n]];
      }
      Seqs.AppendAssoc([s[..n]], Chunk(s[n..m], n), Chunk(s[m..], n));
    }
  }

  /** The fetched entries as protocol Files, in order. */
  function ToProtoFiles(fetched: seq<AddData>): (files: seq<Proto.File>)
    ensures |files| == |fetched|
    ensures forall i :: 0 <= i < |fetched| ==> files[i] == ToProtoFile(fetched[i])
  {
    if |fetched| == 0 then [] else [ToProtoFile(fetched[0])] + ToProtoFiles(fetched[1..])
  }

  /** The batches `GetFiles` sends for a fetched sequence. */
  function Batches(fetched: seq<AddData>, batchSize: int): seq<seq<Proto.File>>
  {
    Chunk(ToProtoFiles(fetched), if batchSize >= 1 then batchSize else 1)
  }

  /**
   * The batches carry the fetched entries, in order, and nothing else; none
   * is empty, so an empty fetch sends nothing; with a positive batch size
   * every batch but the last is full, and with any other every batch holds
   * one entry.
   */
  lemma BatchesSpec(fetched: seq<AddData>, batchSize: int)
    ensures Flatten(Batches(fetched, batchSize)) == ToProtoFiles(fetched)
    ensures var bs := Batches(fetched, batchSize);
      forall j :: 0 <= j < |bs| ==> |bs[j]| > 0
    ensures var bs := Batches(fetched, batchSize);
      batchSize >= 1 ==> forall j :: 0 <= j < |bs| ==> |bs[j]| <= batchSize && (j < |bs| - 1 ==> |bs[j]| == batchSize)
    ensures var bs := Batches(fetched, batchSize);
      batchSize < 1 ==> forall j :: 0 <= j < |bs| ==> |bs[j]| == 1
    ensures Batches(fetched, batchSize) == [] <==> |fetched| == 0
  {
    ChunkSpec(ToProtoFiles(fetched), if batchSize >= 1 then batchSize else 1);
  }

  /** A store `Fetch`: the entries it produces for some options. */
  type Fetch = ReadOptions -> seq<AddData>

  /**
   * `GetFiles`: fetches with the request's options and streams the entries
   * as Files, batchSize at a time, then the rest; stops at the first failed
   * send.
   */
  method GetFiles(req: Proto.ListRequest, fetch: Fetch, srv: FilesStream) returns (err: Option<StreamError>)
    requires srv.Valid()
    modifies srv`sent
    ensures srv.Valid()
    ensures var bs := Batches(fetch(ReadOptionsOf(req)), BatchSizeOf(req));
      old(srv.Accepts(|bs|)) ==> err == None && srv.sent == old(srv.sent) + bs
    ensures var bs := Batches(fetch(ReadOptionsOf(req)), BatchSizeOf(req));
      !old(srv.Accepts(|bs|)) ==>
        err == Some(Broken) && srv.sent == old(srv.sent) + bs[..srv.capacity.value - |old(srv.sent)|]
  {
    var fetched := fetch(ReadOptionsOf(req));
    var batchSize := 10;
    if req.batchSize != 0 {
      batchSize := req.batchSize as int;
    }
    err := SendFiles(srv, fetched, batchSize);
  }

  /** The size of the pieces: a batch size below 1 sends every entry on its own. */
  function PieceSize(batchSize: int): (n: nat)
    ensures n >= 1 && (batchSize >= 1 ==> n == batchSize)
  {
    if batchSize >= 1 then batchSize else 1
  }

  /** The loop of `GetFiles` and the send of the remainder. */
  method SendFiles(srv: FilesStream, fetched: seq<AddData>, batchSize: int) returns (err: Option<StreamError>)
    requires srv.Valid()
    modifies srv`sent
    ensures srv.Valid()
    ensures var bs := Batches(fetched, batchSize);
      old(srv.Accepts(|bs|)) ==> err == None && srv.sent == old(srv.sent) + bs
    ensures var bs := Batches(fetched, batchSize);
      !old(srv.Accepts(|bs|)) ==>
        err == Some(Broken) && srv.sent == old(srv.sent) + bs[..srv.capacity.value - |old(srv.sent)|]
  {
    ghost var n := PieceSize(batchSize);
    ghost var files := ToProtoFiles(fetched);
    ghost var start := srv.sent;
    var batch;
    ghost var full, done;
    err, batch, full, done := SendFullBatches(srv, fetched, batchSize);
    if err.Some? {
      return;
    }
    ChunkSplit(files, full, n);
    if |batch| > 0 {
      assert batch == files[full..];
      err := SendBatch(srv, batch, files, full, n, done, start);
      if err.Some? {
        return;
      }
      assert files[..|files|] == files;
    } else {
      assert files[full..] == [];
      assert files[..full] == files;
    }
    return None;
  }

  /**
   * Where the loop of `GetFiles` stands after the first i entries: the
   * entries before `full` have gone out as the pieces `done`, and the rest
   * wait in `batch`.
   */
  ghost predicate InProgress(files: seq<Proto.File>, n: nat, i: nat, full: nat, batch: seq<Proto.File>,
                             done: seq<seq<Proto.File>>, start: seq<seq<Proto.File>>, sent: seq<seq<Proto.File>>)
    requires n >= 1
  {
    && i <= |files| && full + |batch| == i && |batch| < n && Multiple(full, n)
    && batch == files[full..i] && done == Chunk(files[..full], n) && sent == start + done
  }

  /**
   * The loop of `GetFiles`: every full batch is sent as soon as it is
   * complete; the entries after the last full batch are returned unsent.
   */
  method SendFullBatches(srv: FilesStream, fetched: seq<AddData>, batchSize: int)
      returns (err: Option<StreamError>, batch: seq<Proto.File>, ghost full: nat, ghost done: seq<seq<Proto.File>>)
    requires srv.Valid()
    modifies srv`sent
    ensures srv.Valid()
    ensures err.None? ==>
      InProgress(ToProtoFiles(fetched), PieceSize(batchSize), |fetched|, full, batch, done, old(srv.sent), srv.sent)
    ensures var bs := Batches(fetched, batchSize);
      err.Some? ==>
        && err == Some(Broken) && srv.capacity.Some?
        && 0 <= srv.capacity.value - |old(srv.sent)| < |bs|
        && srv.sent == old(srv.sent) + bs[..srv.capacity.value - |old(srv.sent)|]
  {
    ghost var n := PieceSize(batchSize);
    ghost var files := ToProtoFiles(fetched);
    ghost var start := srv.sent;
    full, done := 0, [];
    batch := [];
    for i := 0 to |fetched|
      invariant srv.Valid()
      invariant InProgress(files, n, i, full, batch, done, start, srv.sent)
    {
      var f := Proto.File(fetched[i].name, fetched[i].isDir);
      err, batch, full, done := Push(srv, batch, f, batchSize, files, i, full, done, start);
      if err.Some? {
        return;
      }
    }
    err := None;
  }

  /** One turn of the loop of `GetFiles`: add the entry, and send the batch once it is full. */
  method Push(srv: FilesStream, batch: seq<Proto.File>, f: Proto.File, batchSize: int, ghost files: seq<Proto.File>,
              ghost i: nat, ghost full: nat, ghost done: seq<seq<Proto.File>>, ghost start: seq<seq<Proto.File>>)
      returns (err: Option<StreamError>, batch': seq<Proto.File>, ghost full': nat, ghost done': seq<seq<Proto.File>>)
    requires srv.Valid() && i < |files| && f == files[i]
    requires InProgress(files, PieceSize(batchSize), i, full, batch, done, start, srv.sent)
    modifies srv`sent
    ensures srv.Valid()
    ensures err.None? ==> InProgress(files, PieceSize(batchSize), i + 1, full', batch', done', start, srv.sent)
    ensures var bs := Chunk(files, PieceSize(batchSize));
      err.Some? ==>
        && err == Some(Broken) && srv.capacity.Some?
        && 0 <= srv.capacity.value - |start| < |bs|
        && srv.sent == start + bs[..srv.capacity.value - |start|]
  {
    ghost var n := PieceSize(batchSize);
    assert files[full..i + 1] == files[full..i] + [files[i]];
    batch', full', done' := batch + [f], full, done;
    err := None;
    if |batch'| >= batchSize {
      assert |batch'| == n;
      err := SendBatch(srv, batch', files, full, n, done, start);
      if err.None? {
        batch', full', done' := [], full + n, done + [batch'];
      }
    }
  }

  /**
   * One `srv.Send` of the piece that starts after the first `full` elements:
   * either the pieces so far are all sent, or the stream broke and the sent
   * pieces are the ones it had room for.
   */
  method SendBatch(srv: FilesStream, batch: seq<Proto.File>, ghost files: seq<Proto.File>, ghost full: nat,
                   ghost n: nat, ghost done: seq<seq<Proto.File>>, ghost start: seq<seq<Proto.File>>)
      returns (err: Option<StreamError>)
    requires srv.Valid() && n >= 1 && Multiple(full, n)
    requires 0 < |batch| <= n && full + |batch| <= |files| && batch == files[full..full + |batch|]
    requires |batch| < n ==> full + |batch| == |files|
    requires done == Chunk(files[..full], n) && srv.sent == start + done
    modifies srv`sent
    ensures srv.Valid()
    ensures err == None ==> Chunk(files[..full + |batch|], n) == done + [batch] && srv.sent == start + done + [batch]
    ensures err.Some? ==> err == Some(Broken) && srv.capacity.Some?
    ensures err.Some? ==> 0 <= srv.capacity.value - |start| < |Chunk(files, n)|
    ensures err.Some? ==> srv.sent == start + Chunk(files, n)[..srv.capacity.value - |start|]
  {
    ghost var upto := files[..full + |batch|];
    ChunkSplit(upto, full, n);
    assert upto[..full] == files[..full];
    assert upto[full..] == batch;
    assert Chunk(batch, n) == [batch];
    ChunkSplit(files, full, n);
    assert |Chunk(files[full..], n)| > 0;
    err := srv.Send(batch);
  }

  class FsCacheServer {
    /** The gitignore matcher built from the daemon's pattern list. */
    const ignore: IgnoreMatcher
    /** The calls made so far on the store. */
    var storeCalls: seq<StoreCall>
    /** Whether the once-guard of `Close` has fired. */
    var closed: bool
    var shutdown: seq<ShutdownStep>

    ghost predicate Valid()
      reads this
    {
      shutdown == if closed then ShutdownOrder else []
    }

    constructor (ignore: IgnoreMatcher)
      ensures Valid() && this.ignore == ignore && storeCalls == [] && !closed
    {
      this.ignore := ignore;
      storeCalls := [];
      closed := false;
      shutdown := [];
    }

    /**
     * `handleEvent`: an ignored path changes nothing; otherwise a Delete
     * event deletes and an Add event adds. Store errors are only logged.
     */
    method HandleEvent(e: Event, now: Time)
      modifies this`storeCalls
      ensures storeCalls == old(storeCalls) + Dispatch(ignore, e, now)
      ensures Ignored(ignore, e.path, e.dir) ==> storeCalls == old(storeCalls)
    {
      var skip, asked := Walk(ignore, e.path, e.dir);
      if skip {
        return;
      }
      if e.eventType == EventTypeDelete {
        storeCalls := storeCalls + [DeleteCall(EventToAddData(e, now))];
      } else if e.eventType == EventTypeAdd {
        storeCalls := storeCalls + [AddCall(EventToAddData(e, now))];
      }
    }

    /** A batch from the watcher's stream, handled event by event in delivered order. */
    method HandleEvents(events: seq<Event>, clock: seq<Time>)
      requires |clock| == |events|
      modifies this`storeCalls
      ensures storeCalls == old(storeCalls) + DispatchAll(ignore, events, clock)
    {
      for i := 0 to |events|
        invariant storeCalls == old(storeCalls) + DispatchAll(ignore, events[..i], clock[..i])
      {
        HandleEvent(events[i], clock[i]);
        assert events[..i + 1] == events[..i] + [events[i]] && clock[..i + 1] == clock[..i] + [clock[i]];
        DispatchAllAppend(ignore, events[..i], clock[..i], [events[i]], [clock[i]]);
        DispatchAllOne(ignore, events[i], clock[i]);
      }
      assert events[..|events|] == events && clock[..|clock|] == clock;
    }

    /** `Close`: the shutdown steps run once, in order; later calls do nothing. */
    method Close()
      requires Valid()
      modifies this`closed, this`shutdown
      ensures Valid() && closed && shutdown == ShutdownOrder
      ensures old(closed) ==> shutdown == old(shutdown)
    {
      if !closed {
        closed := true;
        shutdown := shutdown + [WatcherStop];
        shutdown := shutdown + [ContextCancel];
        shutdown := shutdown + [StoreClose];
        shutdown := shutdown + [ServerStop];
      }
    }

    /** The `Shutdown` RPC: closes and echoes the empty request. */
    method Shutdown(req: Proto.Empty) returns (resp: Proto.Empty, err: Option<StreamError>)
      requires Valid()
      modifies this`closed, this`shutdown
      ensures Valid() && closed && shutdown == ShutdownOrder
      ensures resp == req && err == None
    {
      Close();
      return req, None;
    }
  }
}
