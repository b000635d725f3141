# fscache, modelled in Dafny

fscache is a file-system cache daemon. A watcher reports file-system
changes in batches. The daemon drops the paths its ignore list covers and
records the rest in a path store. Clients ask the daemon for the paths under
a prefix, and the paths nearest their working directory come first.

This project models the parts of fscache that make decisions:

- **The store.** The Pebble store keeps entries under byte-string keys in
  ascending order. Its fetch turns a prefix into a half-open key range, splits
  the range at the caller's directory, and scans each part. A scan passes over
  ignored directories and applies the filters and the limit. Both revisions
  of the fetcher are modelled. So are the two in-memory set stores, with
  their pending flag and their sorted dump, and the entry helpers (key,
  printed form, order, protocol conversion).
- **The ignore walk.** It asks a gitignore matcher about every ancestor of a
  path.
- **The daemon's sequential steps.** It dispatches events to the store,
  answers `GetFiles` in batches, and shuts down only once.
- **The macOS watcher.** It classifies raw events and stats their paths. Its
  flag helpers are modelled too.
- **The read command.** It normalises the prefix and the working directory
  before they go into a request.

Each module states the source's behaviour as functions over values, with
lemmas about those functions. Code that changes state in the source is a
class whose methods are proved against those functions:

- the stores;
- the fetchers, with their running count and channel;
- the daemon;
- the watcher.

The environment becomes parameters:

- whether a file opens;
- JSON encoding and decoding;
- `os.Stat`;
- the gitignore matcher;
- the clock;
- a writer's capacity;
- a response stream's capacity;
- the order in which a Go map hands out its keys.

Two quirks of the newer fetch are modelled as written, not repaired:

- `fetchRange` returns 0, not the running count, when its iterator runs out.
  The second scan of a prefixed fetch therefore restarts its count, and a
  fetch can send up to twice its limit (`LimitExceededExample`).
- After the seek past an ignored directory, the loop's `Next()` also passes
  over the first key after that directory's range
  (`SkipPassesNextEntryExample`).

## Model

| member | source | states |
|---|---|---|
| FsListAddData.FromProtoFile | fslist/adddata.go:18-23 | the entry has the File's name and kind and no timestamp |
| FsListAddData.ToProtoFile | fslist/adddata.go:42-47 | the File has the entry's name and kind |
| FsListAddData.ProtoRoundTrip | fslist/adddata.go:18-47 | entry to File and back keeps name and kind and drops the timestamp |
| FsListAddData.ProtoFileRoundTrip | fslist/adddata.go:18-47 | File to entry and back gives the same File |
| FsListAddData.PebbleKey | fslist/adddata.go:49-60 | empty name gives empty key; the name is a prefix of the key, which is at most one byte longer; a file's key is its name; a non-empty directory key ends in '/'; a name already ending in '/' is kept; any other change is exactly one '/' appended |
| FsListAddData.PebbleKeyIdempotent | fslist/adddata.go:49-60 | normalising a normalised key changes nothing |
| FsListAddData.StringParts | fslist/adddata.go:25-32 | the printed form is "AddData{", the name, "/" exactly for a directory, then "}" |
| FsListAddData.StringConfusesKinds | fslist/adddata.go:25-32 | the file "a/" and the directory "a" print the same |
| FsListAddData.Len | fslist/adddata.go:64-66 | the length of the slice |
| FsListAddData.LessIrreflexive | fslist/adddata.go:70-72 | ByPath.Less is irreflexive |
| FsListAddData.LessTransitive | fslist/adddata.go:70-72 | ByPath.Less is transitive |
| FsListAddData.LessTotal | fslist/adddata.go:70-72 | entries with different names are ordered exactly one way |
| FsListAddData.Swap | fslist/adddata.go:67-69 | positions i and j are exchanged, every other position is unchanged, and the contents are a permutation |
| PebbleDb.Set | fslist/pebble.go:71 | the store stays sorted; the written key reads the new value and every other key reads what it read before |
| PebbleDb.SetIdempotent | fslist/pebble.go:71 | writing the same value twice equals writing it once |
| PebbleDb.SetOverwrites | fslist/pebble.go:71 | a later write to a key replaces the earlier one |
| PebbleDb.SeekGE | fslist/pebble_fetcher.go:78 | the iterator's first position is the first key at or after the lower bound |
| PebbleDb.SeekGEMonotone | fslist/pebble_fetcher.go:109 | seeking to a later key never moves the cursor back |
| PebbleStore.NewPebble | fslist/pebble.go:22-35 | an empty location is refused before anything is opened; a failed open is an error; otherwise the store holds what was opened |
| PebbleStore.PebbleList.Open | fslist/pebble.go:37-53 | the store holds the opened contents under the location |
| PebbleStore.PebbleList.Add | fslist/pebble.go:63-76 | a marshal failure and a failed write each return their error with the store unchanged; otherwise the encoded entry is upserted under its Name |
| PebbleStore.AddKeyIsName | fslist/pebble.go:71 | after Add the entry is found under its Name; a directory's normalised key does not see it |
| PebbleStore.PebbleList.Pending | fslist/pebble.go:59-61 | never pending |
| PebbleStore.PebbleList.Delete | fslist/pebble.go:78-80 | returns no error and changes nothing |
| PebbleStore.PebbleList.Len | fslist/pebble.go:82-85 | always 0 |
| PebbleStore.PebbleList.Copy | fslist/pebble.go:87-89 | writes nothing and returns no error |
| PebbleFetcher.CalcUpperBound | fslist/pebble_fetcher.go:130-139 | same length as the prefix; all bytes equal except the last, which is incremented mod 256; empty for the empty prefix |
| PebbleFetcherProperties.PrefixIffInRange | fslist/pebble_fetcher.go:129-139 | when the last byte is below 0xFF, P is a prefix of s iff P <= s < calcUpperBound(P) |
| PebbleFetcherProperties.PrefixRangeChildExample | fslist/pebble_test.go:69-74 | "/foo/bar/baz/1.txt" lies in the range of "/foo/bar/baz" |
| PebbleFetcherProperties.PrefixRangeSiblingExample | fslist/pebble_test.go:63-74 | "/foo/bar/qaz" does not lie in the range of "/foo/bar/baz" |
| PebbleFetcherProperties.UpperBoundWrapsBelow | fslist/pebble_fetcher.go:137 | a prefix ending in 0xFF wraps to a bound that sorts before the prefix |
| PebbleFetcher.Bounds | fslist/pebble_fetcher.go:36-47 | an empty Prefix gives empty bounds; otherwise lower is Prefix and upper is calcUpperBound(Prefix); middle is CurrentDir when set and different from Prefix, else Prefix |
| PebbleFetcherProperties.SplitPartitions | fslist/pebble_fetcher.go:49-55 | for lower <= middle <= upper, each key of [lower, upper) lies in exactly one of [middle, upper) and [lower, middle) |
| PebbleFetcherProperties.BoundsOrdered | fslist/pebble_fetcher.go:39-47 | a prefix not ending in 0xFF, with CurrentDir unset or inside its range, gives ordered bounds |
| PebbleFetcherProperties.UnsplitSecondScanEmpty | fslist/pebble_fetcher.go:44-55 | with CurrentDir unset or equal to Prefix, middle is lower and the second scan sends nothing |
| PebbleFetcher.StepAt | fslist/pebble_fetcher.go:78-124 | one loop pass: a pass moves the cursor forward, and a send happens only at a valid position |
| PebbleFetcher.PebbleFetcher.Visit | fslist/pebble_fetcher.go:79-123 | the loop body is the StepAt pass; a send appends the entry and adds one to the count; anything else changes neither |
| PebbleFetcher.PebbleFetcher.FetchRange | fslist/pebble_fetcher.go:61-127 | sends what the RangeScan specification sends, adds one to the count per sent entry, and returns its count and error |
| PebbleFetcher.PebbleFetcher.FetchRangeWithPrefix | fslist/pebble_fetcher.go:36-57 | [middle, upper) is scanned, then [lower, middle) unless the first scan failed; the count is the first scan's result plus the second scan's sends |
| PebbleFetcher.PebbleFetcher.Fetch | fslist/pebble_fetcher.go:19-27 | one unbounded scan without a prefix, the split scan with one, then the channel is closed |
| PebbleFetcherProperties.ScanSends | fslist/pebble_fetcher.go:78-124 | a scan sends only decodable, unignored, unfiltered entries below the upper bound, at ascending positions |
| PebbleFetcherProperties.RangeScanSends | fslist/pebble_fetcher.go:61-127 | fetchRange sends only such entries, with keys in [lower, upper) |
| PebbleFetcherProperties.SplitScanSends | fslist/pebble_fetcher.go:36-57 | over ordered bounds, the two scans send distinct positions, each sendable and in [lower, upper) |
| PebbleFetcherProperties.SplitScanNearFirst | fslist/pebble_fetcher.go:29-55 | every entry of the first scan is at or after middle; every later entry is before it |
| PebbleFetcherProperties.ScanAscending | fslist/pebble_fetcher.go:78 | one scan sends in ascending key order |
| PebbleFetcherProperties.ScanCount | fslist/pebble_fetcher.go:78-126 | a scan stopped by the limit or by an error returns the count plus its sends; an exhausted scan returns 0 |
| PebbleFetcherProperties.ScanLimit | fslist/pebble_fetcher.go:79-81 | with a limit, nothing is sent once the count reaches it, and the count never passes it |
| PebbleFetcherProperties.ScanError | fslist/pebble_fetcher.go:83-86 | a scan fails only on a value at or after its start that does not decode, and names its key |
| PebbleFetcherProperties.IgnoredDirSkipsRange | fslist/pebble_fetcher.go:89-111 | after an ignored directory, nothing in [name, calcUpperBound(name)) is sent, nor the first key after that range |
| PebbleFetcherProperties.SkipPassesNextEntryExample | fslist/pebble_fetcher.go:108-111 | with directory [1] ignored, entry [2], neither ignored nor inside [1]'s range, is still not sent |
| PebbleFetcherProperties.ScanAll | fslist/pebble_fetcher.go:78-124 | with no limit, ignores, filters or decode failures, a scan sends every position from its start below the upper bound |
| PebbleFetcherProperties.RangeScanAll | fslist/pebble_fetcher.go:61-127 | under the same conditions, fetchRange sends exactly the positions with keys in [lower, upper) |
| PebbleFetcherProperties.FetchAllWithoutPrefix | fslist/pebble_fetcher.go:19-27 | under the same conditions, a fetch without a prefix sends every stored entry, in key order |
| PebbleFetcherProperties.SplitScanExact | fslist/pebble_fetcher.go:36-57 | under the same conditions, the split scans send each key of [lower, upper) exactly once |
| PebbleFetcherProperties.FetchPrefixExact | fslist/pebble_fetcher.go:19-57 | under the same conditions, a prefixed fetch sends exactly the entries whose keys extend the prefix, each once |
| PebbleFetcherProperties.ScanReaches | fslist/pebble_fetcher.go:78-124 | without a limit, a scan reaches and sends every sendable position below the upper bound, provided every value before it decodes and it is not inside the skip of an earlier ignored directory |
| PebbleFetcherProperties.ScanExhausts | fslist/pebble_fetcher.go:78-126 | without a limit and with every value decodable, a scan ends with no error and returns 0 |
| PebbleFetcherProperties.RangeScanReaches | fslist/pebble_fetcher.go:61-127 | with ignores in force, fetchRange sends every sendable entry in [lower, upper) that no earlier ignored directory skips over |
| PebbleFetcherProperties.RangeScanFiltered | fslist/pebble_fetcher.go:61-127 | with DirsOnly and FilesOnly in force, and no limit, ignores or decode failures, fetchRange sends exactly the positions in [lower, upper) whose entries pass the filters |
| PebbleFetcherProperties.SplitScanFiltered | fslist/pebble_fetcher.go:36-57 | under the same conditions, the split scans send exactly the positions in [lower, upper) that pass the filters, each once |
| PebbleFetcherProperties.FetchPrefixFiltered | fslist/pebble_fetcher.go:19-57 | under the same conditions, a prefixed fetch sends exactly the entries extending the prefix that pass the filters, each once |
| PebbleFetcherProperties.FetchAllFiltered | fslist/pebble_fetcher.go:19-27 | under the same conditions, a fetch without a prefix sends exactly the stored entries that pass the filters |
| PebbleFetcherProperties.FetchSentBound | fslist/pebble_fetcher.go:50-126 | with a limit, a fetch starting from a count within it sends at most twice the limit |
| PebbleFetcherProperties.LimitExceededExample | fslist/pebble_fetcher.go:50-126 | with Limit 1, the restarted count lets two entries through |
| PebbleFetcherProperties.WrappedNameExample | fslist/pebble_fetcher.go:130-139 | the ignored directory [1, 0xFF] has upper bound [1, 0], which sorts before it; a store holding only it still meets SkipsForward, and a fetch of it sends nothing, without error |
| PebbleFetchLegacy.CopySetBounds | fslist/pebble_fetch.go:40-46 | lower is keyType+Prefix; upper is calcUpperBound(keyType+Prefix); middle is keyType+CurrentDir when CurrentDir is set and different from Prefix, else lower |
| PebbleFetchLegacy.Unfiltered | fslist/pebble_fetch.go:71-83 | the older loop applies no DirsOnly or FilesOnly filter, and keeps the limit, prefix and current directory |
| PebbleFetchLegacy.LegacyFetcher.FetchRange | fslist/pebble_fetch.go:57-86 | sends every decodable entry of [lower, upper) in key order until the limit, with no ignore check; exhaustion returns 0 |
| PebbleFetchLegacy.LegacyFetcher.CopySet | fslist/pebble_fetch.go:39-55 | [middle, upper) is scanned before [lower, middle), and the second scan is skipped if the first failed |
| PebbleFetchLegacy.LegacyFetcher.Fetch | fslist/pebble_fetch.go:19-37 | the file pass (skipped for DirsOnly), then the directory pass from the count the file pass returned; the error is always nil |
| PebbleFetchLegacy.CopySetInKeySpace | fslist/pebble_fetch.go:39-55 | everything copySet(keyType) sends has a key starting with keyType |
| PebbleFetchLegacy.LegacyFilesBeforeDirs | fslist/pebble_fetch.go:24-34 | every emitted file precedes every emitted directory, and with DirsOnly no file is emitted |
| PebbleFetchLegacy.CopySetExact | fslist/pebble_fetch.go:39-86 | without a limit and with every value decodable, copySet sends each key extending keyType+Prefix exactly once |
| NameLists.SortStrings | fslist/list.go:78 | sort.Strings: ascending, and a permutation of its input |
| NameLists.SortStringsOfDistinct | fslist/list.go:72-78 | sorting names without repeats gives a strictly ascending listing of the same names |
| NameLists.StrictlyAscendingUnique | fslist/list.go:72-78 | two strictly ascending listings of the same names are equal |
| NameLists.CollectKeys | fslist/list.go:72-75 | the key loop collects every name once, in an order the map chooses |
| NameLists.SortedKeys | fscache/fslist.go:58-65 | sorting the collected keys gives the same listing whatever order the map used |
| NameLists.SortedNamesLength | fslist/list.go:90-95 | the sorted listing has one line per distinct name |
| NameLists.RenderLength | fscache/fslist.go:67-76 | the dump is as long as the names plus one newline each |
| NameLists.LinesOfRender | fslist/list.go:80-85 | reading the dump back line by line gives the printed names |
| Writers.Fprintln | fslist/list.go:81 | the line and a newline are written, or as much as fits, with an error exactly when they do not fit |
| Writers.Writer.Truncate | fslist/list.go:63 | opening with O_TRUNC empties the file |
| ListStore.List.constructor | fslist/list.go:22-28 | an empty set, nothing pending, the given file name |
| ListStore.List.Pending | fslist/list.go:30-32 | true exactly when the counter is 1 |
| ListStore.List.Add | fslist/list.go:34-42 | the name is added and every other name kept; pending is set; Len grows exactly when the name was new; returns nil |
| ListStore.List.Delete | fslist/list.go:52-60 | the name is removed and every other name kept; pending is set even if the name was absent; returns nil |
| ListStore.List.Len | fslist/list.go:90-95 | the number of distinct names |
| ListStore.List.Write | fslist/list.go:62-88 | a failed open changes nothing; otherwise pending is cleared and the file holds the names, sorted, one per line, or the part that fit before the failing line with its error; the set is not changed |
| FsCacheFsList.FSList.constructor | fscache/fslist.go:19-24 | an empty set with nothing pending |
| FsCacheFsList.FSList.Pending | fscache/fslist.go:26-28 | true exactly when the counter is 1 |
| FsCacheFsList.FSList.Add | fscache/fslist.go:30-36 | the name is added and every other name kept; pending is set; Len grows exactly when the name was new |
| FsCacheFsList.FSList.Delete | fscache/fslist.go:46-52 | the name is removed and every other name kept; pending is set whether or not it was present |
| FsCacheFsList.FSList.Len | fscache/fslist.go:79-84 | the number of distinct names |
| FsCacheFsList.FSList.Write | fscache/fslist.go:54-77 | pending is cleared; the writer receives the sorted names one per line, and the count is their total length plus one newline each; on a short write it stops, the writer holds the prefix that fit, and the count includes the failing write's bytes |
| FsCacheFsList.PrintLines | fscache/fslist.go:67-76 | the printing loop sums the reported counts and stops at the first error |
| IgnoreWalk.Split | fscache/cache.go:143 | strings.Split on '/': at least one piece, none holding a '/' |
| IgnoreWalk.JoinSplit | fscache/cache.go:143-149 | joining the pieces of a split gives the path back |
| IgnoreWalk.SplitJoin | fscache/cache.go:143-149 | splitting a join of slash-free pieces gives the pieces back |
| IgnoreWalk.Walk | fscache/cache.go:141-156 | true exactly when the matcher accepts some question; the questions asked are the prefix joins in order, up to and including the first accepted one |
| IgnoreWalk.QueriesAreAncestors | fscache/cache.go:144-150 | each question is a prefix of the path and never the whole non-empty path; the first is "" with the caller's flag, and every later one is followed by '/' in the path and says "directory" |
| IgnoreWalk.QueryCount | ignorer/global.go:104-110 | one question per '/' plus one |
| IgnoreWalk.EmptyPathQueries | ignorer/global.go:104-110 | the empty path gets one question, about "" |
| IgnoreWalk.AbsolutePathQueries | ignorer/global.go:104-110 | for an absolute path, the first two questions are both about "" |
| Ignorer.GlobalIgnore.Match | ignorer/global.go:102-117 | true exactly when the matcher accepts a question of the walk (the same walk as in fscache/ignore.go:91-106 and checkSkipPath) |
| Ignorer.IgnoredDirHidesDescendants | ignorer/global.go:104-113 | a path below an ignored directory is ignored, whatever its own kind |
| Ignorer.IgnoredIffAncestorName | fscache/ignore.go:91-106 | under a list of bare names, a path is ignored exactly when a proper ancestor carries a listed name; the last segment is never looked at |
| Ignorer.GitDirExamples | ignorer/global_test.go:19-20 | under any bare-name list holding .git/ (the global list and the daemon's watch list alike), "/foo/bar/.git/baz" (file) and "/foo/bar/.git/" (directory) are ignored |
| Ignorer.AppSupportExample | fscache/cache_test.go:22 | under the daemon's watch list, "/foo/bar/Library/Application Support/foo/bar" is ignored |
| Ignorer.LibraryKeptExample | fscache/cache_test.go:23 | under the daemon's watch list, "/foo/bar/Library/foo/bar" is not ignored |
| Ignorer.TrashExample | ignorer/global_test.go:22 | "/Users/Alice/.Trash/Library/foo/bar" is ignored |
| FsCache.EventToAddData | fscache/cache.go:133-139 | the entry has the event's path and kind, stamped with the handling time |
| FsCache.Dispatch | fscache/cache.go:158-176 | one store call exactly when the path is not ignored and the event is an Add or a Delete, none otherwise; the call carries the event's entry and is a Delete exactly for a Delete event |
| FsCache.DispatchAllSources | fscache/cache.go:158-176 | every store call comes from an unignored event, Add from an Add event and Delete from a Delete event, with Name = Path and IsDir = Dir |
| FsCache.DispatchAllLength | fscache/cache.go:158-176 | at most one store call per event |
| FsCache.DispatchAllAppend | fscache/cache.go:104-107 | handling two batches one after the other equals handling their concatenation |
| FsCache.FsCacheServer.HandleEvent | fscache/cache.go:158-176 | an ignored path changes nothing; otherwise a Delete event makes one Delete call and an Add event one Add call |
| FsCache.FsCacheServer.HandleEvents | fscache/cache.go:104-107 | a batch is handled event by event, in delivered order |
| FsCache.ReadOptionsOf | fscache/cache.go:223-228 | Prefix, Limit, DirsOnly and CurrentDir are passed on; FilesOnly is not |
| FsCache.PieceSize | fscache/cache.go:230-244 | the batch size when it is at least 1, else 1 |
| FsCache.BatchSizeOf | fscache/cache.go:230-233 | the request's batch size, or 10 when it is 0; never 0, always an int32 |
| FsCache.ChunkSpec | fscache/cache.go:235-257 | the pieces concatenate to the input; none is empty; all but the last are full |
| FsCache.BatchesSpec | fscache/cache.go:230-257 | the batches carry the fetched entries in order; none is empty; with a positive size all but the last are full, otherwise each holds one entry; an empty fetch sends nothing |
| FsCache.ToProtoFiles | fscache/cache.go:237-240 | each fetched entry becomes a File with its name and kind, in order |
| FsCache.FilesStream.Send | fscache/cache.go:245 | a send the stream accepts appends the batch; otherwise an error and nothing changes |
| FsCache.GetFiles | fscache/cache.go:220-260 | the stream receives the batches of the entries fetched with the request's options, cut at the request's batch size or at 10 when it is 0; once a send fails, only the batches before it, and the error |
| FsCache.SendFiles | fscache/cache.go:235-259 | the loop and the remainder send exactly the batches, stopping at the first failed send |
| FsCache.FsCacheServer.Close | fscache/cache.go:178-186 | the first call runs watcher stop, context cancel, store close and server stop in that order; later calls change nothing |
| FsCache.FsCacheServer.Shutdown | fscache/cache.go:262-265 | closes the daemon and echoes the empty request with no error |
| FsEventsWatcher.CheckFlagZero | watcher/fsevents_darwin.go:52-54 | the empty needle is found in every flag word |
| FsEventsWatcher.Classify | watcher/fsevents_darwin.go:59-65 | the type is Add or Delete |
| FsEventsWatcher.ClassifyDelete | watcher/fsevents_darwin.go:59-65 | Delete exactly when ItemRemoved is set; both flags give Delete; neither flag gives Add |
| FsEventsWatcher.Survivors | watcher/fsevents_darwin.go:67-74 | the surviving events are exactly the input events whose path can be stat'ed |
| FsEventsWatcher.Translate | watcher/fsevents_darwin.go:57-78 | no more events out than in; each output's path stats, its Dir is the stat result, and its type is Add or Delete |
| FsEventsWatcher.TranslateIsSurvivors | watcher/fsevents_darwin.go:57-78 | the output is the survivors in order, each with its path, its class and its stat'ed kind |
| FsEventsWatcher.TranslateLength | watcher/fsevents_darwin.go:57-78 | no more events come out than go in |
| FsEventsWatcher.GoneIsDropped | watcher/fsevents_darwin.go:67-74 | an event whose path cannot be stat'ed produces nothing |
| FsEventsWatcher.DirFromStat | watcher/fsevents_darwin.go:75 | each output's Dir is what the stat says, not the flags |
| FsEventsWatcher.TranslateAppend | watcher/fsevents_darwin.go:58-78 | translating two batches one after the other equals translating their concatenation |
| FsEventsWatcher.DarwinWatcher.constructor | watcher/fsevents_darwin.go:15-26 | watches the given root, nothing pushed, not stopped |
| FsEventsWatcher.DarwinWatcher.HandleEvents | watcher/fsevents_darwin.go:56-81 | pushes exactly one batch, possibly empty: the translation of the input |
| FsEventsWatcher.DarwinWatcher.Stop | watcher/fsevents_darwin.go:83-88 | the first call stops the stream and closes the channel, in that order; later calls change nothing |
| WatcherHelpers.CheckBitFlagProperties | watcher/helpers.go:10-12 | sharing a bit is symmetric and false with 0 |
| WatcherHelpers.CheckBitFlagCases | watcher/helpers_test.go:18-23 | the four cases of the package test |
| WatcherHelpers.SingleBitNeedles | watcher/fsevents_darwin.go:52-54 | for ItemRemoved and ItemCreated, checkFlag and checkBitFlag agree |
| WatcherHelpers.MappingCount | watcher/helpers.go:14-34 | the table names 19 flags |
| WatcherHelpers.SelectedZero | watcher/helpers_darwin.go:27-36 | the empty flag word selects no name |
| WatcherHelpers.SelectedBound | watcher/helpers_darwin.go:5-25 | at most 19 names are selected |
| WatcherHelpers.SelectedMonotone | watcher/helpers_darwin.go:30-34 | if the bits of f are among those of g, f selects no name g does not |
| WatcherHelpers.NamesSharingBits | watcher/helpers_darwin.go:30-34 | the loop lists each table name whose flag shares a bit with the word, once; nothing for a word that selects nothing |
| WatcherHelpers.FlagsToStrings | watcher/helpers_darwin.go:27-37 | name k is listed exactly when flagMappings[k] shares a bit with the word, without repeats and at most 19 names; zero gives none |
| WatcherHelpers.JoinWithLength | watcher/helpers.go:45 | a join holds every name and one separator between each two |
| WatcherHelpers.FlagsToString | watcher/helpers.go:36-46 | "fsevents.EventFlags{" + the selected names, once each, joined by ", " + "}"; zero prints "fsevents.EventFlags{}" |
| ReadCommand.CleanPrefix | cmds/read/read.go:117-126 | "" stays ""; a non-empty result ends in '/'; the input is a prefix of the result, which is at most one byte longer |
| ReadCommand.CleanPrefixCases | cmds/read/read.go:122-125 | a non-empty prefix is unchanged exactly when it ends in '/', and otherwise gains one '/' |
| ReadCommand.CleanPrefixIdempotent | cmds/read/read.go:117-126 | cleaning twice equals cleaning once |
| ReadCommand.CleanPrefixEmpty | cmds/read/read.go:118-120 | only the empty prefix cleans to "" |
| ReadCommand.ToInt32 | cmds/read/read.go:76-77 | int32(x) is congruent to x modulo 2^32, and equal to x when x is in range |
| ReadCommand.ListRequestOf | cmds/read/read.go:74-80 | Prefix and CurrentDir extend the given prefix and working directory by at most one byte, and end in '/' when non-empty; Limit and BatchSize are congruent to the flags modulo 2^32; DirsOnly is kept, FilesOnly unset |
| ReadCommand.ListRequestNormalised | cmds/read/read.go:72-80 | Prefix and CurrentDir each end in '/' unless empty and extend the given values; a second cleaning changes nothing; FilesOnly is unset; in-range numbers arrive unchanged |
| ReadCommand.RootsExactly | cmds/read/read.go:128-132 | the root markers are exactly .git, .svn and .hg, all mapped to true, and each starts with '.' |
| ReadCommand.EarlyNameSortsFirst | cmds/read/read.go:150-157 | "-x" does not start with '.', is not a root marker, and sorts before .git, .svn and .hg, so a directory listing meets it first and the search stops before any marker |

## Left out

- Goroutines, channels, timers and signals are not modelled. This covers `FSCache.Run`'s select loop, the flush ticker, `setSignalHandlers`, `server.Serve`, the asynchronous `GracefulStop`, `DarwinWatcher.Start`/`run`, and the watcher's 10-slot channel buffer. The model covers only the per-event and per-batch steps. A channel is the sequence of what was pushed to it. `Stream()` only returns that channel.
- `FSCache.init` and `fscache/direntry.go` are not part of this model, because they walk the file system.
- `Flush` is not modelled: it delegates to a store method that none of the modelled stores defines.
- `GlobalIgnoreList` and `getGoVars` are not modelled. They read environment variables, run `go env -json` and find the home directory.
- The gitignore library is not modelled: the matcher is a parameter. The name-pattern examples model only the bare-name patterns. Patterns with an inner `/` (such as `pkg/mod` in the daemon's watch list) and the absolute home `Library` entry are not covered.
- `fslist/sqlite.go` is not part of this model: its behaviour lives in the SQL engine.
- `ignoreCache.Get` (fslist/ignore.go) is a parameter of the fetcher. The file itself is a stub that always returns nil.
- The protobuf and gRPC code is not modelled. `Empty`, `File` and `ListRequest` are plain datatypes. A response stream is a sink that accepts a given number of messages.
- JSON marshalling and unmarshalling are partial-function parameters. So are `os.Stat`, whether a file opens, whether a Pebble write succeeds, and Pebble's open.
- Timestamps (`time.Now`, `ModTime`) are opaque values given as parameters.
- A writer failure is modelled only as a capacity: writes past it are short. File closing is not modelled.
- Logging is not modelled. Store errors in `handleEvent` and pass errors in the older fetcher's `Fetch` are only logged, so they do not appear in the model's results.
- Locks and atomics in the set stores are not modelled; every operation is atomic.
- `findRoot` and `Execute` of the read command are not modelled: they walk directories, connect, and print a stream. Only the request they build is modelled (`ListRequestOf`).
- `findRoot` stops at the first name that does not start with '.'. Directory listings are sorted bytewise, so a name like `-x`, `#x#` or `+x` comes before `.git` and ends the search early (`EarlyNameSortsFirst`).
- The CLI, `main.go`, PID locking and the shared configuration are not modelled.
- The `Dir` field is missing from `Event` in watcher/interface.go, but the daemon and the darwin watcher both use it. The model includes it.
- `handleEvent` passes an `AddData` to the store's `Delete`, while the store interface takes a name. The model records the call with the `AddData`.
- PebbleFetcher.PebbleFetcher.Fetch: requires that no ignored directory's seek lands before the directory itself (`SkipsForward`). For an ignored directory whose name is empty or ends in byte 0xFF, which no UTF-8 path does, the upper bound sorts before the name. The source's loop can then seek back and revisit entries, until the limit stops it, or forever without one. Such runs are not modelled. `UpperBoundWrapsBelow` shows where the backward seek comes from, and `WrappedNameExample` a store where such a name still meets the requirement.
- WatcherHelpers.FlagsToString: builds on the `flagsToStrings` loop rather than repeating it. The order of the names is whatever the map iteration gives, so the result is stated through an existentially chosen listing, not one fixed string.
- FsEventsWatcher.Classify: `checkFlag` is characterised only for the needles the watcher uses (ItemRemoved, ItemCreated) and for the empty needle. The general "every bit of the needle is set" reading is its definition.
- The flag names in the flag helpers are Dafny strings, not byte sequences. Each name is an ASCII literal, so they are the same.
