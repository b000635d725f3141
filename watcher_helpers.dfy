/**
 * The watcher's flag helpers (watcher/helpers.go, watcher/helpers_darwin.go):
 * the shares-a-bit test, the table of the 19 named FSEvents flags, and the
 * loops that list the names of the flags a flag word shares a bit with, in
 * the order the map hands its keys out, bare or formatted for logging.
 *
 * The two files are two revisions of the same helpers and hold the same
 * table and the same loop; the table is modelled once, and `flagsToString`
 * formats the result of the `flagsToStrings` loop. Flag names are ASCII
 * string literals, modelled as Dafny strings.
 */
module WatcherHelpers {
  import opened Watcher
  import FsEventsWatcher

  /** `checkBitFlag`: the two words share at least one bit. */
  predicate CheckBitFlag(flags: EventFlags, needle: EventFlags)
  {
    flags & needle != 0
  }

  /** Sharing a bit is symmetric, and nothing shares a bit with the empty word. */
  lemma CheckBitFlagProperties(a: EventFlags, b: EventFlags)
    ensures CheckBitFlag(a, b) <==> CheckBitFlag(b, a)
    ensures !CheckBitFlag(a, 0) && !CheckBitFlag(0, a)
  {
    assert a & b == b & a;
    assert a & 0 == 0 && 0 & a == 0;
  }

  /** The four cases of the package's own table test. */
  lemma CheckBitFlagCases()
    ensures CheckBitFlag(ItemCreated | ItemIsDir, ItemCreated)
    ensures CheckBitFlag(ItemRemoved | ItemIsDir, ItemRemoved)
    ensures !CheckBitFlag(ItemCreated | ItemIsDir, ItemRemoved)
    ensures !CheckBitFlag(ItemRemoved | ItemIsDir, ItemCreated)
  {
  }

  /**
   * For the single-bit needles the darwin watcher classifies by, "every bit
   * of the needle is set" and "shares a bit with the needle" agree.
   */
  lemma SingleBitNeedles(flags: EventFlags)
    ensures FsEventsWatcher.CheckFlag(flags, ItemRemoved) <==> CheckBitFlag(flags, ItemRemoved)
    ensures FsEventsWatcher.CheckFlag(flags, ItemCreated) <==> CheckBitFlag(flags, ItemCreated)
  {
  }

  /** `flagMappings`: the name of every FSEvents flag the watcher reports. */
  const FlagMappings: map<string, EventFlags> := map[
    "MustScanSubDirs" := MustScanSubDirs,
    "UserDropped" := UserDropped,
    "KernelDropped" := KernelDropped,
    "EventIDsWrapped" := EventIDsWrapped,
    "HistoryDone" := HistoryDone,
    "RootChanged" := RootChanged,
    "Mount" := Mount,
    "Unmount" := Unmount,
    "ItemCreated" := ItemCreated,
    "ItemRemoved" := ItemRemoved,
    "ItemInodeMetaMod" := ItemInodeMetaMod,
    "ItemRenamed" := ItemRenamed,
    "ItemModified" := ItemModified,
    "ItemFinderInfoMod" := ItemFinderInfoMod,
    "ItemChangeOwner" := ItemChangeOwner,
    "ItemXattrMod" := ItemXattrMod,
    "ItemIsFile" := ItemIsFile,
    "ItemIsDir" := ItemIsDir,
    "ItemIsSymlink" := ItemIsSymlink
  ]

  /** The table names 19 flags: no name is entered twice. */
  lemma MappingCount()
    ensures |FlagMappings.Keys| == 19
  {
    var m: map<string, EventFlags> := map[];
    assert "MustScanSubDirs" !in m;
    m := m["MustScanSubDirs" := MustScanSubDirs];
    assert "UserDropped" !in m;
    m := m["UserDropped" := UserDropped];
    assert "KernelDropped" !in m;
    m := m["KernelDropped" := KernelDropped];
    assert "EventIDsWrapped" !in m;
    m := m["EventIDsWrapped" := EventIDsWrapped];
    assert "HistoryDone" !in m;
    m := m["HistoryDone" := HistoryDone];
    assert "RootChanged" !in m;
    m := m["RootChanged" := RootChanged];
    assert "Mount" !in m;
    m := m["Mount" := Mount];
    assert "Unmount" !in m;
    m := m["Unmount" := Unmount];
    assert "ItemCreated" !in m;
    m := m["ItemCreated" := ItemCreated];
    assert "ItemRemoved" !in m;
    m := m["ItemRemoved" := ItemRemoved];
    assert "ItemInodeMetaMod" !in m;
    m := m["ItemInodeMetaMod" := ItemInodeMetaMod];
    assert "ItemRenamed" !in m;
    m := m["ItemRenamed" := ItemRenamed];
    assert "ItemModified" !in m;
    m := m["ItemModified" := ItemModified];
    assert "ItemFinderInfoMod" !in m;
    m := m["ItemFinderInfoMod" := ItemFinderInfoMod];
    assert "ItemChangeOwner" !in m;
    m := m["ItemChangeOwner" := ItemChangeOwner];
    assert "ItemXattrMod" !in m;
    m := m["ItemXattrMod" := ItemXattrMod];
    assert "ItemIsFile" !in m;
    m := m["ItemIsFile" := ItemIsFile];
    assert "ItemIsDir" !in m;
    m := m["ItemIsDir" := ItemIsDir];
    assert "ItemIsSymlink" !in m;
    m := m["ItemIsSymlink" := ItemIsSymlink];
    assert m == FlagMappings;
  }

  /** The names in a table whose flag shares a bit with `flags`. */
  function Selected(table: map<string, EventFlags>, flags: EventFlags): set<string>
  {
    set k | k in table && CheckBitFlag(table[k], flags)
  }

  predicate Distinct(names: seq<string>)
  {
    forall i, j :: 0 <= i < j < |names| ==> names[i] != names[j]
  }

  /** The empty flag word selects no name. */
  lemma SelectedZero(table: map<string, EventFlags>)
    ensures Selected(table, 0) == {}
  {
    forall k | k in table
      ensures !CheckBitFlag(table[k], 0)
    {
      CheckBitFlagProperties(table[k], 0);
    }
  }

  /** Only names of the table are selected, so at most 19 from `flagMappings`. */
  lemma SelectedBound(flags: EventFlags)
    ensures |Selected(FlagMappings, flags)| <= 19
  {
    MappingCount();
    SubsetCard(Selected(FlagMappings, flags), FlagMappings.Keys);
  }

  lemma SubsetCard(a: set<string>, b: set<string>)
    requires a <= b
    ensures |a| <= |b|
  {
    assert b == a + (b - a);
  }

  /** More bits select more names: if the bits of f are among those of g, f selects no name g does not. */
  lemma SelectedMonotone(table: map<string, EventFlags>, f: EventFlags, g: EventFlags)
    requires f & g == f
    ensures Selected(table, f) <= Selected(table, g)
  {
    forall k | k in table && CheckBitFlag(table[k], f)
      ensures CheckBitFlag(table[k], g)
    {
      SharedBitWidens(table[k], f, g);
    }
  }

  lemma SharedBitWidens(v: EventFlags, f: EventFlags, g: EventFlags)
    requires f & g == f
    ensures CheckBitFlag(v, f) ==> CheckBitFlag(v, g)
  {
    assert v & f == (v & f) & g;
  }

  /**
   * `flagsToStrings`: the loop over the table in the order the map gives its
   * keys; every name whose flag shares a bit with `flags` once.
   */
  method FlagsToStrings(flags: EventFlags) returns (names: seq<string>)
    ensures Distinct(names)
    ensures forall k :: k in names <==> k in Selected(FlagMappings, flags)
    ensures flags == 0 ==> names == []
    ensures |names| <= 19
  {
    MappingCount();
    SelectedZero(FlagMappings);
    names := NamesSharingBits(FlagMappings, flags);
  }

  /** The loop of `flagsToStrings` over any table. */
  method NamesSharingBits(table: map<string, EventFlags>, flags: EventFlags) returns (names: seq<string>)
    ensures Distinct(names)
    ensures forall k :: k in names <==> k in Selected(table, flags)
    ensures Selected(table, flags) == {} ==> names == []
    ensures |names| <= |table.Keys|
  {
    names := [];
    var rest := table.Keys;
    while rest != {}
      invariant rest <= table.Keys
      invariant Distinct(names)
      invariant forall k :: k in names <==> k in Selected(table, flags) && k !in rest
      invariant Selected(table, flags) == {} ==> names == []
      invariant |names| + |rest| <= |table.Keys|
      decreases |rest|
    {
      var k :| k in rest;
      if CheckBitFlag(table[k], flags) {
        names := names + [k];
      }
      rest := rest - {k};
    }
  }

  const FormatOpen: string := "fsevents.EventFlags{"
  const Separator: string := ", "

  /** `strings.Join(names, sep)`. */
  function JoinWith(names: seq<string>, sep: string): string
  {
    if |names| == 0 then ""
    else if |names| == 1 then names[0]
    else names[0] + sep + JoinWith(names[1..], sep)
  }

  function TotalLength(names: seq<string>): nat
  {
    if |names| == 0 then 0 else |names[0]| + TotalLength(names[1..])
  }

  /** A join holds every name and one separator between each two. */
  lemma {:induction false} JoinWithLength(names: seq<string>, sep: string)
    requires |names| > 0
    ensures |JoinWith(names, sep)| == TotalLength(names) + (|names| - 1) * |sep|
  {
    if |names| > 1 {
      JoinWithLength(names[1..], sep);
    }
  }

  /** The printed form: the names joined by ", " inside "fsevents.EventFlags{" and "}". */
  function Format(names: seq<string>): string
  {
    FormatOpen + JoinWith(names, Separator) + "}"
  }

  /** `flagsToString`: the selected names, formatted; the empty word prints as "fsevents.EventFlags{}". */
  method FlagsToString(flags: EventFlags) returns (s: string)
    ensures exists names :: Distinct(names) && (forall k :: k in names <==> k in Selected(FlagMappings, flags)) && s == Format(names)
    ensures flags == 0 ==> s == "fsevents.EventFlags{}"
  {
    var names := FlagsToStrings(flags);
    if flags == 0 {
      SelectedZero(FlagMappings);
    }
    s := FormatOpen + JoinWith(names, Separator) + "}";
  }
}
