/**
 * `GlobalIgnore` (ignorer/global.go, and its copy in fscache/ignore.go): a
 * gitignore matcher built from a fixed pattern list, asked about every
 * ancestor of a path. Reading the environment, `go env` and the home
 * directory into the list is not part of this model, and neither is the
 * gitignore library: the matcher is a parameter, and the examples use the
 * bare-name patterns of the lists (`.git/`, `.Trash`, ...), each compared
 * with the last segment of the path asked about.
 */
module Ignorer {
  import opened Bytes
  import opened IgnoreWalk

  datatype GlobalIgnore = GlobalIgnore(matcher: IgnoreMatcher)
  {
    /** `Match(path, dir)`: whether the path or one of its ancestors is ignored. */
    method Match(path: Bytes, dir: bool) returns (r: bool)
      ensures r <==> Ignored(matcher, path, dir)
    {
      var asked;
      r, asked := Walk(matcher, path, dir);
    }
  }

  /**
   * A path below an ignored directory is ignored, whatever its own kind:
   * the directory is one of the ancestors the walk asks about.
   */
  lemma IgnoredDirHidesDescendants(m: IgnoreMatcher, segs: seq<Bytes>, i: nat, dir: bool)
    requires 1 <= i < |segs|
    requires forall j :: 0 <= j < |segs| ==> Slash !in segs[j]
    requires m(Join(segs[..i]), true)
    ensures Ignored(m, Join(segs), dir)
  {
    SplitJoin(segs);
    assert Queries(Join(segs), dir)[i] == Query(Join(segs[..i]), true);
  }

  /** The last segment of a path: the name a slash-free gitignore pattern is compared with. */
  function BaseName(p: Bytes): (name: Bytes)
    ensures Slash !in name
  {
    var segs := Split(p);
    segs[|segs| - 1]
  }

  /** Whether a bare-name pattern list ignores the path p of the given kind. */
  predicate NameIgnored(dirNames: set<Bytes>, anyNames: set<Bytes>, p: Bytes, dir: bool)
  {
    (dir && BaseName(p) in dirNames) || BaseName(p) in anyNames
  }

  /**
   * A matcher for a pattern list of bare names: `dirNames` holds the names
   * written with a trailing `/` (directories only), `anyNames` the names
   * matched whatever the kind; a name matches at any depth.
   */
  function NameMatcher(dirNames: set<Bytes>, anyNames: set<Bytes>): IgnoreMatcher
  {
    (p: Bytes, dir: bool) => NameIgnored(dirNames, anyNames, p, dir)
  }

  /** The ancestor asked about at step i >= 1 ends in segment i - 1. */
  lemma BaseNameOfAncestor(segs: seq<Bytes>, i: nat)
    requires 1 <= i <= |segs|
    requires forall j :: 0 <= j < |segs| ==> Slash !in segs[j]
    ensures BaseName(Join(segs[..i])) == segs[i - 1]
  {
    var pre := segs[..i];
    assert forall j :: 0 <= j < |pre| ==> pre[j] == segs[j];
    SplitJoin(pre);
  }

  /**
   * What the pattern list says about step i of the walk over a path: nothing
   * at step 0 (the empty string), and at a later step whether segment i - 1
   * has an ignored name.
   */
  lemma StepVerdict(dirNames: set<Bytes>, anyNames: set<Bytes>, path: Bytes, dir: bool, i: nat)
    requires i < |Split(path)|
    requires [] !in dirNames && [] !in anyNames
    ensures var q := Queries(path, dir)[i];
      NameIgnored(dirNames, anyNames, q.path, q.dir) <==>
      i >= 1 && (Split(path)[i - 1] in dirNames || Split(path)[i - 1] in anyNames)
  {
    var segs := Split(path);
    var q := Queries(path, dir)[i];
    assert q.path == Join(segs[..i]);
    if i == 0 {
      assert segs[..0] == [] && Split([]) == [[]];
    } else {
      BaseNameOfAncestor(segs, i);
    }
  }

  /**
   * Under a list of bare names, a path is ignored exactly when one of its
   * proper ancestors (every segment but the last) carries an ignored name;
   * the last segment is never looked at, and every ancestor counts as a
   * directory.
   */
  lemma IgnoredIffAncestorName(dirNames: set<Bytes>, anyNames: set<Bytes>, path: Bytes, dir: bool)
    requires [] !in dirNames && [] !in anyNames
    ensures var segs := Split(path);
      Ignored(NameMatcher(dirNames, anyNames), path, dir) <==>
      exists j :: 0 <= j < |segs| - 1 && (segs[j] in dirNames || segs[j] in anyNames)
  {
    var segs := Split(path);
    if Ignored(NameMatcher(dirNames, anyNames), path, dir) {
      var qs := Queries(path, dir);
      var i :| 0 <= i < |qs| && NameMatcher(dirNames, anyNames)(qs[i].path, qs[i].dir);
      StepVerdict(dirNames, anyNames, path, dir, i);
      assert segs[i - 1] in dirNames || segs[i - 1] in anyNames;
    }
    if exists j :: 0 <= j < |segs| - 1 && (segs[j] in dirNames || segs[j] in anyNames) {
      var j :| 0 <= j < |segs| - 1 && (segs[j] in dirNames || segs[j] in anyNames);
      StepVerdict(dirNames, anyNames, path, dir, j + 1);
    }
  }

  const Foo: Bytes := [102, 111, 111]
  const Bar: Bytes := [98, 97, 114]
  const Baz: Bytes := [98, 97, 122]
  const Library: Bytes := [76, 105, 98, 114, 97, 114, 121]
  const Users: Bytes := [85, 115, 101, 114, 115]
  const Alice: Bytes := [65, 108, 105, 99, 101]

  const DotGit: Bytes := [46, 103, 105, 116]
  const DotSvn: Bytes := [46, 115, 118, 110]
  const DotCvs: Bytes := [46, 99, 118, 115]
  const NodeModules: Bytes := [110, 111, 100, 101, 95, 109, 111, 100, 117, 108, 101, 115]
  const AppSupport: Bytes := [65, 112, 112, 108, 105, 99, 97, 116, 105, 111, 110, 32, 83, 117, 112, 112, 111, 114, 116]
  const DotCache: Bytes := [46, 99, 97, 99, 104, 101]
  const DsFile: Bytes := [46, 68, 83, 95, 70, 105, 108, 101]
  const Trash: Bytes := [46, 84, 114, 97, 115, 104]

  /**
   * The directory names of the `GlobalIgnoreList`s (ignorer/global.go and its
   * copy in fscache/ignore.go): `.git/`, `.svn/`, `.cvs/`, `node_modules/`,
   * `Application Support/`, `.cache/`.
   */
  const GlobalDirNames: set<Bytes> := {DotGit, DotSvn, DotCvs, NodeModules, AppSupport, DotCache}

  /** The ignorer package's names that match whatever their kind: `.DS_File` and `.Trash`. */
  const GlobalAnyNames: set<Bytes> := {DsFile, Trash}

  /**
   * The bare names of the daemon's own `watchIgnores` (fscache/cache.go),
   * which its tests match against: the directories `.git/`, `.svn/`,
   * `Application Support/`, `.cache/`, and `.DS_File` of either kind. Its
   * `pkg/mod` and `pkg/sumdb` patterns hold an inner '/' and are not modelled.
   */
  const WatchDirNames: set<Bytes> := {DotGit, DotSvn, AppSupport, DotCache}
  const WatchAnyNames: set<Bytes> := {DsFile}

  /** `/foo/bar/.git/baz`, a file, and `/foo/bar/.git/`, a directory, are ignored under any list with `.git/`. */
  lemma GitDirExamples(dirNames: set<Bytes>, anyNames: set<Bytes>)
    requires DotGit in dirNames && [] !in dirNames && [] !in anyNames
    ensures Ignored(NameMatcher(dirNames, anyNames), Join([[], Foo, Bar, DotGit, Baz]), false)
    ensures Ignored(NameMatcher(dirNames, anyNames), Join([[], Foo, Bar, DotGit, []]), true)
  {
    var file, dir := [[], Foo, Bar, DotGit, Baz], [[], Foo, Bar, DotGit, []];
    SplitJoin(file);
    IgnoredIffAncestorName(dirNames, anyNames, Join(file), false);
    assert file[3] in dirNames;
    SplitJoin(dir);
    IgnoredIffAncestorName(dirNames, anyNames, Join(dir), true);
    assert dir[3] in dirNames;
  }

  /** `/foo/bar/Library/Application Support/foo/bar` is ignored through `Application Support`. */
  lemma AppSupportExample()
    ensures Ignored(NameMatcher(WatchDirNames, WatchAnyNames), Join([[], Foo, Bar, Library, AppSupport, Foo, Bar]), false)
  {
    var segs := [[], Foo, Bar, Library, AppSupport, Foo, Bar];
    SplitJoin(segs);
    IgnoredIffAncestorName(WatchDirNames, WatchAnyNames, Join(segs), false);
    assert segs[4] in WatchDirNames;
  }

  /** The daemon's names are 4, 6, 8 or 19 bytes long. */
  lemma NotAWatchName(x: Bytes)
    requires |x| !in {4, 6, 8, 19}
    ensures x !in WatchDirNames && x !in WatchAnyNames
  {
  }

  /** `/foo/bar/Library/foo/bar` is kept: no ancestor has an ignored name. */
  lemma LibraryKeptExample()
    ensures !Ignored(NameMatcher(WatchDirNames, WatchAnyNames), Join([[], Foo, Bar, Library, Foo, Bar]), false)
  {
    var segs := [[], Foo, Bar, Library, Foo, Bar];
    SplitJoin(segs);
    IgnoredIffAncestorName(WatchDirNames, WatchAnyNames, Join(segs), false);
    forall j | 0 <= j < |segs| - 1
      ensures segs[j] !in WatchDirNames && segs[j] !in WatchAnyNames
    {
      NotAWatchName(segs[j]);
    }
  }

  /** `/Users/Alice/.Trash/Library/foo/bar` is ignored through `.Trash`, which matches whatever its kind. */
  lemma TrashExample()
    ensures Ignored(NameMatcher(GlobalDirNames, GlobalAnyNames), Join([[], Users, Alice, Trash, Library, Foo, Bar]), false)
  {
    var segs := [[], Users, Alice, Trash, Library, Foo, Bar];
    SplitJoin(segs);
    IgnoredIffAncestorName(GlobalDirNames, GlobalAnyNames, Join(segs), false);
    assert segs[3] in GlobalAnyNames;
  }
}
