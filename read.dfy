/**
 * The `read` command's side of a query (cmds/read/read.go): the prefix and
 * the working directory are normalised to end in '/' before they go into the
 * `ListRequest`, the integer flags are narrowed to the request's 32-bit
 * fields, and the directory names that mark the root of a checkout are fixed.
 *
 * The flag values and the working directory are parameters; connecting,
 * discovering the root and printing the stream are not part of this model.
 */
module ReadCommand {
  import opened Bytes
  import Proto

  /**
   * `cleanPrefix`: the empty prefix stays empty; any other prefix gets a
   * trailing '/' unless it already has one.
   */
  function CleanPrefix(prefix: Bytes): (r: Bytes)
    ensures |prefix| == 0 ==> r == []
    ensures |prefix| > 0 ==> |r| > 0 && r[|r| - 1] == Slash
    ensures prefix <= r && |r| <= |prefix| + 1
  {
    if |prefix| == 0 then []
    else if prefix[|prefix| - 1] != Slash then prefix + [Slash]
    else prefix
  }

  /**
   * The two ways a non-empty prefix comes out: unchanged exactly when it
   * already ends in '/', and otherwise with one '/' appended.
   */
  lemma CleanPrefixCases(prefix: Bytes)
    requires |prefix| > 0
    ensures CleanPrefix(prefix) == prefix <==> prefix[|prefix| - 1] == Slash
    ensures prefix[|prefix| - 1] != Slash ==> CleanPrefix(prefix) == prefix + [Slash]
  {
  }

  /** Cleaning a cleaned prefix changes nothing. */
  lemma CleanPrefixIdempotent(prefix: Bytes)
    ensures CleanPrefix(CleanPrefix(prefix)) == CleanPrefix(prefix)
  {
  }

  /** The only prefix that cleans to the empty one is the empty one. */
  lemma CleanPrefixEmpty(prefix: Bytes)
    ensures CleanPrefix(prefix) == [] <==> prefix == []
  {
  }

  /** Go's conversion `int32(x)`: the value congruent to x modulo 2^32 in the int32 range. */
  function ToInt32(x: int): (r: Proto.Int32)
    ensures (r - x) % 0x1_0000_0000 == 0
    ensures -0x8000_0000 <= x < 0x8000_0000 ==> r == x
  {
    (x + 0x8000_0000) % 0x1_0000_0000 - 0x8000_0000
  }

  /**
   * The request `Execute` sends: the cleaned prefix, the limit and the batch
   * size narrowed to int32, the directories-only flag, and the cleaned
   * working directory. FilesOnly is never set by this command.
   */
  function ListRequestOf(prefix: Bytes, limit: int, batchSize: int, dirsOnly: bool, cwd: Bytes): (req: Proto.ListRequest)
    ensures prefix <= req.prefix && |req.prefix| <= |prefix| + 1
    ensures |prefix| > 0 ==> req.prefix[|req.prefix| - 1] == Slash
    ensures cwd <= req.currentDir && |req.currentDir| <= |cwd| + 1
    ensures |cwd| > 0 ==> req.currentDir[|req.currentDir| - 1] == Slash
    ensures (req.limit - limit) % 0x1_0000_0000 == 0 && (req.batchSize - batchSize) % 0x1_0000_0000 == 0
    ensures req.dirsOnly == dirsOnly && !req.filesOnly
  {
    Proto.ListRequest(
      prefix := CleanPrefix(prefix),
      limit := ToInt32(limit),
      dirsOnly := dirsOnly,
      batchSize := ToInt32(batchSize),
      currentDir := CleanPrefix(cwd),
      filesOnly := false)
  }

  /**
   * What the server receives: a prefix and a current directory that each end
   * in '/' unless empty, that extend what the user gave by at most that '/',
   * and that a second cleaning leaves alone; in-range numbers arrive as given.
   */
  lemma ListRequestNormalised(prefix: Bytes, limit: int, batchSize: int, dirsOnly: bool, cwd: Bytes)
    ensures var req := ListRequestOf(prefix, limit, batchSize, dirsOnly, cwd);
      (|req.prefix| > 0 ==> req.prefix[|req.prefix| - 1] == Slash) &&
      (|req.currentDir| > 0 ==> req.currentDir[|req.currentDir| - 1] == Slash) &&
      prefix <= req.prefix && cwd <= req.currentDir &&
      (req.prefix == [] <==> prefix == []) &&
      CleanPrefix(req.prefix) == req.prefix && CleanPrefix(req.currentDir) == req.currentDir &&
      req.dirsOnly == dirsOnly && !req.filesOnly &&
      (-0x8000_0000 <= limit < 0x8000_0000 ==> req.limit == limit) &&
      (-0x8000_0000 <= batchSize < 0x8000_0000 ==> req.batchSize == batchSize)
  {
    CleanPrefixIdempotent(prefix);
    CleanPrefixIdempotent(cwd);
    CleanPrefixEmpty(prefix);
  }

  const Dot: Byte := 46

  /** ".git", ".svn" and ".hg" as bytes. */
  const Git: Bytes := [Dot, 103, 105, 116]
  const Svn: Bytes := [Dot, 115, 118, 110]
  const Hg: Bytes := [Dot, 104, 103]

  /** `roots`: the directory entries that mark the top of a checkout, each mapped to true. */
  const Roots: map<Bytes, bool> := map[Git := true, Svn := true, Hg := true]

  /** Whether an entry name is a root marker (the `ok` of a lookup in `roots`). */
  predicate IsRoot(name: Bytes)
  {
    name in Roots
  }

  /**
   * The markers are exactly the three names, all mapped to true, and each
   * starts with '.': the only names the root search looks up before it stops
   * at the first entry that does not start with '.'.
   */
  lemma RootsExactly(name: Bytes)
    ensures IsRoot(name) <==> name == Git || name == Svn || name == Hg
    ensures |Roots.Keys| == 3
    ensures forall k :: k in Roots ==> Roots[k]
    ensures IsRoot(name) ==> |name| > 0 && name[0] == Dot
  {
    assert Git != Svn && Git != Hg && Svn != Hg by {
      assert Git[1] != Svn[1] && Git[1] != Hg[1] && |Svn| != |Hg|;
    }
    assert Roots.Keys == {Git, Svn, Hg};
  }

  /** "-x" as bytes: a name whose first byte, '-', sorts below '.'. */
  const DashX: Bytes := [45, 120]

  /**
   * Directory entries come sorted by bytes, so a name that starts with a byte
   * below '.' (a space, '#', '+', '-') comes before every marker, and the
   * search stops at it before it reaches `.git`.
   */
  lemma EarlyNameSortsFirst()
    ensures DashX[0] != Dot && !IsRoot(DashX)
    ensures LexLess(DashX, Git) && LexLess(DashX, Svn) && LexLess(DashX, Hg)
  {
    RootsExactly(DashX);
  }
}
