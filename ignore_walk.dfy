/**
 * The segment-prefix ignore walk shared by `checkSkipPath`
 * (fscache/cache.go) and both copies of `GlobalIgnore.Match`
 * (ignorer/global.go, fscache/ignore.go): the path is split on `/`, and the
 * gitignore matcher is asked about the join of the first i segments, for
 * every i below the number of segments, until it answers yes. The first
 * question carries the caller's directory flag, every later one says
 * "directory". The three functions are the same loop, so it is modelled
 * once.
 */
module IgnoreWalk {
  import opened Bytes

  /** A gitignore matcher: whether a path (a directory or not) is ignored. */
  type IgnoreMatcher = (Bytes, bool) -> bool

  /** One question put to the matcher. */
  datatype Query = Query(path: Bytes, dir: bool)

  /** `strings.Split(s, "/")`: always at least one piece, none holding a `/`. */
  function Split(s: Bytes): (segs: seq<Bytes>)
    ensures |segs| >= 1
    ensures forall i :: 0 <= i < |segs| ==> Slash !in segs[i]
    decreases |s|
  {
    var k := IndexOf(s, Slash);
    if k == |s| then [s] else [s[..k]] + Split(s[k + 1..])
  }

  /** `strings.Join(segs, "/")`. */
  function Join(segs: seq<Bytes>): Bytes
  {
    if |segs| == 0 then []
    else if |segs| == 1 then segs[0]
    else segs[0] + [Slash] + Join(segs[1..])
  }

  /** Joining the pieces of a split gives the string back. */
  lemma {:induction false} JoinSplit(s: Bytes)
    ensures Join(Split(s)) == s
    decreases |s|
  {
    var k := IndexOf(s, Slash);
    if k < |s| {
      SplitAtSlash(s, k);
      JoinSplit(s[k + 1..]);
      JoinCons(s[..k], Split(s[k + 1..]));
      Reassemble(s, k);
    }
  }

  /** A string with a '/' splits into the bytes before its first '/' and the split of the rest. */
  lemma SplitAtSlash(s: Bytes, k: nat)
    requires k == IndexOf(s, Slash) < |s|
    ensures Split(s) == [s[..k]] + Split(s[k + 1..])
  {
  }

  /** The bytes before a '/', the '/', and the bytes after it make the string. */
  lemma Reassemble(s: Bytes, k: nat)
    requires k < |s| && s[k] == Slash
    ensures s[..k] + [Slash] + s[k + 1..] == s
  {
  }

  /** A piece in front of at least one more is joined to them with a '/'. */
  lemma JoinCons(head: Bytes, rest: seq<Bytes>)
    requires |rest| >= 1
    ensures Join([head] + rest) == head + [Slash] + Join(rest)
  {
    assert ([head] + rest)[1..] == rest;
  }

  /** The first c is at k when c is at k and nowhere before it. */
  lemma IndexOfIs(b: Bytes, c: Byte, k: nat)
    requires k <= |b| && (k < |b| ==> b[k] == c)
    requires forall i :: 0 <= i < k ==> b[i] != c
    ensures IndexOf(b, c) == k
  {
  }

  /** Splitting a join of slash-free pieces gives the pieces back. */
  lemma {:induction false} SplitJoin(segs: seq<Bytes>)
    requires |segs| >= 1
    requires forall i :: 0 <= i < |segs| ==> Slash !in segs[i]
    ensures Split(Join(segs)) == segs
  {
    var s := Join(segs);
    var head := segs[0];
    assert forall i :: 0 <= i < |head| ==> head[i] != Slash by {
      assert Slash !in head;
    }
    if |segs| == 1 {
      IndexOfIs(s, Slash, |s|);
    } else {
      var tail := Join(segs[1..]);
      JoinCons(head, segs[1..]);
      assert [head] + segs[1..] == segs;
      assert s == head + [Slash] + tail;
      assert s[..|head|] == head && s[|head|] == Slash && s[|head| + 1..] == tail;
      IndexOfIs(s, Slash, |head|);
      SplitAtSlash(s, |head|);
      SplitJoin(segs[1..]);
    }
  }

  /** The pieces of a split are one more than the slashes. */
  lemma {:induction false} SplitCount(s: Bytes)
    ensures |Split(s)| == CountSlash(s) + 1
    decreases |s|
  {
    var k := IndexOf(s, Slash);
    if k == |s| {
      NoSlashCount(s);
    } else {
      SplitCount(s[k + 1..]);
      NoSlashCount(s[..k]);
      assert s == s[..k] + ([Slash] + s[k + 1..]);
      CountSlashAppend(s[..k], [Slash] + s[k + 1..]);
      assert ([Slash] + s[k + 1..])[1..] == s[k + 1..];
    }
  }

  lemma {:induction false} NoSlashCount(s: Bytes)
    requires forall i :: 0 <= i < |s| ==> s[i] != Slash
    ensures CountSlash(s) == 0
  {
    if |s| > 0 {
      NoSlashCount(s[1..]);
    }
  }

  lemma {:induction false} CountSlashAppend(a: Bytes, b: Bytes)
    ensures CountSlash(a + b) == CountSlash(a) + CountSlash(b)
  {
    if |a| > 0 {
      CountSlashAppend(a[1..], b);
      assert (a + b)[1..] == a[1..] + b;
    } else {
      assert a + b == b;
    }
  }

  /** A join of the first i pieces, a slash, and a join of the rest make the whole join. */
  lemma {:induction false} JoinSplitAt(segs: seq<Bytes>, i: nat)
    requires 1 <= i < |segs|
    ensures Join(segs[..i]) + [Slash] + Join(segs[i..]) == Join(segs)
  {
    if i > 1 {
      JoinSplitAt(segs[1..], i - 1);
      assert segs[1..][..i - 1] == segs[1..i];
      assert segs[1..][i - 1..] == segs[i..];
      assert segs[..i][1..] == segs[1..i];
    }
  }

  /**
   * The questions the walk may put for `path`, in order: the join of the
   * first i segments, for every i below the number of segments.
   */
  function Queries(path: Bytes, dir: bool): (qs: seq<Query>)
    ensures |qs| == |Split(path)|
  {
    var segs := Split(path);
    seq(|segs|, i requires 0 <= i < |segs| => Query(Join(segs[..i]), if i == 0 then dir else true))
  }

  /** Index of the first question the matcher says yes to, or |qs| if none. */
  function FirstMatch(m: IgnoreMatcher, qs: seq<Query>): (k: nat)
    ensures k <= |qs|
    ensures forall j :: 0 <= j < k ==> !m(qs[j].path, qs[j].dir)
    ensures k < |qs| ==> m(qs[k].path, qs[k].dir)
  {
    if |qs| == 0 then 0
    else if m(qs[0].path, qs[0].dir) then 0
    else 1 + FirstMatch(m, qs[1..])
  }

  /** Whether the matcher says yes to some question about `path`. */
  predicate Ignored(m: IgnoreMatcher, path: Bytes, dir: bool)
  {
    var qs := Queries(path, dir);
    exists i :: 0 <= i < |qs| && m(qs[i].path, qs[i].dir)
  }

  /**
   * The walk. Returns whether the path is ignored and the questions put to
   * the matcher, in order: every question up to and including the first
   * one answered yes.
   */
  method Walk(m: IgnoreMatcher, path: Bytes, dir: bool) returns (skip: bool, asked: seq<Query>)
    ensures skip <==> Ignored(m, path, dir)
    ensures var qs := Queries(path, dir);
      var k := FirstMatch(m, qs);
      asked == if k < |qs| then qs[..k + 1] else qs
  {
    ghost var qs := Queries(path, dir);
    var segments := Split(path);
    var d := dir;
    asked := [];
    for i := 0 to |segments|
      invariant asked == qs[..i]
      invariant forall j :: 0 <= j < i ==> !m(qs[j].path, qs[j].dir)
      invariant i <= 1 ==> d == dir
      invariant i >= 2 ==> d
    {
      if i != 0 {
        d := true;
      }
      var p := Join(segments[0..i]);
      asked := asked + [Query(p, d)];
      if m(p, d) {
        assert qs[i] == Query(p, d);
        return true, asked;
      }
    }
    assert qs[..|segments|] == qs;
    return false, asked;
  }

  /**
   * Every question is about an ancestor of the path: the empty string first,
   * then each later one followed by a `/` begins the path. Unless the path is
   * empty, none is the path itself.
   */
  lemma QueriesAreAncestors(path: Bytes, dir: bool, i: nat)
    requires i < |Queries(path, dir)|
    ensures var q := Queries(path, dir)[i];
      q.path <= path && (|path| > 0 ==> |q.path| < |path|) &&
      (i == 0 ==> q.path == [] && q.dir == dir) &&
      (i > 0 ==> q.path + [Slash] <= path && q.dir)
  {
    var segs := Split(path);
    var q := Queries(path, dir)[i];
    JoinSplit(path);
    if i > 0 {
      JoinSplitAt(segs, i);
      assert path == q.path + [Slash] + Join(segs[i..]);
    }
  }

  /** At most one question per `/` in the path, plus one. */
  lemma QueryCount(path: Bytes, dir: bool)
    ensures |Queries(path, dir)| == CountSlash(path) + 1
  {
    SplitCount(path);
  }

  /** The empty path gets exactly one question, about the empty string. */
  lemma EmptyPathQueries(dir: bool)
    ensures Queries([], dir) == [Query([], dir)]
  {
    assert Split([]) == [[]];
  }

  /** An absolute path's first two questions are both about the empty string. */
  lemma AbsolutePathQueries(path: Bytes, dir: bool)
    requires |path| > 0 && path[0] == Slash
    ensures |Queries(path, dir)| >= 2
    ensures Queries(path, dir)[0] == Query([], dir)
    ensures Queries(path, dir)[1] == Query([], true)
  {
    var segs := Split(path);
    assert IndexOf(path, Slash) == 0;
    assert segs[0] == [];
  }
}
