/**
 * What the two in-memory stores (fslist/list.go, fscache/fslist.go) do with
 * their set of names when they dump it: collect the map's keys in whatever
 * order the map yields them, sort them with `sort.Strings`, and print them
 * one per line.
 */
module NameLists {
  import opened Bytes

  /** Non-decreasing in byte-wise order, between any two positions. */
  predicate Ascending(s: seq<Bytes>)
  {
    forall i, j :: 0 <= i < j < |s| ==> LexLessEq(s[i], s[j])
  }

  /** Strictly increasing, hence also free of repetitions. */
  predicate StrictlyAscending(s: seq<Bytes>)
  {
    forall i, j :: 0 <= i < j < |s| ==> LexLess(s[i], s[j])
  }

  predicate Distinct(s: seq<Bytes>)
  {
    forall i, j :: 0 <= i < j < |s| ==> s[i] != s[j]
  }

  /** x placed into an ascending sequence before the first element not below it. */
  function Insert(x: Bytes, s: seq<Bytes>): (r: seq<Bytes>)
    requires Ascending(s)
    ensures Ascending(r)
    ensures multiset(r) == multiset(s) + multiset{x}
  {
    if |s| == 0 then [x]
    else if LexLessEq(x, s[0]) then
      assert Ascending([x] + s) by {
        forall j | 1 <= j < |s| ensures LexLessEq(x, s[j]) {
          LexLessEqTransitive(x, s[0], s[j]);
        }
      }
      [x] + s
    else
      var t := Insert(x, s[1..]);
      assert s == [s[0]] + s[1..];
      assert Ascending([s[0]] + t) by {
        NotLessIsGreaterEq(s[0], x);
        forall j | 0 <= j < |t| ensures LexLessEq(s[0], t[j]) {
          assert t[j] in multiset(t);
          if t[j] != x {
            assert t[j] in s[1..];
          }
        }
      }
      [s[0]] + t
  }

  /** `sort.Strings`: an insertion sort in byte-wise order. */
  function SortStrings(s: seq<Bytes>): (r: seq<Bytes>)
    ensures Ascending(r)
    ensures multiset(r) == multiset(s)
  {
    if |s| == 0 then []
    else
      assert s == [s[0]] + s[1..];
      Insert(s[0], SortStrings(s[1..]))
  }

  /** A sequence has no repetitions iff no element occurs in it twice. */
  lemma {:induction false} DistinctIffSingleCounts(s: seq<Bytes>)
    ensures Distinct(s) <==> forall x :: multiset(s)[x] <= 1
  {
    if |s| > 0 {
      var t := s[1..];
      assert s == [s[0]] + t;
      DistinctIffSingleCounts(t);
      if Distinct(s) {
        assert s[0] !in t;
        assert Distinct(t) by {
          forall i, j | 0 <= i < j < |t| ensures t[i] != t[j] {
            assert t[i] == s[i + 1] && t[j] == s[j + 1];
          }
        }
      } else {
        var i, j :| 0 <= i < j < |s| && s[i] == s[j];
        if i == 0 {
          assert s[0] in t by {
            assert s[j] == t[j - 1];
          }
          assert multiset(s)[s[0]] >= 2;
        } else {
          assert !Distinct(t) by {
            assert t[i - 1] == s[i] && t[j - 1] == s[j];
          }
          var x :| multiset(t)[x] > 1;
          assert multiset(s)[x] > 1;
        }
      }
    }
  }

  /** Sorting a sequence without repetitions gives a strictly ascending sequence of the same names. */
  lemma SortStringsOfDistinct(s: seq<Bytes>)
    requires Distinct(s)
    ensures StrictlyAscending(SortStrings(s))
    ensures forall x :: x in SortStrings(s) <==> x in s
  {
    var r := SortStrings(s);
    DistinctIffSingleCounts(s);
    DistinctIffSingleCounts(r);
    forall x ensures x in r <==> x in s {
      assert x in r <==> x in multiset(r);
      assert x in s <==> x in multiset(s);
    }
  }

  /** Two strictly ascending sequences with the same elements are the same sequence. */
  lemma {:induction false} StrictlyAscendingUnique(a: seq<Bytes>, b: seq<Bytes>)
    requires StrictlyAscending(a) && StrictlyAscending(b)
    requires forall x :: x in a <==> x in b
    ensures a == b
  {
    assert |b| > 0 ==> b[0] in b;
    if |a| > 0 {
      assert a[0] in b;
      assert |b| > 0;
      if a[0] != b[0] {
        var j :| 0 <= j < |b| && b[j] == a[0];
        assert b[0] in a;
        var i :| 0 <= i < |a| && a[i] == b[0];
        assert j > 0 && i > 0;
        assert LexLess(b[0], a[0]) && LexLess(a[0], b[0]);
        LexLessAsymmetric(a[0], b[0]);
      }
      forall x ensures x in a[1..] <==> x in b[1..] {
        if x in a[1..] {
          var k :| 0 <= k < |a[1..]| && a[1..][k] == x;
          assert LexLess(a[0], x);
          LexLessIrreflexive(x);
          assert x in b && x != b[0];
        }
        if x in b[1..] {
          var k :| 0 <= k < |b[1..]| && b[1..][k] == x;
          assert LexLess(b[0], x);
          LexLessIrreflexive(x);
          assert x in a && x != a[0];
        }
      }
      StrictlyAscendingUnique(a[1..], b[1..]);
      assert a == [a[0]] + a[1..] && b == [b[0]] + b[1..];
    }
  }

  /** Every finite set of names has an ascending listing. */
  lemma {:induction false} NamesCanBeListed(names: set<Bytes>)
    ensures exists s :: StrictlyAscending(s) && forall x :: x in s <==> x in names
    decreases |names|
  {
    if names == {} {
      assert StrictlyAscending([]) && forall x :: x in [] <==> x in names;
    } else {
      var n :| n in names;
      NamesCanBeListed(names - {n});
      var s :| StrictlyAscending(s) && forall x :: x in s <==> x in names - {n};
      var r := ListWithOneMore(n, s, names);
    }
  }

  /** A listing of every name but n, with n put in its place, lists every name. */
  lemma ListWithOneMore(n: Bytes, s: seq<Bytes>, names: set<Bytes>) returns (r: seq<Bytes>)
    requires n in names && StrictlyAscending(s)
    requires forall x :: x in s <==> x in names - {n}
    ensures StrictlyAscending(r) && forall x :: x in r <==> x in names
  {
    var t := [n] + s;
    assert Distinct(t) by {
      forall i, j | 0 <= i < j < |t| ensures t[i] != t[j] {
        if i == 0 {
          assert t[j] in s;
        } else {
          LexLessIrreflexive(t[i]);
        }
      }
    }
    SortStringsOfDistinct(t);
    r := SortStrings(t);
  }

  /** The names in ascending byte-wise order, each exactly once. */
  ghost function SortedNames(names: set<Bytes>): (s: seq<Bytes>)
    ensures StrictlyAscending(s)
    ensures forall x :: x in s <==> x in names
  {
    NamesCanBeListed(names);
    var s :| StrictlyAscending(s) && forall x :: x in s <==> x in names;
    s
  }

  /** The listing has one line per name. */
  lemma {:induction false} SortedNamesLength(names: set<Bytes>)
    ensures |SortedNames(names)| == |names|
  {
    DistinctCardinality(SortedNames(names), names);
  }

  lemma {:induction false} DistinctCardinality(s: seq<Bytes>, names: set<Bytes>)
    requires StrictlyAscending(s)
    requires forall x :: x in s <==> x in names
    ensures |s| == |names|
    decreases |s|
  {
    if |s| > 0 {
      var t := s[1..];
      assert s[0] !in t by {
        if s[0] in t {
          var k :| 0 <= k < |t| && t[k] == s[0];
          assert LexLess(s[0], s[k + 1]);
          LexLessIrreflexive(s[0]);
        }
      }
      assert StrictlyAscending(t) by {
        forall i, j | 0 <= i < j < |t| ensures LexLess(t[i], t[j]) {
          assert t[i] == s[i + 1] && t[j] == s[j + 1];
        }
      }
      assert forall x :: x in t <==> x in names - {s[0]};
      DistinctCardinality(t, names - {s[0]});
    } else {
      assert forall x :: x !in names;
    }
  }

  /**
   * The map-key collection loop: every name once, in an order the map
   * chooses.
   */
  method CollectKeys(names: set<Bytes>) returns (l: seq<Bytes>)
    ensures Distinct(l)
    ensures forall x :: x in l <==> x in names
  {
    l := [];
    var rest := names;
    while rest != {}
      invariant rest <= names
      invariant Distinct(l)
      invariant forall x :: x in l <==> x in names && x !in rest
      decreases |rest|
    {
      var k :| k in rest;
      l := l + [k];
      rest := rest - {k};
    }
  }

  /**
   * Sorting the collected keys gives the same listing whatever order the
   * map yielded them in.
   */
  lemma SortedKeys(l: seq<Bytes>, names: set<Bytes>)
    requires Distinct(l)
    requires forall x :: x in l <==> x in names
    ensures SortStrings(l) == SortedNames(names)
  {
    SortStringsOfDistinct(l);
    StrictlyAscendingUnique(SortStrings(l), SortedNames(names));
  }

  /**
   * The text the names print as, one `Fprintln` each: every name followed
   * by a newline.
   */
  function Render(lines: seq<Bytes>): (out: Bytes)
  {
    if |lines| == 0 then []
    else Render(lines[..|lines| - 1]) + lines[|lines| - 1] + [Newline]
  }

  /** Rendering one more line appends it. */
  lemma RenderSnoc(lines: seq<Bytes>, line: Bytes)
    ensures Render(lines + [line]) == Render(lines) + line + [Newline]
  {
    assert (lines + [line])[..|lines|] == lines;
  }

  /** Rendering a first line in front prepends it. */
  lemma {:induction false} RenderCons(line: Bytes, lines: seq<Bytes>)
    ensures Render([line] + lines) == line + [Newline] + Render(lines)
    decreases |lines|
  {
    if |lines| == 0 {
      assert [line] + lines == [] + [line];
      RenderSnoc([], line);
    } else {
      var init, last := lines[..|lines| - 1], lines[|lines| - 1];
      assert lines == init + [last];
      assert [line] + lines == ([line] + init) + [last];
      RenderSnoc([line] + init, last);
      RenderCons(line, init);
      RenderSnoc(init, last);
    }
  }

  /** The rendered text is a prefix-closed record of the lines written so far. */
  lemma RenderPrefix(lines: seq<Bytes>, i: nat)
    requires i < |lines|
    ensures Render(lines[..i + 1]) == Render(lines[..i]) + lines[i] + [Newline]
    ensures |Render(lines[..i + 1])| <= |Render(lines)|
    ensures Render(lines[..i + 1]) == Render(lines)[..|Render(lines[..i + 1])|]
  {
    assert lines[..i + 1][..i] == lines[..i];
    RenderIsPrefix(lines, i + 1);
  }

  lemma {:induction false} RenderIsPrefix(lines: seq<Bytes>, i: nat)
    requires i <= |lines|
    ensures |Render(lines[..i])| <= |Render(lines)|
    ensures Render(lines[..i]) == Render(lines)[..|Render(lines[..i])|]
    decreases |lines| - i
  {
    if i < |lines| {
      RenderIsPrefix(lines, i + 1);
      assert lines[..i + 1][..i] == lines[..i];
    } else {
      assert lines[..i] == lines;
    }
  }

  /**
   * The lines before position i written whole, then the first n bytes of
   * line i, are the first bytes of the whole text.
   */
  lemma WrittenPrefix(lines: seq<Bytes>, i: nat, n: nat)
    requires i < |lines| && n <= |lines[i]| + 1
    ensures |Render(lines[..i])| + |lines[i]| + 1 <= |Render(lines)|
    ensures Render(lines[..i]) + (lines[i] + [Newline])[..n] == Render(lines)[..|Render(lines[..i])| + n]
  {
    RenderPrefix(lines, i);
    var a, b := Render(lines[..i]), lines[i] + [Newline];
    var out := Render(lines);
    assert a + b == out[..|a + b|];
    assert (a + b)[..|a| + n] == a + b[..n];
  }

  /** Bytes a line occupies once printed. */
  function LineLengths(lines: seq<Bytes>): nat
  {
    if |lines| == 0 then 0 else |lines[0]| + 1 + LineLengths(lines[1..])
  }

  /** The dump is as long as the names plus one newline each. */
  lemma {:induction false} RenderLength(lines: seq<Bytes>)
    ensures |Render(lines)| == LineLengths(lines)
  {
    if |lines| > 0 {
      assert lines == [lines[0]] + lines[1..];
      RenderCons(lines[0], lines[1..]);
      RenderLength(lines[1..]);
    }
  }

  /** Reading text back line by line; a last line without a newline still counts. */
  function Lines(b: Bytes): seq<Bytes>
    decreases |b|
  {
    if |b| == 0 then []
    else
      var k := IndexOf(b, Newline);
      if k == |b| then [b] else [b[..k]] + Lines(b[k + 1..])
  }

  predicate NoNewlines(lines: seq<Bytes>)
  {
    forall i :: 0 <= i < |lines| ==> Newline !in lines[i]
  }

  /** Reading the dump back line by line gives the names that were printed. */
  lemma {:induction false} LinesOfRender(lines: seq<Bytes>)
    requires NoNewlines(lines)
    ensures Lines(Render(lines)) == lines
  {
    if |lines| > 0 {
      var head, tail := lines[0], lines[1..];
      assert lines == [head] + tail;
      RenderCons(head, tail);
      var b := Render(lines);
      assert b == head + ([Newline] + Render(tail));
      var k := IndexOf(b, Newline);
      assert b[|head|] == Newline;
      assert Newline !in head;
      assert forall i :: 0 <= i < |head| ==> b[i] == head[i];
      assert k == |head|;
      assert b[..k] == head;
      assert b[k + 1..] == Render(tail);
      LinesOfRender(tail);
    }
  }
}
