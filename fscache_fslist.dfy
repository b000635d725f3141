/**
 * The daemon's own in-memory name set (`FSList`, fscache/fslist.go): the
 * same set-plus-pending-flag design as the fslist package's `List`, except
 * that `Add`/`Delete` return nothing and `Write` prints to a caller's writer
 * and reports how many bytes it wrote.
 */
module FsCacheFsList {
  import opened Bytes
  import opened Wrappers
  import opened NameLists
  import opened Writers
  import opened Seqs

  class FSList {
    var list: set<Bytes>
    /** 1 while changes have not been written out yet, else 0. */
    var pending: int

    ghost predicate Valid()
      reads this
    {
      pending == 0 || pending == 1
    }

    /** `NewFSList()`: an empty set with nothing pending. */
    constructor ()
      ensures Valid() && list == {} && pending == 0
    {
      list := {};
      pending := 0;
    }

    method Pending() returns (p: bool)
      ensures p <==> pending == 1
    {
      return pending == 1;
    }

    /** Inserts `name` and marks the set pending. */
    method Add(name: Bytes)
      modifies this`list, this`pending
      ensures Valid() && pending == 1
      ensures list == old(list) + {name}
      ensures |list| == |old(list)| + (if name in old(list) then 0 else 1)
    {
      ghost var before := list;
      pending := 1;
      list := list + {name};
      if name in before {
        assert list == before;
      } else {
        assert |list| == |before| + 1;
      }
    }

    /** Removes `name` if present and marks the set pending either way. */
    method Delete(name: Bytes)
      modifies this`list, this`pending
      ensures Valid() && pending == 1
      ensures list == old(list) - {name}
    {
      pending := 1;
      list := list - {name};
    }

    method Len() returns (n: int)
      ensures n == |list|
    {
      return |list|;
    }

    /**
     * Clears pending, then prints the names, sorted, one per line, to `w`,
     * summing the byte counts the writes report. The first failing write
     * ends the dump; its partial count is included in the sum.
     */
    method Write(w: Writer) returns (n: int, err: Option<IoError>)
      requires Valid() && w.Valid()
      modifies this`pending, w`data
      ensures Valid() && w.Valid() && pending == 0
      ensures var out := Render(SortedNames(list));
        old(w.Fits(|out|)) ==> err == None && n == |out| && w.data == old(w.data) + out
      ensures var out := Render(SortedNames(list));
        !old(w.Fits(|out|)) ==>
          err == Some(ShortWrite) && n == w.capacity.value - |old(w.data)| && 0 <= n < |out| &&
          w.data == old(w.data) + out[..n]
    {
      pending := 0;
      var l := CollectKeys(list);
      SortedKeys(l, list);
      l := SortStrings(l);
      n, err := PrintLines(w, l);
    }
  }

  /**
   * The printing loop of `Write`: one `Fprintln` per line, summing the
   * reported counts, stopping at the first error.
   */
  method PrintLines(w: Writer, lines: seq<Bytes>) returns (sum: int, err: Option<IoError>)
    requires w.Valid()
    modifies w`data
    ensures w.Valid()
    ensures var out := Render(lines);
      old(w.Fits(|out|)) ==> err == None && sum == |out| && w.data == old(w.data) + out
    ensures var out := Render(lines);
      !old(w.Fits(|out|)) ==>
        err == Some(ShortWrite) && sum == w.capacity.value - |old(w.data)| && 0 <= sum < |out| &&
        w.data == old(w.data) + out[..sum]
  {
    ghost var start := w.data;
    sum := 0;
    for i := 0 to |lines|
      invariant w.Valid() && w.data == start + Render(lines[..i]) && sum == |Render(lines[..i])|
    {
      RenderPrefix(lines, i);
      var c, e := Fprintln(w, lines[i]);
      sum := sum + c;
      if e.Some? {
        WrittenPrefix(lines, i, c);
        AppendAssoc(start, Render(lines[..i]), (lines[i] + [Newline])[..c]);
        assert e.value == ShortWrite;
        return sum, e;
      }
      assert (lines[i] + [Newline])[..c] == lines[i] + [Newline];
      AppendAssoc(Render(lines[..i]), lines[i], [Newline]);
      AppendAssoc(start, Render(lines[..i]), lines[i] + [Newline]);
    }
    assert lines[..|lines|] == lines;
    return sum, None;
  }

}
