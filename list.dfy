/**
 * The in-memory name set of the fslist package (`List`, fslist/list.go): a
 * map used as a set of names, a pending flag that every change raises and a
 * dump clears, and `Write`, which prints the names in order to its file.
 */
module ListStore {
  import opened Bytes
  import opened Wrappers
  import opened NameLists
  import opened Writers
  import opened Seqs

  datatype ListError = OpenFailed | WriteFailed(cause: IoError)

  class List {
    var list: set<Bytes>
    /** 1 while changes have not been written out yet, else 0. */
    var pending: int
    const filename: Bytes

    ghost predicate Valid()
      reads this
    {
      pending == 0 || pending == 1
    }

    /** `NewList(filename)`: an empty set with nothing pending. */
    constructor (filename: Bytes)
      ensures Valid() && list == {} && pending == 0 && this.filename == filename
    {
      list := {};
      pending := 0;
      this.filename := filename;
    }

    method Pending() returns (p: bool)
      ensures p <==> pending == 1
    {
      return pending == 1;
    }

    /** Inserts `name` and marks the set pending; never fails. */
    method Add(name: Bytes) returns (err: Option<ListError>)
      modifies this`list, this`pending
      ensures Valid() && err == None && pending == 1
      ensures list == old(list) + {name}
      ensures |list| == |old(list)| + (if name in old(list) then 0 else 1)
    {
      ghost var before := list;
      pending := 1;
      list := list + {name};
      if name in before {
        assert list == before;
      } else {
        assert |list| == |before| + 1;
      }
      return None;
    }

    /** Removes `name` if present and marks the set pending either way; never fails. */
    method Delete(name: Bytes) returns (err: Option<ListError>)
      modifies this`list, this`pending
      ensures Valid() && err == None && pending == 1
      ensures list == old(list) - {name}
    {
      pending := 1;
      list := list - {name};
      return None;
    }

    method Len() returns (n: int)
      ensures n == |list|
    {
      return |list|;
    }

    /**
     * Writes the names, sorted, one per line, into the file, which `openOk`
     * says could be opened (and is truncated when it is). A failed open
     * changes nothing; otherwise pending is cleared before the first line,
     * and the first failing line ends the dump with an error.
     */
    method Write(openOk: bool, f: Writer) returns (err: Option<ListError>)
      requires Valid() && f.Valid()
      modifies this`pending, f`data
      ensures Valid() && f.Valid()
      ensures !openOk ==> err == Some(OpenFailed) && pending == old(pending) && f.data == old(f.data)
      ensures openOk ==> pending == 0
      ensures openOk ==>
        var out := Render(SortedNames(list));
        if f.capacity.None? || |out| <= f.capacity.value then err == None && f.data == out
        else err == Some(WriteFailed(ShortWrite)) && f.data == out[..f.capacity.value]
    {
      if !openOk {
        return Some(OpenFailed);
      }
      f.Truncate();
      pending := 0;
      var l := CollectKeys(list);
      SortedKeys(l, list);
      l := SortStrings(l);
      ghost var out := Render(l);
      for i := 0 to |l|
        invariant pending == 0
        invariant f.Valid() && f.data == Render(l[..i])
      {
        RenderPrefix(l, i);
        ghost var before := f.data;
        var n, e := Fprintln(f, l[i]);
        if e.Some? {
          WrittenPrefix(l, i, n);
          assert |out| > f.capacity.value;
          assert f.data == out[..f.capacity.value];
          assert out == Render(SortedNames(list));
          assert e.value == ShortWrite;
          return Some(WriteFailed(e.value));
        }
        assert (l[i] + [Newline])[..n] == l[i] + [Newline];
        AppendAssoc(before, l[i], [Newline]);
      }
      assert l[..|l|] == l;
      return None;
    }
  }
}
