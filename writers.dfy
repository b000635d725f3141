/**
 * The destination of the stores' text dumps (an `io.Writer`: an open file or
 * a stream), modelled as a byte sink with an optional capacity. A write that
 * fits is stored whole; a write that does not fit stores the bytes that
 * still fit and reports a short write, as a full disk does.
 */
module Writers {
  import opened Bytes
  import opened Wrappers

  datatype IoError = ShortWrite

  class Writer {
    var data: Bytes
    const capacity: Option<nat>

    ghost predicate Valid()
      reads this
    {
      capacity.Some? ==> |data| <= capacity.value
    }

    /** Whether k more bytes can be stored without a short write. */
    predicate Fits(k: nat)
      reads this
    {
      capacity.None? || |data| + k <= capacity.value
    }

    constructor (capacity: Option<nat>)
      ensures Valid() && data == [] && this.capacity == capacity
    {
      data := [];
      this.capacity := capacity;
    }

    /** `Write(p)`: n bytes of p are stored; an error is reported iff p did not fit. */
    method Write(p: Bytes) returns (n: nat, err: Option<IoError>)
      requires Valid()
      modifies this`data
      ensures Valid()
      ensures n <= |p| && data == old(data) + p[..n]
      ensures err == None <==> old(Fits(|p|))
      ensures err == None ==> n == |p|
      ensures err.Some? ==> |data| == capacity.value
    {
      if Fits(|p|) {
        data := data + p;
        return |p|, None;
      }
      n := capacity.value - |data|;
      data := data + p[..n];
      err := Some(ShortWrite);
    }

    /** Opening with O_TRUNC: the file starts out empty. */
    method Truncate()
      modifies this`data
      ensures Valid() && data == []
    {
      data := [];
    }
  }

  /** `fmt.Fprintln(w, line)` for a string argument: the line followed by a newline. */
  method Fprintln(w: Writer, line: Bytes) returns (n: nat, err: Option<IoError>)
    requires w.Valid()
    modifies w`data
    ensures w.Valid()
    ensures n <= |line| + 1 && w.data == old(w.data) + (line + [Newline])[..n]
    ensures err == None <==> old(w.Fits(|line| + 1))
    ensures err == None ==> n == |line| + 1
    ensures err.Some? ==> |w.data| == w.capacity.value
  {
    n, err := w.Write(line + [Newline]);
  }
}
