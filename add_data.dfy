/**
 * The unit of record of the store (fslist.AddData): a path, whether it is a
 * directory, and an optional timestamp; its Pebble key, its printed form,
 * its conversions to and from the protocol's File, and the ByPath sort order.
 */
module FsListAddData {
  import opened Bytes
  import opened Wrappers
  import Proto

  /** A timestamp; only ever copied, never inspected. */
  datatype Time = Time(nanos: int)

  datatype AddData = AddData(name: Bytes, updatedAt: Option<Time>, isDir: bool)

  /** AddDataFromProtoFile: the protocol carries no timestamp. */
  function FromProtoFile(f: Proto.File): (a: AddData)
    ensures a.name == f.name && a.isDir == f.dir && a.updatedAt.None?
  {
    AddData(f.name, None, f.dir)
  }

  function ToProtoFile(a: AddData): (f: Proto.File)
    ensures f.name == a.name && f.dir == a.isDir
  {
    Proto.File(a.name, a.isDir)
  }

  /** Through the protocol and back keeps the name and the kind and drops the timestamp. */
  lemma ProtoRoundTrip(a: AddData)
    ensures FromProtoFile(ToProtoFile(a)) == a.(updatedAt := None)
  {
  }

  /** From the protocol and back gives the same File. */
  lemma ProtoFileRoundTrip(f: Proto.File)
    ensures ToProtoFile(FromProtoFile(f)) == f
  {
  }

  /**
   * The key an entry is filed under in the Pebble key space: the name, with a
   * trailing '/' added to a directory name that lacks one.
   */
  function PebbleKey(a: AddData): (key: Bytes)
    ensures |a.name| == 0 ==> key == []
    ensures a.name <= key && |key| <= |a.name| + 1
    ensures !a.isDir ==> key == a.name
    ensures a.isDir && |a.name| > 0 ==> EndsInSlash(key)
    ensures EndsInSlash(a.name) ==> key == a.name
    ensures key != a.name ==> key == a.name + [Slash]
  {
    if |a.name| == 0 then []
    else if a.isDir && a.name[|a.name| - 1] != Slash then a.name + [Slash]
    else a.name
  }

  /** Filing a directory under its own key changes nothing more. */
  lemma {:induction false} PebbleKeyIdempotent(a: AddData)
    ensures PebbleKey(a.(name := PebbleKey(a))) == PebbleKey(a)
  {
    if |a.name| > 0 && a.isDir && a.name[|a.name| - 1] != Slash {
      var k := a.name + [Slash];
      assert k[|k| - 1] == Slash;
    }
  }

  const OpenText: Bytes := Ascii("AddData{")
  const CloseText: Bytes := Ascii("}")

  /** String(): "AddData{" + name + ("/" for a directory) + "}". */
  function String(a: AddData): Bytes
  {
    OpenText + a.name + (if a.isDir then [Slash] else []) + CloseText
  }

  /** The printed form is the name framed by "AddData{" and "}", one '/' longer for a directory. */
  lemma StringParts(a: AddData)
    ensures var s := String(a);
      && |s| == |a.name| + 9 + (if a.isDir then 1 else 0)
      && s[..8] == Ascii("AddData{")
      && s[8..8 + |a.name|] == a.name
      && s[|s| - 1] == '}' as int
      && (a.isDir ==> s[|s| - 2] == Slash)
  {
    var s := String(a);
    assert s[..8] == OpenText;
    assert s[8..8 + |a.name|] == a.name;
  }

  /** The printed form does not tell a directory "a" from a file "a/". */
  lemma StringConfusesKinds()
    ensures String(AddData(Ascii("a/"), None, false)) == String(AddData(Ascii("a"), None, true))
  {
    assert Ascii("a/") == Ascii("a") + [Slash];
  }

  /** ByPath.Len. */
  function Len(s: seq<AddData>): (n: nat)
    ensures n == |s|
  {
    |s|
  }

  /** ByPath.Less: strings.Compare(s[i].Name, s[j].Name) < 0. */
  predicate Less(s: seq<AddData>, i: nat, j: nat)
    requires i < |s| && j < |s|
  {
    LexLess(s[i].name, s[j].name)
  }

  /** Less is a strict order: irreflexive. */
  lemma LessIrreflexive(s: seq<AddData>, i: nat)
    requires i < |s|
    ensures !Less(s, i, i)
  {
    LexLessIrreflexive(s[i].name);
  }

  /** Less is a strict order: transitive. */
  lemma LessTransitive(s: seq<AddData>, i: nat, j: nat, k: nat)
    requires i < |s| && j < |s| && k < |s|
    requires Less(s, i, j) && Less(s, j, k)
    ensures Less(s, i, k)
  {
    LexLessTransitive(s[i].name, s[j].name, s[k].name);
  }

  /** Entries with different names are ordered one way or the other. */
  lemma LessTotal(s: seq<AddData>, i: nat, j: nat)
    requires i < |s| && j < |s| && s[i].name != s[j].name
    ensures Less(s, i, j) != Less(s, j, i)
  {
    LexLessTotal(s[i].name, s[j].name);
    if Less(s, i, j) {
      LexLessAsymmetric(s[i].name, s[j].name);
    }
  }

  /** ByPath.Swap: exchanges the entries at i and j and nothing else. */
  method Swap(s: array<AddData>, i: nat, j: nat)
    requires i < s.Length && j < s.Length
    modifies s
    ensures s[i] == old(s[j]) && s[j] == old(s[i])
    ensures forall k :: 0 <= k < s.Length && k != i && k != j ==> s[k] == old(s[k])
    ensures multiset(s[..]) == multiset(old(s[..]))
  {
    s[i], s[j] := s[j], s[i];
  }
}
