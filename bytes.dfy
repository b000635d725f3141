/**
 * Go strings and []byte values as byte sequences, and the byte-wise
 * lexicographic order that both `bytes.Compare`/`strings.Compare` and the
 * Pebble key space use.
 */
module Bytes {

  type Byte = b: int | 0 <= b < 256
  type Bytes = seq<Byte>

  const Slash: Byte := 47
  const Newline: Byte := 10

  /** A Go string literal written in ASCII, as its bytes. */
  function Ascii(s: string): (r: Bytes)
    requires forall i :: 0 <= i < |s| ==> s[i] as int < 256
    ensures |r| == |s|
  {
    seq(|s|, i requires 0 <= i < |s| => s[i] as int)
  }

  /** `bytes.Compare(a, b) < 0`: strict byte-wise lexicographic order. */
  predicate LexLess(a: Bytes, b: Bytes)
    decreases |a|
  {
    |b| > 0 && (|a| == 0 || a[0] < b[0] || (a[0] == b[0] && LexLess(a[1..], b[1..])))
  }

  predicate LexLessEq(a: Bytes, b: Bytes)
  {
    a == b || LexLess(a, b)
  }

  lemma {:induction false} LexLessIrreflexive(a: Bytes)
    ensures !LexLess(a, a)
  {
    if |a| > 0 {
      LexLessIrreflexive(a[1..]);
    }
  }

  lemma {:induction false} LexLessAsymmetric(a: Bytes, b: Bytes)
    requires LexLess(a, b)
    ensures !LexLess(b, a)
  {
    if |a| > 0 && a[0] == b[0] {
      LexLessAsymmetric(a[1..], b[1..]);
    }
  }

  lemma {:induction false} LexLessTransitive(a: Bytes, b: Bytes, c: Bytes)
    requires LexLess(a, b) && LexLess(b, c)
    ensures LexLess(a, c)
  {
    if |a| > 0 && a[0] == b[0] && b[0] == c[0] {
      LexLessTransitive(a[1..], b[1..], c[1..]);
    }
  }

  lemma LexLessEqTransitive(a: Bytes, b: Bytes, c: Bytes)
    requires LexLessEq(a, b) && LexLessEq(b, c)
    ensures LexLessEq(a, c)
  {
    if a != b && b != c {
      LexLessTransitive(a, b, c);
    }
  }

  lemma LexLessEqLessTransitive(a: Bytes, b: Bytes, c: Bytes)
    requires LexLessEq(a, b) && LexLess(b, c)
    ensures LexLess(a, c)
  {
    if a != b {
      LexLessTransitive(a, b, c);
    }
  }

  lemma LexLessLessEqTransitive(a: Bytes, b: Bytes, c: Bytes)
    requires LexLess(a, b) && LexLessEq(b, c)
    ensures LexLess(a, c)
  {
    if b != c {
      LexLessTransitive(a, b, c);
    }
  }

  /** The order is total: any two byte strings are equal or ordered. */
  lemma {:induction false} LexLessTotal(a: Bytes, b: Bytes)
    ensures a == b || LexLess(a, b) || LexLess(b, a)
  {
    if |a| > 0 && |b| > 0 && a[0] == b[0] {
      LexLessTotal(a[1..], b[1..]);
      if a[1..] == b[1..] {
        assert a == [a[0]] + a[1..] && b == [b[0]] + b[1..];
      }
    }
  }

  /** `!LexLess(a, b)` is `b <= a` in the order. */
  lemma NotLessIsGreaterEq(a: Bytes, b: Bytes)
    ensures !LexLess(a, b) <==> LexLessEq(b, a)
  {
    LexLessTotal(a, b);
    if LexLess(a, b) {
      LexLessAsymmetric(a, b);
    }
    if a == b {
      LexLessIrreflexive(a);
    }
  }

  /** A byte string whose first byte is smaller sorts first. */
  lemma HeadLessIsLess(a: Bytes, b: Bytes)
    requires |a| > 0 && |b| > 0 && a[0] < b[0]
    ensures LexLess(a, b)
  {
  }

  /** A byte string whose first byte is larger does not sort first. */
  lemma HeadGreaterNotLess(a: Bytes, b: Bytes)
    requires |a| > 0 && |b| > 0 && a[0] > b[0]
    ensures !LexLess(a, b)
  {
  }

  /** Byte strings that start with the same byte compare as their tails do. */
  lemma LexLessSameHead(a: Bytes, b: Bytes)
    requires |a| > 0 && |b| > 0 && a[0] == b[0]
    ensures LexLess(a, b) <==> LexLess(a[1..], b[1..])
    ensures a == b <==> a[1..] == b[1..]
    ensures a <= b <==> a[1..] <= b[1..]
  {
    assert a == [a[0]] + a[1..] && b == [b[0]] + b[1..];
  }

  /** A prefix sorts no later than any extension of it. */
  lemma {:induction false} PrefixLexLessEq(p: Bytes, s: Bytes)
    requires p <= s
    ensures LexLessEq(p, s)
  {
    if |p| > 0 {
      PrefixLexLessEq(p[1..], s[1..]);
      if p[1..] == s[1..] {
        assert p == [p[0]] + p[1..] && s == [s[0]] + s[1..];
      }
    }
  }

  /** A byte string is ordered before what it becomes once something is appended. */
  lemma ProperPrefixLexLess(p: Bytes, s: Bytes)
    requires p <= s && |p| < |s|
    ensures LexLess(p, s)
  {
    PrefixLexLessEq(p, s);
  }

  /** Position of the first c in b, or |b| when there is none. */
  function IndexOf(b: Bytes, c: Byte): (k: nat)
    ensures k <= |b|
    ensures forall i :: 0 <= i < k ==> b[i] != c
    ensures k < |b| ==> b[k] == c
  {
    if |b| == 0 || b[0] == c then 0 else 1 + IndexOf(b[1..], c)
  }

  /** Number of '/' bytes in s. */
  function CountSlash(s: Bytes): nat
  {
    if |s| == 0 then 0 else (if s[0] == Slash then 1 else 0) + CountSlash(s[1..])
  }

  /** Whether a non-empty byte string ends in '/'. */
  predicate EndsInSlash(s: Bytes)
  {
    |s| > 0 && s[|s| - 1] == Slash
  }
}
