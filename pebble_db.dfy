/**
 * The embedded ordered key-value engine (Pebble), reduced to what the store
 * and the fetchers rely on: a map from byte-string keys to byte-string values
 * kept in ascending key order, `Set` as an upsert, and an iterator whose
 * position is an index into that order, restricted to the bounds
 * `[lower, upper)` of its IterOptions.
 */
module PebbleDb {
  import opened Bytes
  import opened Wrappers

  datatype KV = KV(key: Bytes, value: Bytes)

  /** Keys strictly ascending, so each key occurs once. */
  predicate Sorted(db: seq<KV>)
  {
    forall i, j :: 0 <= i < j < |db| ==> LexLess(db[i].key, db[j].key)
  }

  /** db.Get(k). */
  function Get(db: seq<KV>, k: Bytes): Option<Bytes>
  {
    if |db| == 0 then None
    else if db[0].key == k then Some(db[0].value)
    else Get(db[1..], k)
  }

  /** db.Set(k, v): inserts k, or overwrites the value already stored under k. */
  function Set(db: seq<KV>, k: Bytes, v: Bytes): (r: seq<KV>)
    requires Sorted(db)
    ensures Sorted(r)
    ensures forall i :: 0 <= i < |r| ==> r[i] == KV(k, v) || (r[i].key != k && r[i] in db)
    ensures forall k' :: Get(r, k') == if k' == k then Some(v) else Get(db, k')
  {
    if |db| == 0 then [KV(k, v)]
    else if db[0].key == k then
      assert forall i :: 1 <= i < |db| ==> db[i].key != k by {
        forall i | 1 <= i < |db| ensures db[i].key != k {
          LexLessIrreflexive(k);
        }
      }
      [KV(k, v)] + db[1..]
    else if LexLess(k, db[0].key) then
      assert forall i :: 0 <= i < |db| ==> db[i].key != k && LexLess(k, db[i].key) by {
        forall i | 0 <= i < |db| ensures db[i].key != k && LexLess(k, db[i].key) {
          if i > 0 {
            LexLessTransitive(k, db[0].key, db[i].key);
          }
          LexLessIrreflexive(k);
        }
      }
      [KV(k, v)] + db
    else
      NotLessIsGreaterEq(k, db[0].key);
      [db[0]] + Set(db[1..], k, v)
  }

  /** Writing the same value twice leaves the store as one write did. */
  lemma {:induction false} SetIdempotent(db: seq<KV>, k: Bytes, v: Bytes)
    requires Sorted(db)
    ensures Set(Set(db, k, v), k, v) == Set(db, k, v)
  {
    if |db| > 0 && db[0].key != k && !LexLess(k, db[0].key) {
      SetIdempotent(db[1..], k, v);
    }
  }

  /** A later write to the same key replaces an earlier one. */
  lemma {:induction false} SetOverwrites(db: seq<KV>, k: Bytes, v: Bytes, w: Bytes)
    requires Sorted(db)
    ensures Set(Set(db, k, v), k, w) == Set(db, k, w)
  {
    if |db| > 0 && db[0].key != k && !LexLess(k, db[0].key) {
      SetOverwrites(db[1..], k, v, w);
    }
  }

  /**
   * Index of the first key at or after k, or |db| if there is none:
   * the position `SeekGE(k)` (and `First()` with lower bound k) moves to.
   */
  function SeekGE(db: seq<KV>, k: Bytes): (i: nat)
    ensures i <= |db|
    ensures forall j :: 0 <= j < i ==> LexLess(db[j].key, k)
    ensures i < |db| ==> LexLessEq(k, db[i].key)
  {
    if |db| == 0 then 0
    else if LexLess(db[0].key, k) then 1 + SeekGE(db[1..], k)
    else
      NotLessIsGreaterEq(db[0].key, k);
      0
  }

  /** In a sorted store, every key from the seek position on is at or after k. */
  lemma SeekGEAtOrAfter(db: seq<KV>, k: Bytes, j: nat)
    requires Sorted(db) && SeekGE(db, k) <= j < |db|
    ensures LexLessEq(k, db[j].key)
  {
    var i := SeekGE(db, k);
    if i < j {
      LexLessEqLessTransitive(k, db[i].key, db[j].key);
    }
  }

  /** Seeking to a later key never moves the cursor backwards. */
  lemma SeekGEMonotone(db: seq<KV>, k1: Bytes, k2: Bytes)
    requires Sorted(db) && LexLessEq(k1, k2)
    ensures SeekGE(db, k1) <= SeekGE(db, k2)
  {
    var i1, i2 := SeekGE(db, k1), SeekGE(db, k2);
    if i2 < i1 {
      assert LexLess(db[i2].key, k1);
      LexLessEqTransitive(k1, k2, db[i2].key);
      NotLessIsGreaterEq(db[i2].key, k1);
    }
  }

  /** The iterator's upper bound; an empty bound stands for no bound. */
  predicate BelowUpper(k: Bytes, upper: Bytes)
  {
    |upper| == 0 || LexLess(k, upper)
  }

  /** Whether key k lies within the bounds [lower, upper) of an iterator. */
  predicate InBounds(k: Bytes, lower: Bytes, upper: Bytes)
  {
    LexLessEq(lower, k) && BelowUpper(k, upper)
  }

  /** `iter.Valid()` at cursor i of an iterator with upper bound `upper`. */
  predicate IterValid(db: seq<KV>, upper: Bytes, i: nat)
  {
    i < |db| && BelowUpper(db[i].key, upper)
  }

  /** `iter.Next()`: one step forward; an exhausted iterator stays exhausted. */
  function Next(db: seq<KV>, i: nat): (j: nat)
    requires i <= |db|
    ensures j <= |db|
    ensures i < |db| ==> j == i + 1
  {
    if i < |db| then i + 1 else |db|
  }

  /** `iter.SeekGE(k)` on an iterator with lower bound `lower`: a seek below the lower bound stops at it. */
  function SeekGEWithin(db: seq<KV>, lower: Bytes, k: Bytes): nat
  {
    SeekGE(db, if LexLess(k, lower) then lower else k)
  }
}
