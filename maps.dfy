/**
 * Last-writer-wins map building, shared by the two places the store
 * builds a keyed table from a sequence: the attribute dict comprehension
 * (later entries overwrite earlier ones with the same key) and
 * `INSERT OR REPLACE` by primary key.
 */
module Maps {

  /** Write `entries` into `m` in order, each overwriting any earlier value under its key. */
  function Upsert<K(==), V>(m: map<K, V>, entries: seq<(K, V)>): map<K, V>
    decreases |entries|
  {
    if entries == [] then m
    else Upsert(m, entries[..|entries| - 1])[entries[|entries| - 1].0 := entries[|entries| - 1].1]
  }

  /** The keys that `entries` write. */
  function EntryKeys<K(==), V>(entries: seq<(K, V)>): set<K>
  {
    set i | 0 <= i < |entries| :: entries[i].0
  }

  /** Entry `i` is the last one with its key. */
  predicate LastFor<K(==), V>(entries: seq<(K, V)>, i: int)
  {
    0 <= i < |entries| && forall j | i < j < |entries| :: entries[j].0 != entries[i].0
  }

  /** The result has exactly the old keys and the written ones. */
  lemma {:induction false} UpsertKeys<K, V>(m: map<K, V>, entries: seq<(K, V)>)
    ensures Upsert(m, entries).Keys == m.Keys + EntryKeys(entries)
    decreases |entries|
  {
    if entries != [] {
      var init := entries[..|entries| - 1];
      UpsertKeys(m, init);
      assert entries == init + [entries[|entries| - 1]];
      assert EntryKeys(entries) == EntryKeys(init) + {entries[|entries| - 1].0};
    }
  }

  /** The last entry written under a key is the value the result holds there. */
  lemma {:induction false} UpsertLastWins<K, V>(m: map<K, V>, entries: seq<(K, V)>, i: int)
    requires LastFor(entries, i)
    ensures entries[i].0 in Upsert(m, entries) && Upsert(m, entries)[entries[i].0] == entries[i].1
    decreases |entries|
  {
    var n := |entries| - 1;
    if i < n {
      assert LastFor(entries[..n], i);
      UpsertLastWins(m, entries[..n], i);
    }
  }

  /** A key no entry writes keeps the value it had in `m`. */
  lemma {:induction false} UpsertUntouched<K, V>(m: map<K, V>, entries: seq<(K, V)>, k: K)
    requires forall i | 0 <= i < |entries| :: entries[i].0 != k
    ensures k in Upsert(m, entries) <==> k in m
    ensures k in m ==> Upsert(m, entries)[k] == m[k]
    decreases |entries|
  {
    if entries != [] {
      var n := |entries| - 1;
      assert entries[n] in entries;
      forall e | e in entries[..n] ensures e.0 != k {
        assert e in entries;
      }
      UpsertUntouched(m, entries[..n], k);
    }
  }

  /** Writing `a` then `b` is writing `a + b`. */
  lemma {:induction false} UpsertAppend<K, V>(m: map<K, V>, a: seq<(K, V)>, b: seq<(K, V)>)
    ensures Upsert(m, a + b) == Upsert(Upsert(m, a), b)
    decreases |b|
  {
    if b == [] {
      assert a + b == a;
    } else {
      var n := |b| - 1;
      assert (a + b)[..|a + b| - 1] == a + b[..n];
      UpsertAppend(m, a, b[..n]);
    }
  }

  /** Writing the same entries again changes nothing. */
  lemma {:induction false} UpsertIdempotent<K, V>(m: map<K, V>, entries: seq<(K, V)>)
    ensures Upsert(Upsert(m, entries), entries) == Upsert(m, entries)
  {
    var once := Upsert(m, entries);
    var twice := Upsert(once, entries);
    UpsertKeys(m, entries);
    UpsertKeys(once, entries);
    forall k | k in twice
      ensures k in once && twice[k] == once[k]
    {
      if k in EntryKeys(entries) {
        var i := LastIndex(entries, k);
        UpsertLastWins(m, entries, i);
        UpsertLastWins(once, entries, i);
      } else {
        UpsertUntouched(once, entries, k);
      }
    }
    assert twice.Keys == once.Keys;
  }

  /** The index of the last entry with key `k`. */
  function LastIndex<K(==), V>(entries: seq<(K, V)>, k: K): (i: int)
    requires k in EntryKeys(entries)
    ensures LastFor(entries, i) && entries[i].0 == k
    decreases |entries|
  {
    var n := |entries| - 1;
    if entries[n].0 == k then n
    else
      assert k in EntryKeys(entries[..n]) by {
        var e :| e in entries && e.0 == k;
        var j :| 0 <= j < |entries| && entries[j] == e;
        assert j != n;
        assert entries[..n][j] == e;
      }
      LastIndex(entries[..n], k)
  }

  /** A property of every key/value pair in `m` and in `entries` holds of every pair in the result. */
  lemma {:induction false} UpsertPreserves<K, V>(m: map<K, V>, entries: seq<(K, V)>, p: (K, V) -> bool)
    requires forall k | k in m :: p(k, m[k])
    requires forall e | e in entries :: p(e.0, e.1)
    ensures forall k | k in Upsert(m, entries) :: p(k, Upsert(m, entries)[k])
    decreases |entries|
  {
    if entries != [] {
      var n := |entries| - 1;
      assert entries[n] in entries;
      forall e | e in entries[..n] ensures p(e.0, e.1) {
        assert e in entries;
      }
      UpsertPreserves(m, entries[..n], p);
    }
  }
}
