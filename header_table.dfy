/**
 * The header table of a Replio builder: a PHP array from header name to
 * header value. PHP arrays keep insertion order, and assigning to a key that
 * is already present overwrites its value where it stands, so the table
 * never holds the same key twice.
 */
module HeaderTable {
  import opened Wrappers

  type Table = seq<(string, string)>

  predicate HasKey(t: Table, k: string)
  {
    exists i :: 0 <= i < |t| && t[i].0 == k
  }

  function KeySet(t: Table): set<string>
  {
    set i | 0 <= i < |t| :: t[i].0
  }

  predicate NoDupKeys(t: Table)
  {
    forall i, j :: 0 <= i < j < |t| ==> t[i].0 != t[j].0
  }

  /** The value stored under `k`: that of the last entry with key `k`. A
      table without duplicate keys has at most one; in a batch handed to
      `withHeaders` the last one is the one that wins. */
  function Lookup(t: Table, k: string): Option<string>
  {
    if t == [] then None
    else if t[|t| - 1].0 == k then Some(t[|t| - 1].1)
    else Lookup(t[..|t| - 1], k)
  }

  /** `$table[$k] = $v`: overwrite the entry for `k` in place, or append one. */
  function Put(t: Table, k: string, v: string): (r: Table)
    requires NoDupKeys(t)
    ensures NoDupKeys(r)
    ensures |r| == if HasKey(t, k) then |t| else |t| + 1
    ensures forall i :: 0 <= i < |t| ==> r[i] == if t[i].0 == k then (k, v) else t[i]
    ensures !HasKey(t, k) ==> r[|t|] == (k, v)
  {
    if i :| 0 <= i < |t| && t[i].0 == k then t[i := (k, v)] else t + [(k, v)]
  }

  /** `foreach ($batch as $k => $v) { $table[$k] = $v; }` */
  function Merge(t: Table, batch: Table): (r: Table)
    requires NoDupKeys(t)
    ensures NoDupKeys(r)
    ensures |t| <= |r|
  {
    if batch == [] then t
    else
      var last := batch[|batch| - 1];
      Put(Merge(t, batch[..|batch| - 1]), last.0, last.1)
  }

  /** The entries of `batch` whose key `t` does not hold, in batch order. */
  function NewEntries(t: Table, batch: Table): Table
  {
    if batch == [] then []
    else
      var last := batch[|batch| - 1];
      NewEntries(t, batch[..|batch| - 1]) + if HasKey(t, last.0) then [] else [last]
  }

  lemma {:induction false} LookupAt(t: Table, i: nat)
    requires NoDupKeys(t) && i < |t|
    ensures Lookup(t, t[i].0) == Some(t[i].1)
  {
    if i < |t| - 1 {
      LookupAt(t[..|t| - 1], i);
    }
  }

  lemma {:induction false} LookupAbsent(t: Table, k: string)
    requires !HasKey(t, k)
    ensures Lookup(t, k) == None
  {
    if t != [] {
      assert t[|t| - 1].0 != k;
      LookupAbsent(t[..|t| - 1], k);
    }
  }

  /** In a table without duplicate keys, a key is found exactly when it is
      present, and then with the value stored beside it. */
  lemma LookupPresent(t: Table, k: string)
    requires NoDupKeys(t)
    ensures Lookup(t, k).Some? <==> HasKey(t, k)
    ensures forall i :: 0 <= i < |t| && t[i].0 == k ==> Lookup(t, k) == Some(t[i].1)
  {
    if i :| 0 <= i < |t| && t[i].0 == k {
      LookupAt(t, i);
    } else {
      LookupAbsent(t, k);
    }
  }

  /** Storing `v` under `k` makes `k` map to `v` and leaves every other key's value alone. */
  lemma PutLookup(t: Table, k: string, v: string, k': string)
    requires NoDupKeys(t)
    ensures Lookup(Put(t, k, v), k') == if k' == k then Some(v) else Lookup(t, k')
  {
    var r := Put(t, k, v);
    if k' == k {
      if i :| 0 <= i < |t| && t[i].0 == k {
        LookupAt(r, i);
      } else {
        LookupAt(r, |t|);
      }
    } else if j :| 0 <= j < |t| && t[j].0 == k' {
      LookupAt(t, j);
      LookupAt(r, j);
    } else {
      LookupAbsent(t, k');
      LookupAbsent(r, k');
    }
  }

  lemma PutKeySet(t: Table, k: string, v: string)
    requires NoDupKeys(t)
    ensures KeySet(Put(t, k, v)) == KeySet(t) + {k}
  {
    var r := Put(t, k, v);
    forall x | x in KeySet(r) ensures x in KeySet(t) + {k} {
      var i :| 0 <= i < |r| && r[i].0 == x;
      if i < |t| && t[i].0 != k {
        assert t[i].0 == x;
      }
    }
    forall x | x in KeySet(t) + {k} ensures x in KeySet(r) {
      if x == k {
        if i :| 0 <= i < |t| && t[i].0 == k {
          assert r[i].0 == k;
        } else {
          assert r[|t|].0 == k;
        }
      } else {
        var i :| 0 <= i < |t| && t[i].0 == x;
        assert r[i].0 == x;
      }
    }
  }

  lemma KeySetSnoc(t: Table, e: (string, string))
    ensures KeySet(t + [e]) == KeySet(t) + {e.0}
  {
    var s := t + [e];
    forall x | x in KeySet(s) ensures x in KeySet(t) + {e.0} {
      var i :| 0 <= i < |s| && s[i].0 == x;
      if i < |t| {
        assert t[i].0 == x;
      }
    }
    forall x | x in KeySet(t) ensures x in KeySet(s) {
      var i :| 0 <= i < |t| && t[i].0 == x;
      assert s[i].0 == x;
    }
    assert s[|t|].0 == e.0;
  }

  /** After a merge, every key of the batch maps to its (last) value in the
      batch, and every other key keeps the value it had. */
  lemma {:induction false} MergeLookup(t: Table, batch: Table, k: string)
    requires NoDupKeys(t)
    ensures Lookup(Merge(t, batch), k) == if Lookup(batch, k).Some? then Lookup(batch, k) else Lookup(t, k)
    decreases |batch|
  {
    if batch != [] {
      var prefix, last := batch[..|batch| - 1], batch[|batch| - 1];
      PutLookup(Merge(t, prefix), last.0, last.1, k);
      if k != last.0 {
        MergeLookup(t, prefix, k);
      }
    }
  }

  /** A merge never moves an existing key, and leaves the entry of a key the
      batch does not mention exactly as it was. */
  lemma {:induction false} MergeKeepsPosition(t: Table, batch: Table, i: nat)
    requires NoDupKeys(t) && i < |t|
    ensures Merge(t, batch)[i].0 == t[i].0
    ensures !HasKey(batch, t[i].0) ==> Merge(t, batch)[i] == t[i]
    decreases |batch|
  {
    if batch != [] {
      var prefix, last := batch[..|batch| - 1], batch[|batch| - 1];
      MergeKeepsPosition(t, prefix, i);
      if !HasKey(batch, t[i].0) {
        assert last.0 != t[i].0;
      }
    }
  }

  /** The keys after a merge are the old keys and the batch's keys, nothing else. */
  lemma {:induction false} MergeKeys(t: Table, batch: Table)
    requires NoDupKeys(t)
    ensures KeySet(Merge(t, batch)) == KeySet(t) + KeySet(batch)
    decreases |batch|
  {
    if batch != [] {
      var prefix, last := batch[..|batch| - 1], batch[|batch| - 1];
      MergeKeys(t, prefix);
      PutKeySet(Merge(t, prefix), last.0, last.1);
      assert batch == prefix + [last];
      KeySetSnoc(prefix, last);
    }
  }

  /** Two merges in a row are one merge of the concatenated batches: header
      tables accumulate across `withHeaders` calls. */
  lemma {:induction false} MergeConcat(t: Table, first: Table, second: Table)
    requires NoDupKeys(t)
    ensures Merge(Merge(t, first), second) == Merge(t, first + second)
    decreases |second|
  {
    if second == [] {
      assert first + second == first;
    } else {
      var both := first + second;
      assert both[..|both| - 1] == first + second[..|second| - 1];
      assert both[|both| - 1] == second[|second| - 1];
      MergeConcat(t, first, second[..|second| - 1]);
    }
  }

  /** Keys new to the table are appended in batch order: merging a batch
      whose keys are all new, and distinct, appends the batch as it is. */
  lemma {:induction false} MergeFresh(t: Table, batch: Table)
    requires NoDupKeys(t) && NoDupKeys(t + batch)
    ensures Merge(t, batch) == t + batch
    decreases |batch|
  {
    if batch != [] {
      var prefix, last := batch[..|batch| - 1], batch[|batch| - 1];
      assert t + batch == (t + prefix) + [last];
      assert NoDupKeys(t + prefix) by {
        assert t + prefix == (t + batch)[..|t + prefix|];
        forall i, j | 0 <= i < j < |t + prefix| ensures (t + prefix)[i].0 != (t + prefix)[j].0 {
          assert (t + prefix)[i] == (t + batch)[i] && (t + prefix)[j] == (t + batch)[j];
        }
      }
      MergeFresh(t, prefix);
      assert !HasKey(t + prefix, last.0) by {
        forall i | 0 <= i < |t + prefix| ensures (t + prefix)[i].0 != last.0 {
          assert (t + prefix)[i] == (t + batch)[i] && last == (t + batch)[|t + batch| - 1];
        }
      }
    }
  }

  /** Whatever a batch of distinct keys overwrites, the entries a merge adds
      after the old table are the batch's new keys, in the order the batch
      lists them: a header a PHP array gains is sent after those it had. */
  lemma {:induction false} MergeAppendsNewKeys(t: Table, batch: Table)
    requires NoDupKeys(t) && NoDupKeys(batch)
    ensures |t| <= |Merge(t, batch)| && Merge(t, batch)[|t|..] == NewEntries(t, batch)
    decreases |batch|
  {
    if batch != [] {
      var prefix, last := batch[..|batch| - 1], batch[|batch| - 1];
      assert NoDupKeys(prefix) by {
        forall i, j | 0 <= i < j < |prefix| ensures prefix[i].0 != prefix[j].0 {
          assert prefix[i] == batch[i] && prefix[j] == batch[j];
        }
      }
      MergeAppendsNewKeys(t, prefix);
      var m := Merge(t, prefix);
      var r := Put(m, last.0, last.1);
      assert Merge(t, batch) == r;
      if HasKey(t, last.0) {
        var i :| 0 <= i < |t| && t[i].0 == last.0;
        MergeKeepsPosition(t, prefix, i);
        assert HasKey(m, last.0);
        forall j | |t| <= j < |m| ensures r[j] == m[j] {
          assert m[j].0 != m[i].0;
        }
        assert r[|t|..] == m[|t|..];
      } else {
        MergeKeys(t, prefix);
        assert last.0 !in KeySet(prefix) by {
          forall i | 0 <= i < |prefix| ensures prefix[i].0 != last.0 {
            assert prefix[i] == batch[i];
          }
        }
        assert last.0 !in KeySet(t) by {
          forall i | 0 <= i < |t| ensures t[i].0 != last.0 { }
        }
        assert !HasKey(m, last.0) by {
          forall i | 0 <= i < |m| ensures m[i].0 != last.0 {
            assert m[i].0 in KeySet(m);
          }
        }
        assert r == m + [last];
        assert r[|t|..] == m[|t|..] + [last];
      }
    }
  }
}
