/**
 The search index as a sequence of entries, and the writer that queues deletes
 and adds until a commit applies them in order.
 */
module IndexWriter {

  /** An entry carries the key of its document and the hash of the version it was built from. */
  datatype Entry = Entry(key: string, hash: string)

  datatype Op = Delete(key: string) | Add(entry: Entry)

  function OpKey(op: Op): string {
    match op case Delete(k) => k case Add(e) => e.key
  }

  function Without(entries: seq<Entry>, key: string): seq<Entry> {
    if |entries| == 0 then []
    else
      var rest := Without(entries[..|entries| - 1], key);
      if entries[|entries| - 1].key == key then rest else rest + [entries[|entries| - 1]]
  }

  function ApplyOp(entries: seq<Entry>, op: Op): seq<Entry> {
    match op
    case Delete(key) => Without(entries, key)
    case Add(entry) => entries + [entry]
  }

  /** A commit: all queued operations, in order. */
  function ApplyOps(entries: seq<Entry>, ops: seq<Op>): seq<Entry>
    decreases |ops|
  {
    if |ops| == 0 then entries else ApplyOp(ApplyOps(entries, ops[..|ops| - 1]), ops[|ops| - 1])
  }

  /** The versions the index holds under a key. */
  function Under(entries: seq<Entry>, key: string): seq<string> {
    if |entries| == 0 then []
    else
      Under(entries[..|entries| - 1], key) +
      if entries[|entries| - 1].key == key then [entries[|entries| - 1].hash] else []
  }

  /** A version read from the store: row id, index key, hash. */
  datatype Snap = Snap(id: nat, key: string, hash: string)

  /** Delete then add, for every version of a batch. */
  function BatchOps(batch: seq<Snap>): seq<Op> {
    if |batch| == 0 then []
    else
      var last := batch[|batch| - 1];
      BatchOps(batch[..|batch| - 1]) + [Delete(last.key), Add(Entry(last.key, last.hash))]
  }

  ghost predicate DistinctKeys(batch: seq<Snap>) {
    forall i, j :: 0 <= i < j < |batch| ==> batch[i].key != batch[j].key
  }

  ghost predicate HasKey(batch: seq<Snap>, key: string) {
    exists i :: 0 <= i < |batch| && batch[i].key == key
  }

  ghost predicate Touches(ops: seq<Op>, key: string) {
    exists i :: 0 <= i < |ops| && OpKey(ops[i]) == key
  }

  // ---------- what a commit leaves under a key ----------

  lemma {:induction false} UnderWithout(entries: seq<Entry>, removed: string, key: string)
    ensures Under(Without(entries, removed), key) == if key == removed then [] else Under(entries, key)
  {
    if |entries| > 0 {
      var front, last := entries[..|entries| - 1], entries[|entries| - 1];
      UnderWithout(front, removed, key);
      if last.key != removed {
        UnderAdd(Without(front, removed), last, key);
      }
    }
  }

  lemma UnderAdd(entries: seq<Entry>, entry: Entry, key: string)
    ensures Under(entries + [entry], key) == Under(entries, key) + if entry.key == key then [entry.hash] else []
  {
    assert (entries + [entry])[..|entries|] == entries;
  }

  lemma {:induction false} ApplyConcat(entries: seq<Entry>, a: seq<Op>, b: seq<Op>)
    ensures ApplyOps(entries, a + b) == ApplyOps(ApplyOps(entries, a), b)
  {
    if |b| > 0 {
      assert (a + b)[..|a + b| - 1] == a + b[..|b| - 1];
      ApplyConcat(entries, a, b[..|b| - 1]);
    } else {
      assert a + b == a;
    }
  }

  /** Operations on other keys leave a key alone. */
  lemma {:induction false} UntouchedKey(entries: seq<Entry>, ops: seq<Op>, key: string)
    requires !Touches(ops, key)
    ensures Under(ApplyOps(entries, ops), key) == Under(entries, key)
  {
    if |ops| > 0 {
      var front, last := ops[..|ops| - 1], ops[|ops| - 1];
      assert OpKey(ops[|ops| - 1]) != key;
      PrefixTouches(ops, |ops| - 1, key);
      UntouchedKey(entries, front, key);
      match last
      case Delete(k) => UnderWithout(ApplyOps(entries, front), k, key);
      case Add(e) => UnderAdd(ApplyOps(entries, front), e, key);
    }
  }

  lemma ReplaceEntry(entries: seq<Entry>, replaced: string, hash: string, key: string)
    ensures Under(ApplyOps(entries, [Delete(replaced), Add(Entry(replaced, hash))]), key) ==
            if key == replaced then [hash] else Under(entries, key)
  {
    var ops := [Delete(replaced), Add(Entry(replaced, hash))];
    assert ops[..1] == [Delete(replaced)] && ops[..1][..0] == [];
    assert ApplyOps(entries, [Delete(replaced)]) == Without(entries, replaced);
    assert ApplyOps(entries, ops) == Without(entries, replaced) + [Entry(replaced, hash)];
    UnderWithout(entries, replaced, key);
    UnderAdd(Without(entries, replaced), Entry(replaced, hash), key);
  }

  /** After a commit every key of the batch has exactly one entry, the batch's; other keys are as before. */
  lemma {:induction false} CommitReplaces(entries: seq<Entry>, batch: seq<Snap>, key: string)
    requires DistinctKeys(batch)
    ensures forall i :: 0 <= i < |batch| && batch[i].key == key ==>
              Under(ApplyOps(entries, BatchOps(batch)), key) == [batch[i].hash]
    ensures !HasKey(batch, key) ==> Under(ApplyOps(entries, BatchOps(batch)), key) == Under(entries, key)
  {
    if |batch| > 0 {
      var front, last := batch[..|batch| - 1], batch[|batch| - 1];
      CommitReplaces(entries, front, key);
      var ops := [Delete(last.key), Add(Entry(last.key, last.hash))];
      ApplyConcat(entries, BatchOps(front), ops);
      ReplaceEntry(ApplyOps(entries, BatchOps(front)), last.key, last.hash, key);
      PrefixHasKey(batch, |batch| - 1, key);
      assert batch[|batch| - 1].key == last.key;
    }
  }

  /** Committing a batch again, as after a crash before the marks, changes nothing a search can see. */
  lemma CommitTwice(entries: seq<Entry>, batch: seq<Snap>, key: string)
    requires DistinctKeys(batch)
    ensures var once := ApplyOps(entries, BatchOps(batch));
            Under(ApplyOps(once, BatchOps(batch)), key) == Under(once, key)
  {
    var once := ApplyOps(entries, BatchOps(batch));
    CommitReplaces(entries, batch, key);
    CommitReplaces(once, batch, key);
    if HasKey(batch, key) {
      var i :| 0 <= i < |batch| && batch[i].key == key;
    }
  }

  lemma {:induction false} BatchTouchesItsKeys(batch: seq<Snap>, key: string)
    requires !HasKey(batch, key)
    ensures !Touches(BatchOps(batch), key)
  {
    if |batch| > 0 {
      var front := batch[..|batch| - 1];
      assert batch[|batch| - 1].key != key;
      PrefixHasKey(batch, |batch| - 1, key);
      BatchTouchesItsKeys(front, key);
    }
  }

  lemma TouchesConcat(a: seq<Op>, b: seq<Op>, key: string)
    ensures Touches(a + b, key) <==> Touches(a, key) || Touches(b, key)
  {
    var all := a + b;
    if Touches(a, key) {
      var i :| 0 <= i < |a| && OpKey(a[i]) == key;
      assert OpKey(all[i]) == key;
    }
    if Touches(b, key) {
      var i :| 0 <= i < |b| && OpKey(b[i]) == key;
      assert OpKey(all[|a| + i]) == key;
    }
    if Touches(all, key) {
      var i :| 0 <= i < |all| && OpKey(all[i]) == key;
      assert if i < |a| then OpKey(a[i]) == key else OpKey(b[i - |a|]) == key;
    }
  }

  lemma PrefixHasKey(batch: seq<Snap>, n: nat, key: string)
    requires n <= |batch|
    ensures HasKey(batch[..n], key) ==> HasKey(batch, key)
  {
    if HasKey(batch[..n], key) {
      var i :| 0 <= i < n && batch[..n][i].key == key;
      assert batch[i].key == key;
    }
  }

  lemma PrefixTouches(ops: seq<Op>, n: nat, key: string)
    requires n <= |ops|
    ensures Touches(ops[..n], key) ==> Touches(ops, key)
  {
    assert ops == ops[..n] + ops[n..];
    TouchesConcat(ops[..n], ops[n..], key);
  }

  /** The entries of a freshly built index. */
  function EntriesOf(manifest: seq<Snap>): (r: seq<Entry>)
    ensures |r| == |manifest|
  {
    if |manifest| == 0 then []
    else
      var last := manifest[|manifest| - 1];
      EntriesOf(manifest[..|manifest| - 1]) + [Entry(last.key, last.hash)]
  }

  lemma {:induction false} BuiltIndexHolds(manifest: seq<Snap>, key: string)
    requires DistinctKeys(manifest)
    ensures forall i :: 0 <= i < |manifest| && manifest[i].key == key ==>
              Under(EntriesOf(manifest), key) == [manifest[i].hash]
    ensures !HasKey(manifest, key) ==> Under(EntriesOf(manifest), key) == []
  {
    if |manifest| > 0 {
      var front, last := manifest[..|manifest| - 1], manifest[|manifest| - 1];
      BuiltIndexHolds(front, key);
      UnderAdd(EntriesOf(front), Entry(last.key, last.hash), key);
      PrefixHasKey(manifest, |manifest| - 1, key);
      assert manifest[|manifest| - 1].key == last.key;
    }
  }
}
