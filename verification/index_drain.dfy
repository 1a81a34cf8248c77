/**
 One call of the indexing worker's `drain`: batches of pending rows are deleted
 and re-added, committed and marked until no row is pending. The fate of every
 batch is an input.
 */
module IndexDrain {
  import opened CanonicalStore
  import opened IndexInvariant
  import opened IndexProtocol
  import opened IndexWriter
  import opened Ordered
  import Wrappers

  /**
   What happens to one batch. A failing add hits the given document, or the last
   one of a shorter batch; a panic strikes after so many queued operations, or
   after the commit when the batch queues fewer.
   */
  datatype Fate =
    | Commits
    | AddFails(doc: nat, rolledBack: bool)
    | CommitFails(rolledBack: bool)
    | ReloadFails
    | Panics(ops: nat)

  datatype BatchResult = Done | Failed | TaskFailed

  // ---------- the index writer behind its lock ----------

  class Writer {
    var committed: seq<Entry>
    var queue: seq<Op>
    var poisoned: bool

    constructor (entries: seq<Entry>)
      ensures committed == entries && queue == [] && !poisoned
    {
      committed, queue, poisoned := entries, [], false;
    }

    method DeleteTerm(key: string)
      modifies `queue
      ensures queue == old(queue) + [Delete(key)]
    {
      queue := queue + [Delete(key)];
    }

    method AddDocument(entry: Entry)
      modifies `queue
      ensures queue == old(queue) + [Add(entry)]
    {
      queue := queue + [Add(entry)];
    }

    method Commit()
      modifies `queue, `committed
      ensures committed == ApplyOps(old(committed), old(queue)) && queue == []
    {
      committed, queue := ApplyOps(committed, queue), [];
    }

    method Rollback()
      modifies `queue
      ensures queue == []
    {
      queue := [];
    }
  }

  lemma {:induction false} BatchOpsPrefix(batch: seq<Snap>, n: nat)
    requires n <= |batch|
    ensures |BatchOps(batch)| == 2 * |batch|
    ensures BatchOps(batch[..n]) == BatchOps(batch)[..2 * n]
  {
    if n < |batch| {
      BatchOpsPrefix(batch[..|batch| - 1], n);
      assert batch[..|batch| - 1][..n] == batch[..n];
    } else {
      assert batch[..n] == batch;
      if n > 0 { BatchOpsPrefix(batch[..n - 1], 0); }
    }
  }

  /** The operations queued for a batch up to the delete of document `n`. */
  lemma BatchOpsDelete(batch: seq<Snap>, n: nat)
    requires n < |batch|
    ensures |BatchOps(batch)| == 2 * |batch|
    ensures BatchOps(batch[..n]) == BatchOps(batch)[..2 * n]
    ensures BatchOps(batch[..n]) + [Delete(batch[n].key)] == BatchOps(batch)[..2 * n + 1]
    ensures BatchOps(batch[..n]) + [Delete(batch[n].key)]
            + [Add(Entry(batch[n].key, batch[n].hash))]
            == BatchOps(batch[..n + 1])
  {
    BatchOpsPrefix(batch, n);
    BatchOpsPrefix(batch, n + 1);
    assert batch[..n + 1][..n] == batch[..n];
    var next := BatchOps(batch[..n + 1]);
    assert next == BatchOps(batch[..n]) + [Delete(batch[n].key), Add(Entry(batch[n].key, batch[n].hash))];
    assert next[..2 * n + 1] == BatchOps(batch)[..2 * n + 1];
  }

  ghost predicate QueuedPart(before: seq<Op>, after: seq<Op>, batch: seq<Snap>) {
    exists n :: 0 <= n <= |BatchOps(batch)| && after == before + BatchOps(batch)[..n]
  }

  /** A failure to reload and a late panic come too late to stop the commit. */
  predicate ReachesCommit(batch: seq<Snap>, fate: Fate) {
    fate.Commits? || fate.ReloadFails? || (fate.Panics? && fate.ops > |BatchOps(batch)|)
  }

  /** What a batch that stops before its commit leaves queued. */
  ghost predicate LeavesQueued(before: seq<Op>, after: seq<Op>, batch: seq<Snap>, fate: Fate)
    requires |batch| > 0
  {
    match fate
    case Commits => after == []
    case ReloadFails => after == []
    case AddFails(doc, rolledBack) =>
      var i := if doc < |batch| then doc else |batch| - 1;
      after == if rolledBack then [] else before + BatchOps(batch[..i]) + [Delete(batch[i].key)]
    case CommitFails(rolledBack) => after == if rolledBack then [] else before + BatchOps(batch)
    case Panics(ops) => ops <= |BatchOps(batch)| ==> after == before + BatchOps(batch)[..ops]
  }

  /**
   The blocking task of one batch. Only a commit changes the index, and it
   applies everything queued, leftovers included; otherwise at most a part of the
   batch stays queued. A panic poisons the lock for good.
   */
  method RunBatch(writer: Writer, batch: seq<Snap>, fate: Fate) returns (result: BatchResult)
    requires |batch| > 0
    modifies writer
    ensures result.Done? <==> !old(writer.poisoned) && fate.Commits?
    ensures result.TaskFailed? <==> !old(writer.poisoned) && fate.Panics?
    ensures writer.poisoned <==> old(writer.poisoned) || fate.Panics?
    ensures if ReachesCommit(batch, fate) && !old(writer.poisoned)
            then writer.committed == ApplyOps(old(writer.committed), old(writer.queue) + BatchOps(batch))
                 && writer.queue == []
            else writer.committed == old(writer.committed)
                 && (writer.queue == [] || QueuedPart(old(writer.queue), writer.queue, batch))
    ensures old(writer.poisoned) ==> writer.queue == old(writer.queue)
    ensures !old(writer.poisoned) ==> LeavesQueued(old(writer.queue), writer.queue, batch, fate)
  {
    if writer.poisoned {
      assert writer.queue == old(writer.queue) + BatchOps(batch)[..0];
      return Failed;
    }
    var i := 0;
    assert batch[..0] == [];
    while i < |batch|
      invariant 0 <= i <= |batch|
      invariant writer.queue == old(writer.queue) + BatchOps(batch[..i])
      invariant writer.committed == old(writer.committed) && !writer.poisoned
      invariant fate.AddFails? ==> i < |batch| && i <= fate.doc
      invariant fate.Panics? ==> fate.ops >= 2 * i
    {
      BatchOpsDelete(batch, i);
      if fate == Panics(2 * i) {
        writer.poisoned := true;
        return TaskFailed;
      }
      writer.DeleteTerm(batch[i].key);
      assert writer.queue == old(writer.queue) + BatchOps(batch)[..2 * i + 1];
      if fate == Panics(2 * i + 1) {
        writer.poisoned := true;
        return TaskFailed;
      }
      if fate.AddFails? && (fate.doc == i || (i == |batch| - 1 && fate.doc > i)) {
        if fate.rolledBack { writer.Rollback(); }
        return Failed;
      }
      writer.AddDocument(Entry(batch[i].key, batch[i].hash));
      assert writer.queue == old(writer.queue) + BatchOps(batch[..i + 1]);
      i := i + 1;
    }
    assert batch[..i] == batch;
    BatchOpsPrefix(batch, i);
    assert BatchOps(batch)[..2 * i] == BatchOps(batch);
    if fate == Panics(2 * i) {
      writer.poisoned := true;
      return TaskFailed;
    }
    if fate.CommitFails? {
      if fate.rolledBack { writer.Rollback(); }
      return Failed;
    }
    writer.Commit();
    if fate.ReloadFails? {
      writer.Rollback();
      return Failed;
    }
    if fate.Panics? {
      writer.poisoned := true;
      return TaskFailed;
    }
    return Done;
  }

  // ---------- reading and marking a batch ----------

  method ReadPending(repo: Repository, limit: nat) returns (batch: seq<Snap>)
    ensures |batch| == |PendingScan(repo.Contents(), limit)|
    ensures forall i :: 0 <= i < |batch| ==> IsSnap(repo.Contents(), batch[i], PendingScan(repo.Contents(), limit)[i])
  {
    var ids := PendingScan(repo.Contents(), limit);
    ScanIsPending(repo.Contents(), limit);
    batch := ReadAll(repo, ids);
  }

  method ReadAll(repo: Repository, ids: seq<nat>) returns (batch: seq<Snap>)
    requires forall i :: 0 <= i < |ids| ==> ids[i] in repo.rows
    ensures |batch| == |ids| && forall i :: 0 <= i < |ids| ==> IsSnap(repo.Contents(), batch[i], ids[i])
  {
    batch := [];
    for i := 0 to |ids|
      invariant |batch| == i && forall j :: 0 <= j < i ==> IsSnap(repo.Contents(), batch[j], ids[j])
    {
      batch := batch + [SnapOf(repo.Contents(), ids[i])];
    }
  }

  lemma ScanIsPending(store: Store, limit: nat)
    ensures forall i :: 0 <= i < |PendingScan(store, limit)| ==> PendingScan(store, limit)[i] in store.rows
  {
    var all := Sorted(PendingIds(store));
    assert forall i :: 0 <= i < |all| ==> all[i] in all;
  }

  predicate Settles(before: Doc, after: Doc, ok: bool) {
    if ok then after == before.(state := Indexed, error := after.error) && after.error.None?
    else after == before.(state := Errored, error := after.error, attempts := before.attempts + 1) && after.error.Some?
  }

  /** The rows of a batch that nothing else has touched. */
  ghost predicate Current(store: Store, batch: seq<Snap>) {
    DistinctIds(batch) && forall i :: 0 <= i < |batch| ==>
                            batch[i].id in store.rows && store.rows[batch[i].id].state.Pending?
                                && batch[i] == SnapOf(store, batch[i].id)
  }

  ghost predicate InBatch(batch: seq<Snap>, id: nat) {
    exists i :: 0 <= i < |batch| && batch[i].id == id
  }

  ghost predicate Marked(before: Store, after: Store, batch: seq<Snap>, ok: bool) {
    after.nextId == before.nextId && after.rows.Keys == before.rows.Keys &&
    (forall i :: 0 <= i < |batch| ==>
      batch[i].id in before.rows && Settles(before.rows[batch[i].id], after.rows[batch[i].id], ok)) &&
    (forall id :: id in after.rows && !InBatch(batch, id) ==> after.rows[id] == before.rows[id])
  }

  method MarkBatch(repo: Repository, batch: seq<Snap>, ok: bool, error: string)
    requires Current(repo.Contents(), batch)
    modifies repo
    ensures Marked(old(repo.Contents()), repo.Contents(), batch, ok)
  {
    for i := 0 to |batch|
      invariant Marked(old(repo.Contents()), repo.Contents(), batch[..i], ok)
    {
      ghost var before := repo.Contents();
      UnmarkedYet(old(repo.Contents()), before, batch, i, ok);
      if ok {
        repo.MarkAsIndexed(batch[i].id, batch[i].hash);
      } else {
        repo.MarkAsError(batch[i].id, batch[i].hash, error);
      }
      OneMoreMarked(old(repo.Contents()), before, repo.Contents(), batch, i, ok);
    }
    assert batch[..|batch|] == batch;
  }

  lemma UnmarkedYet(start: Store, now: Store, batch: seq<Snap>, i: nat, ok: bool)
    requires i < |batch| && Current(start, batch) && Marked(start, now, batch[..i], ok)
    ensures batch[i].id in now.rows && now.rows[batch[i].id] == start.rows[batch[i].id]
  {
    assert !InBatch(batch[..i], batch[i].id);
  }

  lemma OneMoreMarked(start: Store, before: Store, after: Store, batch: seq<Snap>, i: nat, ok: bool)
    requires i < |batch| && DistinctIds(batch) && Marked(start, before, batch[..i], ok)
    requires batch[i].id in start.rows && batch[i].id in after.rows
             && Settles(start.rows[batch[i].id], after.rows[batch[i].id], ok)
    requires after == before.(rows := before.rows[batch[i].id := after.rows[batch[i].id]])
    ensures Marked(start, after, batch[..i + 1], ok)
  {
    var longer := batch[..i + 1];
    PrefixInBatch(batch, i);
    forall k | 0 <= k < |longer|
      ensures longer[k].id in start.rows && Settles(start.rows[longer[k].id], after.rows[longer[k].id], ok)
    {
      if k < i { assert batch[..i][k] == longer[k] && batch[k].id != batch[i].id; }
    }
  }

  lemma PrefixInBatch(batch: seq<Snap>, n: nat)
    requires n < |batch|
    ensures forall id :: InBatch(batch[..n + 1], id) <==> InBatch(batch[..n], id) || id == batch[n].id
  {
    forall id ensures InBatch(batch[..n + 1], id) <==> InBatch(batch[..n], id) || id == batch[n].id {
      if InBatch(batch[..n], id) {
        var i :| 0 <= i < n && batch[..n][i].id == id;
        assert batch[..n + 1][i].id == id;
      }
      assert batch[..n + 1][n] == batch[n];
      if InBatch(batch[..n + 1], id) {
        var i :| 0 <= i < n + 1 && batch[..n + 1][i].id == id;
        assert i < n ==> batch[..n][i].id == id;
      }
    }
  }

  // ---------- what one batch keeps ----------

  ghost predicate Sound(store: Store, committed: seq<Entry>, queue: seq<Op>) {
    Valid(store) && Agrees(store, committed) && QueueHarmless(store, queue)
  }

  ghost predicate Follows(committed: seq<Entry>, queue: seq<Op>, batch: seq<Snap>, committed': seq<Entry>,
                          queue': seq<Op>) {
    || (committed' == ApplyOps(committed, queue + BatchOps(batch)) && queue' == [])
    || (committed' == committed && (queue' == [] || QueuedPart(queue, queue', batch)))
  }

  lemma BatchKeepsSound(store: Store, committed: seq<Entry>, queue: seq<Op>, batch: seq<Snap>, committed': seq<Entry>,
                        queue': seq<Op>)
    requires Sound(store, committed, queue) && InFlight(store, batch)
    requires Follows(committed, queue, batch, committed', queue')
    ensures Sound(store, committed', queue')
    ensures committed' == ApplyOps(committed, queue + BatchOps(batch)) ==> Holds(committed', batch)
  {
    CommittedIndex(store, committed, queue, batch);
    if queue' != [] {
      var n :| 0 <= n <= |BatchOps(batch)| && queue' == queue + BatchOps(batch)[..n];
      LeftoversHarmless(store, queue, batch, n);
    }
  }

  lemma BatchLeavesKey(committed: seq<Entry>, queue: seq<Op>, batch: seq<Snap>, committed': seq<Entry>,
                       queue': seq<Op>, key: string)
    requires Follows(committed, queue, batch, committed', queue')
    requires !Touches(queue, key) && !HasKey(batch, key)
    ensures Under(committed', key) == Under(committed, key) && !Touches(queue', key)
  {
    BatchTouchesItsKeys(batch, key);
    TouchesConcat(queue, BatchOps(batch), key);
    UntouchedKey(committed, queue + BatchOps(batch), key);
    if queue' != [] && QueuedPart(queue, queue', batch) {
      var n :| 0 <= n <= |BatchOps(batch)| && queue' == queue + BatchOps(batch)[..n];
      PrefixTouches(BatchOps(batch), n, key);
      TouchesConcat(queue, BatchOps(batch)[..n], key);
    }
  }

  lemma MarkedKeepsIdentity(before: Store, after: Store, batch: seq<Snap>, ok: bool)
    requires Marked(before, after, batch, ok)
    ensures forall id :: id in after.rows ==>
              SameIdentity(before.rows[id], after.rows[id]) && after.rows[id].hash == before.rows[id].hash
    ensures forall id :: id in after.rows && InBatch(batch, id) ==> Settles(before.rows[id], after.rows[id], ok)
  {
    forall id | id in after.rows
      ensures SameIdentity(before.rows[id], after.rows[id]) && after.rows[id].hash == before.rows[id].hash
      ensures InBatch(batch, id) ==> Settles(before.rows[id], after.rows[id], ok)
    {
      if InBatch(batch, id) {
        var i :| 0 <= i < |batch| && batch[i].id == id;
        assert Settles(before.rows[batch[i].id], after.rows[batch[i].id], ok);
      }
    }
  }

  lemma MarkedKeepsSound(before: Store, after: Store, batch: seq<Snap>, ok: bool, committed: seq<Entry>, queue: seq<Op>)
    requires Sound(before, committed, queue) && Current(before, batch) && Marked(before, after, batch, ok)
    requires ok ==> queue == [] && Holds(committed, batch)
    ensures Sound(after, committed, queue)
  {
    MarkedKeepsIdentity(before, after, batch, ok);
    forall i, j | i in after.rows && j in after.rows && SameIdentity(after.rows[i], after.rows[j]) ensures i == j {
      assert SameIdentity(before.rows[i], before.rows[j]);
    }
    forall id | id in after.rows && after.rows[id].state.Indexed?
      ensures Under(committed, KeyOf(after.rows[id])) == [after.rows[id].hash] && !Touches(queue, KeyOf(after.rows[id]))
    {
      KeyFollowsIdentity(before.rows[id], after.rows[id]);
      if InBatch(batch, id) {
        var i :| 0 <= i < |batch| && batch[i].id == id;
        assert batch[i] == SnapOf(before, id);
      }
    }
  }

  // ---------- the drain ----------

  ghost predicate PendingKey(store: Store, key: string) {
    exists id :: id in store.rows && store.rows[id].state.Pending? && KeyOf(store.rows[id]) == key
  }

  /** Batch number `k` commits: its own fate is a commit and no panic has poisoned the lock before it. */
  ghost predicate BatchCommits(fates: nat -> Fate, poisoned: bool, k: nat) {
    !poisoned && fates(k).Commits? && forall i: nat :: i < k ==> !fates(i).Panics?
  }

  ghost predicate Among(p: seq<nat>, done: nat, id: nat)
    requires done <= |p|
  {
    exists j :: 0 <= j < done && p[j] == id
  }

  ghost predicate RowSettled(before: Store, after: Store, id: nat, ok: bool) {
    id in before.rows && id in after.rows && Settles(before.rows[id], after.rows[id], ok)
  }

  ghost predicate SettledAt(before: Store, after: Store, p: seq<nat>, j: nat, size: nat, fates: nat -> Fate,
                            poisoned: bool)
    requires size > 0 && j < |p|
  {
    RowSettled(before, after, p[j], BatchCommits(fates, poisoned, j / size))
  }

  /** The first `done` rows of `p` are settled, `size` at a time; all others are as before. */
  ghost predicate Settled(before: Store, after: Store, p: seq<nat>, done: nat, size: nat, fates: nat -> Fate,
                          poisoned: bool)
    requires size > 0 && done <= |p|
  {
    after.nextId == before.nextId && after.rows.Keys == before.rows.Keys &&
    (forall id :: id in after.rows && !Among(p, done, id) ==> after.rows[id] == before.rows[id]) &&
    (forall j: nat :: j < done ==> SettledAt(before, after, p, j, size, fates, poisoned))
  }

  lemma MulMonotone(a: int, b: int, size: nat)
    ensures a <= b ==> a * size <= b * size
  {
  }

  /** Of the rows in id order, row `j` is in batch `j / size`. */
  lemma BatchNumber(j: nat, k: nat, size: nat)
    requires size > 0 && k * size <= j
    ensures j / size >= k
    ensures j < k * size + size ==> j / size == k
  {
    MulMonotone(j / size + 1, k, size);
    MulMonotone(k + 1, j / size, size);
    assert j / size * size <= j < (j / size + 1) * size;
    assert (k + 1) * size == k * size + size;
  }

  lemma NotAmong(p: seq<nat>, done: nat, k: nat)
    requires Ascending(p) && done <= k < |p|
    ensures !Among(p, done, p[k])
  {
  }

  lemma PendingIsRest(before: Store, now: Store, p: seq<nat>, done: nat, size: nat, fates: nat -> Fate,
                      poisoned: bool, id: nat)
    requires Ascending(p) && (forall id :: id in p <==> id in PendingIds(before)) && done <= |p| && size > 0
    requires Settled(before, now, p, done, size, fates, poisoned)
    ensures id in PendingIds(now) <==> id in p[done..]
  {
    SettledIsNotPending(before, now, p, done, size, fates, poisoned, id);
    if id in PendingIds(now) {
      assert id in p;
      var j :| 0 <= j < |p| && p[j] == id;
      assert p[done..][j - done] == id;
    }
    if id in p[done..] {
      var j :| 0 <= j < |p| - done && p[done..][j] == id;
      NotAmong(p, done, done + j);
      assert p[done + j] in p;
    }
  }

  /** While a drain is under way, what is left to select is the rest of the initially pending rows. */
  lemma RestIsPending(before: Store, now: Store, p: seq<nat>, done: nat, size: nat, fates: nat -> Fate, poisoned: bool)
    requires p == Sorted(PendingIds(before)) && done <= |p| && size > 0
    requires Settled(before, now, p, done, size, fates, poisoned)
    ensures Sorted(PendingIds(now)) == p[done..]
    ensures |PendingIds(now)| == |p| - done
  {
    var rest := Sorted(PendingIds(now));
    forall id ensures id in rest <==> id in p[done..] {
      PendingIsRest(before, now, p, done, size, fates, poisoned, id);
    }
    AscendingUnique(rest, p[done..]);
  }

  lemma SettledIsNotPending(before: Store, now: Store, p: seq<nat>, done: nat, size: nat, fates: nat -> Fate,
                            poisoned: bool, id: nat)
    requires done <= |p| && size > 0
    requires Settled(before, now, p, done, size, fates, poisoned)
    ensures Among(p, done, id) ==> id !in PendingIds(now)
  {
    if Among(p, done, id) {
      var j: nat :| j < done && p[j] == id;
      assert SettledAt(before, now, p, j, size, fates, poisoned);
    }
  }

  predicate IsSnap(store: Store, snap: Snap, id: nat) {
    id in store.rows && snap == SnapOf(store, id)
  }

  ghost predicate IsNextBatch(store: Store, p: seq<nat>, done: nat, batch: seq<Snap>)
    requires done <= |p|
  {
    |batch| <= |p| - done &&
    forall i :: 0 <= i < |batch| ==> IsSnap(store, batch[i], p[done + i])
  }

  lemma BatchIsCurrent(store: Store, batch: seq<Snap>)
    requires IsNextBatch(store, Sorted(PendingIds(store)), 0, batch)
    ensures Current(store, batch) && InFlight(store, batch)
    ensures forall key :: HasKey(batch, key) ==> PendingKey(store, key)
  {
    var p := Sorted(PendingIds(store));
    forall i | 0 <= i < |batch|
      ensures batch[i].id == p[i] && p[i] in store.rows && store.rows[p[i]].state.Pending?
              && PendingKey(store, batch[i].key)
    {
      assert p[0 + i] in p;
    }
  }

  lemma SettledGrows(before: Store, now: Store, after: Store, p: seq<nat>, done: nat, size: nat, fates: nat -> Fate,
                     poisoned: bool, batch: seq<Snap>, ok: bool)
    requires Ascending(p) && done <= |p| && size > 0
    requires Settled(before, now, p, done, size, fates, poisoned) && IsNextBatch(now, p, done, batch)
    requires Marked(now, after, batch, ok)
    requires forall j: nat :: done <= j < done + |batch| ==> ok == BatchCommits(fates, poisoned, j / size)
    ensures Settled(before, after, p, done + |batch|, size, fates, poisoned)
  {
    var done' := done + |batch|;
    forall id | id in after.rows && !Among(p, done', id) ensures after.rows[id] == before.rows[id] {
      assert forall i :: 0 <= i < |batch| ==> p[done + i] == batch[i].id;
      assert !InBatch(batch, id) && !Among(p, done, id);
    }
    forall j: nat | j < done' ensures SettledAt(before, after, p, j, size, fates, poisoned) {
      if j < done {
        assert !InBatch(batch, p[j]);
        assert SettledAt(before, now, p, j, size, fates, poisoned);
      } else {
        assert batch[j - done].id == p[j];
        NotAmong(p, done, j);
      }
    }
  }

  function AtLeastOne(n: nat): (r: nat)
    ensures r > 0 && (n > 0 ==> r == n)
  {
    if n == 0 then 1 else n
  }

  /** Keys of no pending row, unless they linger in the queue, keep what the index holds under them. */
  ghost predicate OthersKept(store: Store, committed: seq<Entry>, queue: seq<Op>, committed': seq<Entry>,
                             queue': seq<Op>) {
    forall key :: !PendingKey(store, key) && !Touches(queue, key) ==>
                    Under(committed', key) == Under(committed, key) && !Touches(queue', key)
  }

  lemma BatchLeavesKeys(store: Store, committed: seq<Entry>, queue: seq<Op>, batch: seq<Snap>, committed': seq<Entry>,
                        queue': seq<Op>)
    requires Follows(committed, queue, batch, committed', queue')
    requires forall key :: HasKey(batch, key) ==> PendingKey(store, key)
    ensures OthersKept(store, committed, queue, committed', queue')
  {
    forall key | !PendingKey(store, key) && !Touches(queue, key)
      ensures Under(committed', key) == Under(committed, key) && !Touches(queue', key)
    {
      BatchLeavesKey(committed, queue, batch, committed', queue', key);
    }
  }

  /**
   One round of the drain. `batch` is what was selected; the other results say
   how its task ended.
   */
  method DrainBatch(repo: Repository, writer: Writer, size: nat, fate: Fate, error: string)
    returns (batch: seq<Snap>, result: BatchResult)
    requires Sound(repo.Contents(), writer.committed, writer.queue)
    modifies repo, writer
    ensures Sound(repo.Contents(), writer.committed, writer.queue)
    ensures var p := Sorted(PendingIds(old(repo.Contents())));
            |batch| == |Limit(p, size)| && IsNextBatch(old(repo.Contents()), p, 0, batch)
    ensures if |batch| == 0 || result.TaskFailed? then repo.Contents() == old(repo.Contents())
            else Marked(old(repo.Contents()), repo.Contents(), batch, result.Done?)
    ensures |batch| == 0 ==> writer.committed == old(writer.committed) && writer.queue == old(writer.queue)
    ensures writer.poisoned <==> old(writer.poisoned) || (|batch| > 0 && fate.Panics?)
    ensures |batch| > 0 ==> (result.Done? <==> !old(writer.poisoned) && fate.Commits?)
    ensures |batch| > 0 ==> (result.TaskFailed? <==> !old(writer.poisoned) && fate.Panics?)
    ensures OthersKept(old(repo.Contents()), old(writer.committed), old(writer.queue), writer.committed, writer.queue)
  {
    result := Failed;
    batch := ReadPending(repo, size);
    ghost var store, committed, queue := repo.Contents(), writer.committed, writer.queue;
    if |batch| == 0 {
      return;
    }
    BatchIsCurrent(store, batch);
    result := RunBatch(writer, batch, fate);
    BatchKeepsSound(store, committed, queue, batch, writer.committed, writer.queue);
    BatchLeavesKeys(store, committed, queue, batch, writer.committed, writer.queue);
    if result != TaskFailed {
      MarkBatch(repo, batch, result == Done, error);
      MarkedKeepsSound(store, repo.Contents(), batch, result == Done, writer.committed, writer.queue);
    }
  }

  /** How far `number` batches get: without a panic `size` rows each; a panic at batch `panicAt` poisons the rest. */
  ghost predicate Counted(fates: nat -> Fate, size: nat, total: nat, initially: bool, poisoned: bool, done: nat,
                          number: nat, panicAt: nat) {
    done <= total && (initially ==> poisoned) &&
    (!poisoned ==> (forall i: nat :: i < number ==> !fates(i).Panics?) && (done == total || done == number * size)) &&
    (poisoned && !initially ==> fates(panicAt).Panics? && panicAt * size <= done)
  }

  lemma BatchFate(fates: nat -> Fate, size: nat, total: nat, initially: bool, poisoned: bool, done: nat, number: nat,
                  panicAt: nat,
                  n: nat, ok: bool, j: nat)
    requires size > 0 && Counted(fates, size, total, initially, poisoned, done, number, panicAt)
    requires 0 < n <= size && done <= j < done + n <= total
    requires ok <==> !poisoned && fates(number).Commits?
    ensures ok == BatchCommits(fates, initially, j / size)
  {
    BatchNumber(j, if poisoned then if initially then 0 else panicAt else number, size);
  }

  lemma CountedGrows(fates: nat -> Fate, size: nat, total: nat, initially: bool, poisoned: bool, done: nat,
                     number: nat, panicAt: nat, n: nat)
    requires size > 0 && Counted(fates, size, total, initially, poisoned, done, number, panicAt)
    requires done < total && n == if size <= total - done then size else total - done
    ensures poisoned || !fates(number).Panics? ==>
              Counted(fates, size, total, initially, poisoned, done + n, number + 1, panicAt)
    ensures !poisoned && fates(number).Panics? ==>
              Counted(fates, size, total, initially, true, done, number + 1, number)
  {
    assert (number + 1) * size == number * size + size;
  }

  lemma NextBatchShifts(store: Store, p: seq<nat>, done: nat, batch: seq<Snap>)
    requires done <= |p| && IsNextBatch(store, p[done..], 0, batch)
    ensures IsNextBatch(store, p, done, batch)
  {
    forall i | 0 <= i < |batch| ensures IsSnap(store, batch[i], p[done + i]) {
      assert IsSnap(store, batch[i], p[done..][0 + i]);
    }
  }

  lemma RoundGrows(before: Store, now: Store, after: Store, p: seq<nat>, done: nat, number: nat, panicAt: nat,
                   size: nat,
                   fates: nat -> Fate, initially: bool, poisoned: bool, batch: seq<Snap>, ok: bool)
    requires size > 0 && Ascending(p) && done <= |p|
    requires Settled(before, now, p, done, size, fates, initially)
    requires Counted(fates, size, |p|, initially, poisoned, done, number, panicAt)
    requires |batch| == |Limit(p[done..], size)| && IsNextBatch(now, p[done..], 0, batch)
    requires Marked(now, after, batch, ok) && (ok <==> !poisoned && fates(number).Commits?)
    ensures done + |batch| <= |p| && Settled(before, after, p, done + |batch|, size, fates, initially)
  {
    NextBatchShifts(now, p, done, batch);
    forall j: nat | done <= j < done + |batch| ensures ok == BatchCommits(fates, initially, j / size) {
      BatchFate(fates, size, |p|, initially, poisoned, done, number, panicAt, |batch|, ok, j);
    }
    SettledGrows(before, now, after, p, done, size, fates, initially, batch, ok);
  }

  ghost predicate NoNewPendingKey(before: Store, after: Store) {
    forall key :: PendingKey(after, key) ==> PendingKey(before, key)
  }

  /** A panicked batch leaves the table alone; any other one settles its rows. */
  lemma RoundDone(before: Store, now: Store, after: Store, p: seq<nat>, done: nat, number: nat, panicAt: nat, size: nat,
                  fates: nat -> Fate, initially: bool, poisoned: bool, batch: seq<Snap>, result: BatchResult)
    requires size > 0 && Ascending(p) && done <= |p| && |batch| > 0
    requires Settled(before, now, p, done, size, fates, initially)
    requires Counted(fates, size, |p|, initially, poisoned, done, number, panicAt)
    requires |batch| == |Limit(p[done..], size)| && IsNextBatch(now, p[done..], 0, batch)
    requires if result.TaskFailed? then after == now else Marked(now, after, batch, result.Done?)
    requires result.Done? <==> !poisoned && fates(number).Commits?
    requires result.TaskFailed? <==> !poisoned && fates(number).Panics?
    requires NoNewPendingKey(before, now)
    ensures var done', panicAt' := if result.TaskFailed? then done else done + |batch|,
                                   if result.TaskFailed? then number else panicAt;
            && done' <= |p| && Settled(before, after, p, done', size, fates, initially)
            && Counted(fates, size, |p|, initially, poisoned || fates(number).Panics?, done', number + 1, panicAt')
            && NoNewPendingKey(before, after)
  {
    CountedGrows(fates, size, |p|, initially, poisoned, done, number, panicAt, |batch|);
    if !result.TaskFailed? {
      RoundGrows(before, now, after, p, done, number, panicAt, size, fates, initially, poisoned, batch, result.Done?);
      MarkedAddsNoPendingKey(now, after, batch, result.Done?);
    }
  }

  /**
   With no uploads in between, a drain ends, and it settles every pending row: the
   rows are taken in id order, `size` at a time; a row ends indexed exactly when
   its batch commits, and in error otherwise. Rows that were not pending and keys
   of no pending row are left alone. A panicked batch is tried again, so it costs
   one more batch, but only once.
   */
  method Drain(repo: Repository, writer: Writer, batchSize: nat, fates: nat -> Fate, errors: nat -> string)
    requires Sound(repo.Contents(), writer.committed, writer.queue)
    modifies repo, writer
    ensures Sound(repo.Contents(), writer.committed, writer.queue)
    ensures PendingIds(repo.Contents()) == {}
    ensures var p := Sorted(old(PendingIds(repo.Contents())));
            Settled(old(repo.Contents()), repo.Contents(), p, |p|, AtLeastOne(batchSize), fates, old(writer.poisoned))
    ensures OthersKept(old(repo.Contents()), old(writer.committed), old(writer.queue), writer.committed, writer.queue)
  {
    var size := AtLeastOne(batchSize);
    ghost var before, p := repo.Contents(), Sorted(PendingIds(repo.Contents()));
    ghost var done: nat, panicAt: nat := 0, 0;
    var number: nat := 0;
    while true
      invariant Counted(fates, size, |p|, old(writer.poisoned), writer.poisoned, done, number, panicAt)
      invariant Settled(before, repo.Contents(), p, done, size, fates, old(writer.poisoned))
      invariant Sound(repo.Contents(), writer.committed, writer.queue)
      invariant OthersKept(before, old(writer.committed), old(writer.queue), writer.committed, writer.queue)
      invariant NoNewPendingKey(before, repo.Contents())
      decreases |p| - done, !writer.poisoned
    {
      RestIsPending(before, repo.Contents(), p, done, size, fates, old(writer.poisoned));
      ghost var now, poisoned := repo.Contents(), writer.poisoned;
      var batch, result := DrainBatch(repo, writer, size, fates(number), errors(number));
      if |batch| == 0 {
        break;
      }
      RoundDone(before, now, repo.Contents(), p, done, number, panicAt, size, fates, old(writer.poisoned), poisoned,
                batch, result);
      if result == TaskFailed { panicAt := number; } else { done := done + |batch|; }
      number := number + 1;
    }
  }

  lemma MarkedAddsNoPendingKey(before: Store, after: Store, batch: seq<Snap>, ok: bool)
    requires Marked(before, after, batch, ok)
    ensures forall key :: PendingKey(after, key) ==> PendingKey(before, key)
  {
    MarkedKeepsIdentity(before, after, batch, ok);
    forall key | PendingKey(after, key) ensures PendingKey(before, key) {
      var id :| id in after.rows && after.rows[id].state.Pending? && KeyOf(after.rows[id]) == key;
      KeyFollowsIdentity(before.rows[id], after.rows[id]);
    }
  }

  // ---------- what a drain is for ----------

  ghost predicate FullyDrained(before: Store, after: Store, size: nat, fates: nat -> Fate) {
    var p := Sorted(PendingIds(before));
    size > 0 && (forall k :: fates(k).Commits?) && Settled(before, after, p, |p|, size, fates, false)
  }

  lemma Rank(p: seq<nat>, x: nat) returns (j: nat)
    requires x in p
    ensures j < |p| && p[j] == x
  {
    j :| j < |p| && p[j] == x;
  }

  lemma RowIsSettled(before: Store, after: Store, p: seq<nat>, size: nat, fates: nat -> Fate, j: nat)
    requires size > 0 && j < |p| && Settled(before, after, p, |p|, size, fates, false)
    ensures RowSettled(before, after, p[j], BatchCommits(fates, false, j / size))
  {
    assert SettledAt(before, after, p, j, size, fates, false);
  }

  lemma CommittedDrainMarksAll(before: Store, after: Store, size: nat, fates: nat -> Fate, id: nat)
    requires FullyDrained(before, after, size, fates)
    requires id in before.rows && before.rows[id].state.Pending?
    ensures RowSettled(before, after, id, true)
  {
    forall k: nat ensures BatchCommits(fates, false, k) { AllCommit(fates, k); }
    MarksAll(before, after, Sorted(PendingIds(before)), size, fates, id);
  }

  lemma MarksAll(before: Store, after: Store, p: seq<nat>, size: nat, fates: nat -> Fate, id: nat)
    requires size > 0 && (forall k: nat :: BatchCommits(fates, false, k))
             && Settled(before, after, p, |p|, size, fates, false) && id in p
    ensures RowSettled(before, after, id, true)
  {
    var j := Rank(p, id);
    RowIsSettled(before, after, p, size, fates, j);
    assert BatchCommits(fates, false, j / size);
  }

  lemma AllCommit(fates: nat -> Fate, k: nat)
    requires forall i :: fates(i).Commits?
    ensures BatchCommits(fates, false, k)
  {
  }

  /** If every batch commits, each row that was pending ends indexed, and the index holds exactly its version. */
  lemma CommittedDrainIndexesAll(before: Store, after: Store, size: nat, fates: nat -> Fate, committed: seq<Entry>,
                                 id: nat)
    requires FullyDrained(before, after, size, fates) && Agrees(after, committed)
    requires id in before.rows && before.rows[id].state.Pending?
    ensures id in after.rows && after.rows[id] == before.rows[id].(state := Indexed, error := Wrappers.None)
    ensures Under(committed, KeyOf(before.rows[id])) == [before.rows[id].hash]
  {
    CommittedDrainMarksAll(before, after, size, fates, id);
    KeyFollowsIdentity(before.rows[id], after.rows[id]);
  }

  /**
   Re-running after a crash: whether the drain starts from the committed index, or
   from the one a batch was already committed to before the crash lost its marks,
   a search finds the same versions under every key, whatever the batch sizes.
   */
  lemma RerunAfterCrash(before: Store, entries: seq<Entry>, batch: seq<Snap>,
                        after1: Store, size1: nat, fates1: nat -> Fate, committed1: seq<Entry>, queue1: seq<Op>,
                        after2: Store, size2: nat, fates2: nat -> Fate, committed2: seq<Entry>, queue2: seq<Op>,
                        key: string)
    requires Valid(before) && IsNextBatch(before, Sorted(PendingIds(before)), 0, batch)
    requires FullyDrained(before, after1, size1, fates1) && Sound(after1, committed1, queue1)
    requires OthersKept(before, entries, [], committed1, queue1)
    requires FullyDrained(before, after2, size2, fates2) && Sound(after2, committed2, queue2)
    requires OthersKept(before, ApplyOps(entries, BatchOps(batch)), [], committed2, queue2)
    ensures Under(committed1, key) == Under(committed2, key)
  {
    if PendingKey(before, key) {
      var id :| id in before.rows && before.rows[id].state.Pending? && KeyOf(before.rows[id]) == key;
      CommittedDrainIndexesAll(before, after1, size1, fates1, committed1, id);
      CommittedDrainIndexesAll(before, after2, size2, fates2, committed2, id);
    } else {
      BatchIsCurrent(before, batch);
      assert [] + BatchOps(batch) == BatchOps(batch);
      BatchLeavesKey(entries, [], batch, ApplyOps(entries, BatchOps(batch)), [], key);
    }
  }
}
