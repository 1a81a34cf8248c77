/** The invariant behind agreement of index and table, and the steps that always keep it. */
module IndexInvariant {
  import opened Wrappers
  import opened CanonicalStore
  import opened IndexWriter
  import opened IndexProtocol
  import Ordered

  // ---------- the invariant ----------

  /** The index an operator would serve: the active one, or the backup of an interrupted swap. */
  function Authoritative(s: Sys): seq<Entry> {
    var fallback := if s.rebuild.Moved? then OrElse(s.rebuild.previous, s.backup) else s.backup;
    var found := OrElse(s.active, fallback);
    if found.Some? then found.value else []
  }

  /** Every indexed row has exactly one entry under its key, built from its current hash. */
  ghost predicate Agrees(store: Store, entries: seq<Entry>) {
    forall id :: id in store.rows && store.rows[id].state.Indexed? ==>
      Under(entries, KeyOf(store.rows[id])) == [store.rows[id].hash]
  }

  ghost predicate Unindexed(store: Store, id: nat) {
    id in store.rows && !store.rows[id].state.Indexed?
  }

  ghost predicate Identifies(store: Store, snap: Snap) {
    snap.id in store.rows && snap.key == KeyOf(store.rows[snap.id])
  }

  ghost predicate DistinctIds(batch: seq<Snap>) {
    forall i, j :: 0 <= i < j < |batch| ==> batch[i].id != batch[j].id
  }

  /** The rows of a batch under way are identified, distinct and not indexed. */
  ghost predicate InFlight(store: Store, batch: seq<Snap>) {
    DistinctIds(batch) && forall i :: 0 <= i < |batch| ==> Identifies(store, batch[i]) && Unindexed(store, batch[i].id)
  }

  ghost predicate Selected(store: Store, todo: seq<nat>, batch: seq<Snap>) {
    (forall i :: 0 <= i < |todo| ==> Unindexed(store, todo[i])) &&
    (forall i, j :: 0 <= i < j < |todo| ==> todo[i] != todo[j]) &&
    (forall i, j :: 0 <= i < |todo| && 0 <= j < |batch| ==> todo[i] != batch[j].id)
  }

  /** What lingers in the writer's queue concerns no indexed row. */
  ghost predicate QueueHarmless(store: Store, queue: seq<Op>) {
    forall id :: id in store.rows && store.rows[id].state.Indexed? ==> !Touches(queue, KeyOf(store.rows[id]))
  }

  ghost predicate Holds(entries: seq<Entry>, snaps: seq<Snap>) {
    forall i :: 0 <= i < |snaps| ==> Under(entries, snaps[i].key) == [snaps[i].hash]
  }

  ghost predicate WorkerOk(store: Store, active: seq<Entry>, queue: seq<Op>, worker: Worker) {
    match worker
    case Idle => true
    case Reading(todo, batch) => InFlight(store, batch) && Selected(store, todo, batch)
    case MarkingIndexed(batch) => queue == [] && InFlight(store, batch) && Holds(active, batch)
    case MarkingErrors(batch) => InFlight(store, batch)
  }

  /** The manifest lists rows of the table, each once. */
  ghost predicate Lists(store: Store, manifest: seq<Snap>) {
    DistinctIds(manifest) && forall i :: 0 <= i < |manifest| ==> Identifies(store, manifest[i])
  }

  ghost predicate ServerOk(s: Sys) {
    s.server.Up? ==>
      s.active.Some? && QueueHarmless(s.store, s.server.queue)
          && WorkerOk(s.store, s.active.value, s.server.queue, s.server.worker)
  }

  ghost predicate RebuildOk(s: Sys) {
    match s.rebuild
    case NoRebuild => true
    case Scanning(guarded, after, manifest) =>
      Lists(s.store, manifest) && (guarded ==> s.active.Some? && s.server.Down?)
      && forall i :: 0 <= i < |manifest| ==> manifest[i].id <= after
    case Built(guarded, manifest) => Lists(s.store, manifest) && (guarded ==> s.active.Some? && s.server.Down?)
    case Moved(manifest, _) => Lists(s.store, manifest)
    case Installed(rest) => s.active.Some? && Lists(s.store, rest)
  }

  ghost predicate Inv(s: Sys) {
    Valid(s.store) && Agrees(s.store, Authoritative(s)) && ServerOk(s) && RebuildOk(s)
  }

  // ---------- steps on the store ----------

  lemma KeyFollowsIdentity(a: Doc, b: Doc)
    requires SameIdentity(a, b)
    ensures KeyOf(a) == KeyOf(b)
  {
  }

  lemma UnmarksKeepsAgreement(before: Store, after: Store, entries: seq<Entry>)
    requires Agrees(before, entries) && Unmarks(before, after)
    ensures Agrees(after, entries)
  {
  }

  lemma UnmarksKeepsInFlight(before: Store, after: Store, batch: seq<Snap>)
    requires InFlight(before, batch) && Unmarks(before, after)
    ensures InFlight(after, batch)
  {
  }

  lemma EvolvesKeepsRebuild(s: Sys, t: Sys)
    requires RebuildOk(s) && Evolves(s.store, t.store) && t.rebuild == s.rebuild
    requires (s.active.Some? ==> t.active.Some?) && (s.server.Down? ==> t.server.Down?)
    ensures RebuildOk(t)
  {
    match s.rebuild
    case NoRebuild =>
    case Scanning(_, _, manifest) => EvolvesKeepsLists(s.store, t.store, manifest);
    case Built(_, manifest) => EvolvesKeepsLists(s.store, t.store, manifest);
    case Moved(manifest, _) => EvolvesKeepsLists(s.store, t.store, manifest);
    case Installed(rest) => EvolvesKeepsLists(s.store, t.store, rest);
  }

  lemma EvolvesKeepsLists(before: Store, after: Store, manifest: seq<Snap>)
    requires Lists(before, manifest) && Evolves(before, after)
    ensures Lists(after, manifest)
  {
    forall i | 0 <= i < |manifest| ensures Identifies(after, manifest[i]) {
      assert Identifies(before, manifest[i]);
      KeyFollowsIdentity(before.rows[manifest[i].id], after.rows[manifest[i].id]);
    }
  }

  lemma UnmarksKeepsServer(s: Sys, after: Store)
    requires ServerOk(s) && Unmarks(s.store, after)
    ensures ServerOk(s.(store := after))
  {
    if s.server.Up? {
      match s.server.worker
      case Idle =>
      case Reading(todo, batch) => UnmarksKeepsInFlight(s.store, after, batch);
      case MarkingIndexed(batch) => UnmarksKeepsInFlight(s.store, after, batch);
      case MarkingErrors(batch) => UnmarksKeepsInFlight(s.store, after, batch);
    }
  }

  lemma UnmarksKeepsInv(s: Sys, after: Store)
    requires Inv(s) && Unmarks(s.store, after)
    ensures Inv(s.(store := after))
  {
    UnmarksKeepsServer(s, after);
    EvolvesKeepsRebuild(s, s.(store := after));
    UnmarksKeepsAgreement(s.store, after, Authoritative(s));
  }

  // ---------- worker steps ----------

  lemma InFlightKeys(store: Store, batch: seq<Snap>)
    requires Valid(store) && InFlight(store, batch)
    ensures DistinctKeys(batch)
    ensures forall id :: id in store.rows && store.rows[id].state.Indexed? ==> !HasKey(batch, KeyOf(store.rows[id]))
  {
    forall i, j | 0 <= i < j < |batch| ensures batch[i].key != batch[j].key {
      if batch[i].key == batch[j].key { KeysAreDistinct(store, batch[i].id, batch[j].id); }
    }
    forall id | id in store.rows && store.rows[id].state.Indexed? ensures !HasKey(batch, KeyOf(store.rows[id])) {
      forall i | 0 <= i < |batch| ensures batch[i].key != KeyOf(store.rows[id]) {
        if batch[i].key == KeyOf(store.rows[id]) { KeysAreDistinct(store, batch[i].id, id); }
      }
    }
  }

  /** Committing a batch, even behind leftovers of a failed one, keeps agreement and installs the batch. */
  lemma CommittedIndex(store: Store, active: seq<Entry>, queue: seq<Op>, batch: seq<Snap>)
    requires Valid(store) && Agrees(store, active) && QueueHarmless(store, queue) && InFlight(store, batch)
    ensures Agrees(store, ApplyOps(active, queue + BatchOps(batch)))
    ensures Holds(ApplyOps(active, queue + BatchOps(batch)), batch)
  {
    InFlightKeys(store, batch);
    ApplyConcat(active, queue, BatchOps(batch));
    var between := ApplyOps(active, queue);
    forall id | id in store.rows && store.rows[id].state.Indexed?
      ensures Under(ApplyOps(between, BatchOps(batch)), KeyOf(store.rows[id])) == [store.rows[id].hash]
    {
      UntouchedKey(active, queue, KeyOf(store.rows[id]));
      CommitReplaces(between, batch, KeyOf(store.rows[id]));
    }
    forall i | 0 <= i < |batch| ensures Under(ApplyOps(between, BatchOps(batch)), batch[i].key) == [batch[i].hash] {
      CommitReplaces(between, batch, batch[i].key);
    }
  }

  lemma LeftoversHarmless(store: Store, queue: seq<Op>, batch: seq<Snap>, n: nat)
    requires Valid(store) && QueueHarmless(store, queue) && InFlight(store, batch) && n <= |BatchOps(batch)|
    ensures QueueHarmless(store, queue + BatchOps(batch)[..n])
  {
    InFlightKeys(store, batch);
    forall id | id in store.rows && store.rows[id].state.Indexed?
      ensures !Touches(queue + BatchOps(batch)[..n], KeyOf(store.rows[id]))
    {
      var key := KeyOf(store.rows[id]);
      BatchTouchesItsKeys(batch, key);
      PrefixTouches(BatchOps(batch), n, key);
      TouchesConcat(queue, BatchOps(batch)[..n], key);
    }
  }

  lemma SelectKeeps(s: Sys, limit: nat)
    requires Inv(s) && Enabled(s, SelectPending(limit))
    ensures Inv(Apply(s, SelectPending(limit)))
  {
    var todo := PendingScan(s.store, limit);
    forall i | 0 <= i < |todo| ensures Unindexed(s.store, todo[i]) {
      assert todo[i] in Ordered.Sorted(PendingIds(s.store));
    }
  }

  lemma ReadKeeps(s: Sys)
    requires Inv(s) && Enabled(s, ReadNext)
    ensures Inv(Apply(s, ReadNext))
  {
  }

  lemma CommitKeeps(s: Sys)
    requires Inv(s) && Enabled(s, CommitBatch)
    ensures Inv(Apply(s, CommitBatch))
  {
    CommittedIndex(s.store, s.active.value, s.server.queue, s.server.worker.batch);
  }

  lemma FailKeeps(s: Sys, failure: Failure)
    requires Inv(s) && Enabled(s, FailBatch(failure))
    ensures Inv(DoFail(s, failure))
  {
    match failure
    case AfterCommit => CommittedIndex(s.store, s.active.value, s.server.queue, s.server.worker.batch);
    case BeforeCommit(n, _) => LeftoversHarmless(s.store, s.server.queue, s.server.worker.batch, n);
  }

  lemma PanicKeeps(s: Sys, n: nat)
    requires Inv(s) && Enabled(s, PanicInBatch(n))
    ensures Inv(Apply(s, PanicInBatch(n)))
  {
    LeftoversHarmless(s.store, s.server.queue, s.server.worker.batch, n);
  }

  /** Marking one version of an installed batch. */
  lemma MarkedRowAgrees(store: Store, entries: seq<Entry>, snap: Snap)
    requires Valid(store) && Agrees(store, entries) && Identifies(store, snap)
             && Under(entries, snap.key) == [snap.hash]
    ensures Agrees(MarkIndexed(store, snap.id, snap.hash), entries)
            && Agrees(MarkVersion(store, snap.id, snap.hash), entries)
    ensures Evolves(store, MarkIndexed(store, snap.id, snap.hash))
            && Evolves(store, MarkVersion(store, snap.id, snap.hash))
  {
    SetStateEvolves(store, snap.id, Indexed, None, store.rows[snap.id].attempts);
  }

  lemma MarkIndexedKeeps(s: Sys, written: bool)
    requires Inv(s) && Enabled(s, MarkNext(written)) && s.server.worker.MarkingIndexed? && |s.server.worker.batch| > 0
    ensures Inv(DoMark(s, written))
  {
    var s', snap, rest := DoMark(s, written), s.server.worker.batch[0], s.server.worker.batch[1..];
    assert Identifies(s.store, snap);
    MarkedRowAgrees(s.store, s.active.value, snap);
    EvolvesKeepsRebuild(s, s');
    assert InFlight(s'.store, rest) by {
      forall i | 0 <= i < |rest| ensures Identifies(s'.store, rest[i]) && Unindexed(s'.store, rest[i].id) {
        assert Identifies(s.store, s.server.worker.batch[i + 1]) && Unindexed(s.store, s.server.worker.batch[i + 1].id);
      }
    }
  }

  lemma MarkErrorKeeps(s: Sys, written: bool)
    requires Inv(s) && Enabled(s, MarkNext(written)) && s.server.worker.MarkingErrors? && |s.server.worker.batch| > 0
    ensures Inv(DoMark(s, written))
  {
    var Up(queue, poisoned, worker) := s.server;
    var snap, rest := worker.batch[0], worker.batch[1..];
    var t := s.(server := Up(queue, poisoned, MarkingErrors(rest)));
    assert InFlight(s.store, rest);
    assert Identifies(s.store, snap);
    SetStateEvolves(s.store, snap.id, Errored, Some("batch failed"), s.store.rows[snap.id].attempts + 1);
    if DoMark(s, written).store != s.store { UnmarksKeepsInv(t, DoMark(s, written).store); }
  }

  lemma MarkKeeps(s: Sys, written: bool)
    requires Inv(s) && Enabled(s, MarkNext(written))
    ensures Inv(DoMark(s, written))
  {
    if |s.server.worker.batch| > 0 {
      if s.server.worker.MarkingIndexed? { MarkIndexedKeeps(s, written); } else { MarkErrorKeeps(s, written); }
    }
  }

  // ---------- rebuild steps ----------

  lemma ScanKeeps(s: Sys)
    requires Inv(s) && Enabled(s, ScanNext)
    ensures Inv(DoScan(s))
  {
  }

  lemma SwapKeeps(s: Sys, step: Step)
    requires Inv(s) && Enabled(s, step)
    requires step.FinishScan? || (step.MoveActive? && s.server.Down?) || step.InstallFails? || step.StopRebuild?
    ensures Inv(Apply(s, step))
  {
  }
}
