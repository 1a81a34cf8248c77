/**
 Every step of uploads, worker and rebuild, with the exact condition under which it
 keeps the index in agreement with the indexed rows. Four steps have one: starting a
 server without an active index, and the two renames and the marks of a rebuild.
 */
module IndexSteps {
  import opened Wrappers
  import opened CanonicalStore
  import opened IndexWriter
  import opened IndexProtocol
  import opened IndexInvariant

  // ---------- installing a built index ----------

  lemma ManifestKeys(store: Store, manifest: seq<Snap>)
    requires Valid(store) && Lists(store, manifest)
    ensures DistinctKeys(manifest)
  {
    forall i, j | 0 <= i < j < |manifest| ensures manifest[i].key != manifest[j].key {
      assert Identifies(store, manifest[i]) && Identifies(store, manifest[j]);
      if manifest[i].key == manifest[j].key { KeysAreDistinct(store, manifest[i].id, manifest[j].id); }
    }
  }

  /** The row is listed with the hash it has now. */
  ghost predicate ListsVersion(store: Store, manifest: seq<Snap>, id: nat) {
    exists i :: 0 <= i < |manifest| && manifest[i].id == id && IsVersion(store, id, manifest[i].hash)
  }

  /** Every indexed row is listed with the hash it has now. */
  ghost predicate Covers(store: Store, manifest: seq<Snap>) {
    forall id :: id in store.rows && store.rows[id].state.Indexed? ==> ListsVersion(store, manifest, id)
  }

  /** What a freshly built index holds for a row. */
  lemma BuiltIndexHoldsRow(store: Store, manifest: seq<Snap>, id: nat)
    requires Valid(store) && Lists(store, manifest) && id in store.rows
    ensures Under(EntriesOf(manifest), KeyOf(store.rows[id])) == [store.rows[id].hash]
            <==> ListsVersion(store, manifest, id)
  {
    var key := KeyOf(store.rows[id]);
    ManifestKeys(store, manifest);
    BuiltIndexHolds(manifest, key);
    if HasKey(manifest, key) {
      var i :| 0 <= i < |manifest| && manifest[i].key == key;
      assert Identifies(store, manifest[i]);
      KeysAreDistinct(store, manifest[i].id, id);
      forall j | 0 <= j < |manifest| && manifest[j].id == id ensures j == i {}
    }
  }

  /** A built index agrees with the table exactly when every indexed row is listed with its current hash. */
  lemma BuiltIndexAgreesIff(store: Store, manifest: seq<Snap>)
    requires Valid(store) && Lists(store, manifest)
    ensures Agrees(store, EntriesOf(manifest)) <==> Covers(store, manifest)
  {
    forall id | id in store.rows
      ensures Under(EntriesOf(manifest), KeyOf(store.rows[id])) == [store.rows[id].hash]
              <==> ListsVersion(store, manifest, id)
    {
      BuiltIndexHoldsRow(store, manifest, id);
    }
  }

  /** Installing the built index keeps the invariant exactly when the manifest covers the indexed rows. */
  lemma InstallKeepsIff(s: Sys, removed: bool)
    requires Inv(s) && Enabled(s, Install(removed))
    ensures Inv(DoInstall(s, removed)) <==> Covers(s.store, s.rebuild.manifest)
  {
    BuiltIndexAgreesIff(s.store, s.rebuild.manifest);
  }

  // ---------- the rebuild's marks ----------

  /** Each listed row that still has the listed hash has exactly that hash under its key. */
  ghost predicate MarksHeld(store: Store, entries: seq<Entry>, snaps: seq<Snap>) {
    forall i :: 0 <= i < |snaps| && IsVersion(store, snaps[i].id, snaps[i].hash) ==>
        Under(entries, snaps[i].key) == [snaps[i].hash]
  }

  ghost predicate InWork(worker: Worker, id: nat) {
    match worker
    case Idle => false
    case Reading(todo, batch) => id in todo || exists i :: 0 <= i < |batch| && batch[i].id == id
    case MarkingIndexed(batch) => exists i :: 0 <= i < |batch| && batch[i].id == id
    case MarkingErrors(batch) => exists i :: 0 <= i < |batch| && batch[i].id == id
  }

  /**
   No listed row that still has the listed hash is in the worker's hands, or has operations left in
   the writer's queue.
   */
  ghost predicate MarksSpareServer(s: Sys, snaps: seq<Snap>) {
    s.server.Up? ==> forall i :: 0 <= i < |snaps| && IsVersion(s.store, snaps[i].id, snaps[i].hash) ==>
                                   !InWork(s.server.worker, snaps[i].id) && !Touches(s.server.queue, snaps[i].key)
  }

  /** The marks change states only: exactly the listed rows with the listed hash become indexed. */
  ghost predicate Marked(before: Store, after: Store, snaps: seq<Snap>) {
    && Evolves(before, after) && after.rows.Keys == before.rows.Keys
    && (forall id :: id in after.rows ==>
        after.rows[id].hash == before.rows[id].hash && KeyOf(after.rows[id]) == KeyOf(before.rows[id]))
    && (forall id :: id in after.rows && after.rows[id].state.Indexed? ==>
          before.rows[id].state.Indexed? || ListsVersion(before, snaps, id))
    && (forall i :: 0 <= i < |snaps| && IsVersion(before, snaps[i].id, snaps[i].hash) ==>
        after.rows[snaps[i].id].state.Indexed?)
    && (forall id :: id in before.rows && before.rows[id].state.Indexed? ==> after.rows[id].state.Indexed?)
  }

  lemma {:induction false} MarkVersionsMarks(store: Store, snaps: seq<Snap>)
    requires Valid(store)
    ensures Marked(store, MarkVersions(store, Versions(snaps)), snaps)
    decreases |snaps|
  {
    if |snaps| > 0 {
      var front, last := snaps[..|snaps| - 1], snaps[|snaps| - 1];
      MarkVersionsMarks(store, front);
      assert Versions(snaps)[..|snaps| - 1] == Versions(front);
      MarkOneMore(store, MarkVersions(store, Versions(front)), snaps);
    }
  }

  lemma MarkOneMore(before: Store, now: Store, snaps: seq<Snap>)
    requires |snaps| > 0 && Marked(before, now, snaps[..|snaps| - 1])
    ensures Marked(before, MarkVersion(now, snaps[|snaps| - 1].id, snaps[|snaps| - 1].hash), snaps)
  {
    var front, last := snaps[..|snaps| - 1], snaps[|snaps| - 1];
    var after := MarkVersion(now, last.id, last.hash);
    if IsVersion(now, last.id, last.hash) {
      SetStateEvolves(now, last.id, Indexed, None, now.rows[last.id].attempts);
    }
    forall id | id in after.rows && after.rows[id].state.Indexed? && !before.rows[id].state.Indexed?
      ensures ListsVersion(before, snaps, id)
    {
      if now.rows[id].state.Indexed? {
        var i :| 0 <= i < |front| && front[i].id == id && IsVersion(before, id, front[i].hash);
        assert snaps[i].id == id && IsVersion(before, id, snaps[i].hash);
      } else {
        assert snaps[|snaps| - 1].id == id && IsVersion(before, id, snaps[|snaps| - 1].hash);
      }
    }
    forall i | 0 <= i < |snaps| && IsVersion(before, snaps[i].id, snaps[i].hash)
      ensures after.rows[snaps[i].id].state.Indexed?
    {
      if i < |front| { assert front[i] == snaps[i]; }
    }
  }

  /**
   A mark transaction keeps agreement exactly when each listed row that still has
   the listed hash has exactly that hash under its key in the index.
   */
  lemma MarksAgreeIff(store: Store, entries: seq<Entry>, snaps: seq<Snap>)
    requires Valid(store) && Agrees(store, entries) && Lists(store, snaps)
    ensures Agrees(MarkVersions(store, Versions(snaps)), entries) <==> MarksHeld(store, entries, snaps)
  {
    var after := MarkVersions(store, Versions(snaps));
    MarkVersionsMarks(store, snaps);
    if Agrees(after, entries) {
      forall i | 0 <= i < |snaps| && IsVersion(store, snaps[i].id, snaps[i].hash)
        ensures Under(entries, snaps[i].key) == [snaps[i].hash]
      {
        assert Identifies(store, snaps[i]);
        assert after.rows[snaps[i].id].state.Indexed?;
      }
    }
    if MarksHeld(store, entries, snaps) {
      forall id | id in after.rows && after.rows[id].state.Indexed?
        ensures Under(entries, KeyOf(after.rows[id])) == [after.rows[id].hash]
      {
        if !store.rows[id].state.Indexed? {
          var i :| 0 <= i < |snaps| && snaps[i].id == id && IsVersion(store, id, snaps[i].hash);
          assert Identifies(store, snaps[i]);
        }
      }
    }
  }

  ghost predicate WorkUnindexed(store: Store, worker: Worker) {
    forall id :: InWork(worker, id) ==> Unindexed(store, id)
  }

  lemma WorkIsUnindexed(s: Sys)
    requires ServerOk(s) && s.server.Up?
    ensures WorkUnindexed(s.store, s.server.worker)
  {
  }

  /** The marks keep the worker's rows unindexed and its queue harmless exactly when they spare both. */
  lemma MarksSpareIff(s: Sys, snaps: seq<Snap>)
    requires Valid(s.store) && ServerOk(s) && s.server.Up? && Lists(s.store, snaps)
    ensures var after := MarkVersions(s.store, Versions(snaps));
            WorkUnindexed(after, s.server.worker) && QueueHarmless(after, s.server.queue) <==>
            MarksSpareServer(s, snaps)
  {
    var after := MarkVersions(s.store, Versions(snaps));
    MarkVersionsMarks(s.store, snaps);
    WorkIsUnindexed(s);
    if WorkUnindexed(after, s.server.worker) && QueueHarmless(after, s.server.queue) {
      forall i | 0 <= i < |snaps| && IsVersion(s.store, snaps[i].id, snaps[i].hash)
        ensures !InWork(s.server.worker, snaps[i].id) && !Touches(s.server.queue, snaps[i].key)
      {
        assert Identifies(s.store, snaps[i]);
        assert after.rows[snaps[i].id].state.Indexed?;
        assert !Unindexed(after, snaps[i].id);
      }
    }
    if MarksSpareServer(s, snaps) {
      forall id | id in after.rows && after.rows[id].state.Indexed?
        ensures !InWork(s.server.worker, id) && !Touches(s.server.queue, KeyOf(after.rows[id]))
      {
        if !s.store.rows[id].state.Indexed? {
          var i :| 0 <= i < |snaps| && snaps[i].id == id && IsVersion(s.store, id, snaps[i].hash);
          assert Identifies(s.store, snaps[i]);
        } else {
          assert !Unindexed(s.store, id);
        }
      }
    }
  }

  lemma MarksKeepInFlight(before: Store, after: Store, batch: seq<Snap>)
    requires InFlight(before, batch) && after.rows.Keys == before.rows.Keys
    requires forall id :: id in after.rows ==> KeyOf(after.rows[id]) == KeyOf(before.rows[id])
    requires forall i :: 0 <= i < |batch| ==> Unindexed(after, batch[i].id)
    ensures InFlight(after, batch)
  {
    forall i | 0 <= i < |batch| ensures Identifies(after, batch[i]) && Unindexed(after, batch[i].id) {
      assert Identifies(before, batch[i]);
    }
  }

  /** Given what is left unindexed, the worker is where it was. */
  lemma MarksKeepServer(s: Sys, after: Store, snaps: seq<Snap>)
    requires ServerOk(s) && s.server.Up? && Marked(s.store, after, snaps)
    ensures ServerOk(s.(store := after))
            <==> WorkUnindexed(after, s.server.worker) && QueueHarmless(after, s.server.queue)
  {
    if ServerOk(s.(store := after)) { WorkIsUnindexed(s.(store := after)); }
    if WorkUnindexed(after, s.server.worker) && QueueHarmless(after, s.server.queue) {
      match s.server.worker
      case Idle =>
      case Reading(todo, batch) =>
        assert forall i :: 0 <= i < |batch| ==> InWork(s.server.worker, batch[i].id);
        assert forall i :: 0 <= i < |todo| ==> InWork(s.server.worker, todo[i]);
        MarksKeepInFlight(s.store, after, batch);
      case MarkingIndexed(batch) =>
        assert forall i :: 0 <= i < |batch| ==> InWork(s.server.worker, batch[i].id);
        MarksKeepInFlight(s.store, after, batch);
      case MarkingErrors(batch) =>
        assert forall i :: 0 <= i < |batch| ==> InWork(s.server.worker, batch[i].id);
        MarksKeepInFlight(s.store, after, batch);
    }
  }

  /** The marks of a rebuild are harmless for the index and for the worker. */
  ghost predicate MarksHarmless(s: Sys, snaps: seq<Snap>) {
    s.active.Some? && MarksHeld(s.store, s.active.value, snaps) && MarksSpareServer(s, snaps)
  }

  lemma MarkChunkKeepsIff(s: Sys, n: nat)
    requires Inv(s) && Enabled(s, MarkChunk(n))
    ensures Inv(Apply(s, MarkChunk(n))) <==> MarksHarmless(s, s.rebuild.rest[..n])
  {
    var chunk, t := s.rebuild.rest[..n], Apply(s, MarkChunk(n));
    assert Lists(s.store, chunk) by {
      forall i | 0 <= i < |chunk|
        ensures Identifies(s.store, chunk[i]) { assert Identifies(s.store, s.rebuild.rest[i]); }
    }
    MarkVersionsMarks(s.store, chunk);
    MarksAgreeIff(s.store, s.active.value, chunk);
    RestStaysListed(s, n);
    if s.server.Up? {
      MarksSpareIff(s, chunk);
      MarksKeepServer(s, t.store, chunk);
      assert ServerOk(t) == ServerOk(s.(store := t.store));
    }
  }

  lemma RestStaysListed(s: Sys, n: nat)
    requires Inv(s) && Enabled(s, MarkChunk(n))
    ensures RebuildOk(Apply(s, MarkChunk(n)))
  {
    var rest, after := s.rebuild.rest[n..], Apply(s, MarkChunk(n)).store;
    MarkVersionsMarks(s.store, s.rebuild.rest[..n]);
    assert Lists(s.store, rest) by {
      forall i | 0 <= i < |rest|
        ensures Identifies(s.store, rest[i]) { assert Identifies(s.store, s.rebuild.rest[n + i]); }
    }
    EvolvesKeepsLists(s.store, after, rest);
  }

  // ---------- every step ----------

  ghost predicate NothingIndexed(store: Store) {
    forall id :: id in store.rows ==> !store.rows[id].state.Indexed?
  }

  /** Starting the server while no index directory is active creates an empty index. */
  lemma StartKeepsIff(s: Sys)
    requires Inv(s) && Enabled(s, StartServer)
    ensures Inv(Apply(s, StartServer)) <==> (s.active.None? ==> NothingIndexed(s.store))
  {
    if s.active.None? && !NothingIndexed(s.store) {
      var id :| id in s.store.rows && s.store.rows[id].state.Indexed?;
      assert Under([], KeyOf(s.store.rows[id])) == [];
    }
  }

  /** Moving the active directory away takes it from a server that has it open. */
  lemma MoveKeepsIff(s: Sys)
    requires Inv(s) && Enabled(s, MoveActive)
    ensures Inv(Apply(s, MoveActive)) <==> s.server.Down?
  {
    if s.server.Down? { SwapKeeps(s, MoveActive); }
  }

  /** What four of the steps need beyond being possible. */
  ghost predicate Careful(s: Sys, step: Step)
    requires Enabled(s, step)
  {
    match step
    case StartServer => s.active.None? ==> NothingIndexed(s.store)
    case MoveActive => s.server.Down?
    case Install(_) => Covers(s.store, s.rebuild.manifest)
    case MarkChunk(n) => MarksHarmless(s, s.rebuild.rest[..n])
    case _ => true
  }

  /** Every step keeps the invariant, and four kinds of steps keep it exactly when they are careful. */
  lemma StepKeepsInvIff(s: Sys, step: Step)
    requires Inv(s) && Enabled(s, step)
    ensures Inv(Apply(s, step)) <==> Careful(s, step)
  {
    match step
    case Upload(m) =>
      UpsertEvolves(s.store, m);
      UnmarksKeepsInv(s, Upsert(s.store, m));
    case RequeueDoc(source, sourceId) =>
      RequeueEvolves(s.store, source, sourceId);
      UnmarksKeepsInv(s, Requeue(s.store, source, sourceId));
    case StartServer => StartKeepsIff(s);
    case SelectPending(limit) => SelectKeeps(s, limit);
    case ReadNext => ReadKeeps(s);
    case CommitBatch => CommitKeeps(s);
    case FailBatch(failure) => FailKeeps(s, failure);
    case PanicInBatch(n) => PanicKeeps(s, n);
    case MarkNext(written) => MarkKeeps(s, written);
    case StartRebuild =>
    case ScanNext => ScanKeeps(s);
    case FinishScan => SwapKeeps(s, step);
    case MoveActive => MoveKeepsIff(s);
    case Install(removed) => InstallKeepsIff(s, removed);
    case InstallFails(_) => SwapKeeps(s, step);
    case MarkChunk(n) => MarkChunkKeepsIff(s, n);
    case StopServer =>
    case StopRebuild => SwapKeeps(s, step);
    case RestoreBackup =>
  }
}
