/**
 Runs in which no server is started while a rebuild is under way, as the operator
 is asked to do it: then every step is careful, whatever is uploaded meanwhile.
 */
module IndexAlone {
  import opened Wrappers
  import opened CanonicalStore
  import opened IndexWriter
  import opened IndexProtocol
  import opened IndexInvariant
  import opened IndexSteps

  /** A listed row that is indexed still has the listed hash. */
  ghost predicate Listed(store: Store, manifest: seq<Snap>) {
    Lists(store, manifest) &&
    forall i :: 0 <= i < |manifest| && store.rows[manifest[i].id].state.Indexed? ==>
        store.rows[manifest[i].id].hash == manifest[i].hash
  }

  ghost predicate HasId(manifest: seq<Snap>, id: nat) {
    exists i :: 0 <= i < |manifest| && manifest[i].id == id
  }

  ghost predicate ListsIndexed(store: Store, manifest: seq<Snap>) {
    forall id :: id in store.rows && store.rows[id].state.Indexed? ==> HasId(manifest, id)
  }

  /** No server is up during a rebuild, and the rebuild has missed no change that matters. */
  ghost predicate Alone(s: Sys) {
    Inv(s) && (s.rebuild.NoRebuild? || s.server.Down?) &&
    match s.rebuild
    case NoRebuild => true
    case Scanning(_, after, manifest) =>
      Listed(s.store, manifest) && after < s.store.nextId
      && forall id :: id in s.store.rows && id <= after ==> HasId(manifest, id)
    case Built(_, manifest) => Listed(s.store, manifest) && ListsIndexed(s.store, manifest)
    case Moved(manifest, _) => s.active.None? && Listed(s.store, manifest) && ListsIndexed(s.store, manifest)
    case Installed(rest) => Holds(s.active.value, rest)
  }

  /**
   A server is only started while no rebuild is under way, and without an active index only while
   nothing is indexed.
   */
  ghost predicate Separate(s: Sys, step: Step) {
    step.StartServer? ==> s.rebuild.NoRebuild? && (s.active.None? ==> NothingIndexed(s.store))
  }

  lemma UnmarksKeepsListed(before: Store, after: Store, manifest: seq<Snap>)
    requires Listed(before, manifest) && Unmarks(before, after)
    ensures Listed(after, manifest)
  {
    EvolvesKeepsLists(before, after, manifest);
  }

  lemma UnmarksKeepsAlone(s: Sys, after: Store)
    requires Alone(s) && Unmarks(s.store, after)
    ensures Alone(s.(store := after))
  {
    UnmarksKeepsInv(s, after);
    match s.rebuild
    case NoRebuild =>
    case Scanning(_, _, manifest) => UnmarksKeepsListed(s.store, after, manifest);
    case Built(_, manifest) => UnmarksKeepsListed(s.store, after, manifest);
    case Moved(manifest, _) => UnmarksKeepsListed(s.store, after, manifest);
    case Installed(_) =>
  }

  lemma ListedCovers(store: Store, manifest: seq<Snap>)
    requires Listed(store, manifest) && ListsIndexed(store, manifest)
    ensures Covers(store, manifest)
  {
    forall id | id in store.rows && store.rows[id].state.Indexed? ensures ListsVersion(store, manifest, id) {
      assert HasId(manifest, id);
      var i :| 0 <= i < |manifest| && manifest[i].id == id;
      assert IsVersion(store, id, manifest[i].hash);
    }
  }

  lemma ScanStaysAlone(s: Sys)
    requires Alone(s) && Enabled(s, ScanNext)
    ensures Alone(DoScan(s))
  {
    var Scanning(_, after, manifest) := s.rebuild;
    var id := NextAfter(s.store, after);
    var manifest' := manifest + [SnapOf(s.store, id)];
    ScanKeeps(s);
    forall other | other in s.store.rows && other <= id ensures HasId(manifest', other) {
      if other <= after {
        var i :| 0 <= i < |manifest| && manifest[i].id == other;
        assert manifest'[i].id == other;
      } else {
        assert manifest'[|manifest|].id == other;
      }
    }
  }

  lemma FinishStaysAlone(s: Sys)
    requires Alone(s) && Enabled(s, FinishScan)
    ensures Alone(DoFinishScan(s))
  {
    SwapKeeps(s, FinishScan);
    assert forall id :: id in s.store.rows && id > s.rebuild.after ==> id in Later(s.store, s.rebuild.after);
  }

  lemma InstallStaysAlone(s: Sys, removed: bool)
    requires Alone(s) && Enabled(s, Install(removed))
    ensures Careful(s, Install(removed)) && Alone(DoInstall(s, removed))
  {
    var manifest := s.rebuild.manifest;
    ListedCovers(s.store, manifest);
    InstallKeepsIff(s, removed);
    ManifestKeys(s.store, manifest);
    forall i | 0 <= i < |manifest| ensures Under(EntriesOf(manifest), manifest[i].key) == [manifest[i].hash] {
      BuiltIndexHolds(manifest, manifest[i].key);
    }
  }

  lemma MarksStayAlone(s: Sys, n: nat)
    requires Alone(s) && Enabled(s, MarkChunk(n))
    ensures Careful(s, MarkChunk(n)) && Alone(Apply(s, MarkChunk(n)))
  {
    MarkChunkKeepsIff(s, n);
  }

  lemma StepStaysAlone(s: Sys, step: Step)
    requires Alone(s) && Enabled(s, step) && Separate(s, step)
    ensures Careful(s, step) && Alone(Apply(s, step))
  {
    match step
    case Upload(m) =>
      UpsertEvolves(s.store, m);
      UnmarksKeepsAlone(s, Upsert(s.store, m));
    case RequeueDoc(source, sourceId) =>
      RequeueEvolves(s.store, source, sourceId);
      UnmarksKeepsAlone(s, Requeue(s.store, source, sourceId));
    case ScanNext => ScanStaysAlone(s);
    case FinishScan => FinishStaysAlone(s);
    case Install(removed) => InstallStaysAlone(s, removed);
    case MarkChunk(n) => MarksStayAlone(s, n);
    case _ => StepKeepsInvIff(s, step);
  }
}
