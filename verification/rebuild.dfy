/**
 The offline rebuild of mailindex on a file tree: build next to the active index,
 swap by two renames, mark the rows from the manifest. Every operation may fail,
 or the process may die there; uploads and requeues go on meanwhile.
 */
module Rebuild {
  import opened Wrappers
  import opened CanonicalStore
  import opened IndexAlone
  import opened IndexInvariant
  import opened IndexProtocol
  import opened IndexRuns
  import opened IndexSteps
  import opened IndexWriter
  import Ordered

  // ---------- the file tree ----------

  /** What becomes of an operation: a crash takes the process down before it. */
  datatype Fate = Works | Fails | Crashes

  datatype Status = Done | Error | Crash

  /** An index directory holds committed entries; a removal that was cut short leaves a damaged one. */
  datatype Dir = Index(entries: seq<Entry>) | Damaged

  class FileTree {
    var dirs: map<string, Dir>
    var files: map<string, seq<Snap>>

    constructor (dirs: map<string, Dir>, files: map<string, seq<Snap>>)
      ensures this.dirs == dirs && this.files == files
    {
      this.dirs, this.files := dirs, files;
    }

    predicate Exists(path: string)
      reads this
    {
      path in dirs || path in files
    }

    method Rename(from: string, to: string, fate: Fate) returns (status: Status)
      requires from in dirs && to !in dirs
      modifies `dirs
      ensures status == StatusOf(fate)
      ensures dirs == if fate.Works? then (old(dirs) - {from})[to := old(dirs)[from]] else old(dirs)
    {
      if fate == Works {
        var dir := dirs[from];
        dirs := (dirs - {from})[to := dir];
      }
      status := StatusOf(fate);
    }

    method RemoveDir(path: string, fate: Fate) returns (status: Status)
      requires path in dirs
      modifies `dirs
      ensures status == StatusOf(fate)
      ensures dirs == if fate.Works? then old(dirs) - {path} else old(dirs)[path := Damaged]
    {
      dirs := if fate == Works then dirs - {path} else dirs[path := Damaged];
      status := StatusOf(fate);
    }

    method RemoveFile(path: string, fate: Fate) returns (status: Status)
      modifies `files
      ensures status == StatusOf(fate)
      ensures files == if fate.Works? then old(files) - {path} else old(files)
    {
      if fate == Works {
        files := files - {path};
      }
      status := StatusOf(fate);
    }
  }

  function StatusOf(fate: Fate): Status {
    match fate
    case Works => Done
    case Fails => Error
    case Crashes => Crash
  }

  function EntriesAt(dirs: map<string, Dir>, path: string): Option<seq<Entry>> {
    if path in dirs && dirs[path].Index? then Some(dirs[path].entries) else None
  }

  /** A fresh name next to the base, tried 16 times. */
  method UniqueSibling(tree: FileTree, base: string, tag: string, uuids: nat -> string) returns (path: Option<string>)
    ensures path.Some? ==>
              !tree.Exists(path.value) && exists i: nat :: i < 16 && path.value == Sibling(base, tag, uuids(i))
    ensures path.None? ==> forall i: nat :: i < 16 ==> tree.Exists(Sibling(base, tag, uuids(i)))
    ensures path.Some? <==> HasFreeName(tree, base, tag, uuids)
  {
    for i := 0 to 16
      invariant forall j: nat :: j < i ==> tree.Exists(Sibling(base, tag, uuids(j)))
    {
      var candidate := Sibling(base, tag, uuids(i));
      if !tree.Exists(candidate) {
        return Some(candidate);
      }
    }
    path := None;
  }

  ghost predicate HasFreeName(tree: FileTree, base: string, tag: string, uuids: nat -> string)
    reads tree
  {
    exists i: nat :: i < 16 && !tree.Exists(Sibling(base, tag, uuids(i)))
  }

  function Sibling(base: string, tag: string, uuid: string): string {
    base + "." + tag + "-" + uuid
  }

  function ManifestOf(tmp: string): string {
    tmp + ".versions"
  }

  lemma SiblingsDiffer(base: string, u: string, v: string)
    ensures Sibling(base, "rebuild", u) != Sibling(base, "backup", v)
    ensures Sibling(base, "rebuild", u) != base && Sibling(base, "backup", v) != base
    ensures ManifestOf(Sibling(base, "rebuild", u)) != Sibling(base, "backup", v)
    ensures ManifestOf(Sibling(base, "rebuild", u)) != base
            && ManifestOf(Sibling(base, "rebuild", u)) != Sibling(base, "rebuild", u)
  {
    var a, b, m := Sibling(base, "rebuild", u), Sibling(base, "backup", v), ManifestOf(Sibling(base, "rebuild", u));
    assert a[|base| + 1] == 'r' && b[|base| + 1] == 'b' && m[|base| + 1] == 'r';
  }

  // ---------- uploads and requeues while the rebuild runs ----------

  datatype Traffic = Arrives(m: Message) | Requeued(source: string, sourceId: string)

  ghost predicate AddsNoRows(traffic: seq<Traffic>) {
    forall i :: 0 <= i < |traffic| ==> traffic[i].Requeued?
  }

  method Interfere(repo: Repository, traffic: seq<Traffic>)
    requires Valid(repo.Contents())
    modifies repo
    ensures Unmarks(old(repo.Contents()), repo.Contents())
    ensures AddsNoRows(traffic) ==> repo.rows.Keys == old(repo.rows.Keys)
  {
    for i := 0 to |traffic|
      invariant Unmarks(old(repo.Contents()), repo.Contents())
      invariant AddsNoRows(traffic) ==> repo.rows.Keys == old(repo.rows.Keys)
    {
      ghost var before := repo.Contents();
      match traffic[i]
      case Arrives(m) =>
        UpsertEvolves(before, m);
        var _, _ := repo.Upload(m);
        UnmarksTransitive(old(repo.Contents()), before, repo.Contents());
      case Requeued(source, sourceId) =>
        RequeueEvolves(before, source, sourceId);
        var _ := repo.RequeueDocument(source, sourceId);
        UnmarksTransitive(old(repo.Contents()), before, repo.Contents());
    }
  }

  lemma UnmarksTransitive(a: Store, b: Store, c: Store)
    requires Unmarks(a, b) && Unmarks(b, c)
    ensures Unmarks(a, c)
  {
  }

  // ---------- building ----------

  /** In an ascending scan each row is the next one after its predecessor. */
  lemma ScanIsNext(store: Store, after: nat, limit: nat, i: nat)
    requires i < |ScanAfter(store, after, limit)|
    ensures var ids := ScanAfter(store, after, limit);
            var last := if i == 0 then after else ids[i - 1];
            RowsAfter(store, last) && NextAfter(store, last) == ids[i]
  {
    var ids := ScanAfter(store, after, limit);
    var all := Ordered.Sorted(set id | id in store.rows && id > after);
    var last := if i == 0 then after else ids[i - 1];
    assert all[i] in all;
    assert i > 0 ==> all[i - 1] in all;
    assert ids[i] in Later(store, last);
    forall other | other in store.rows && other > last ensures ids[i] <= other {
      assert other in all;
      var k :| 0 <= k < |all| && all[k] == other;
      if i > 0 { ValueOrder(all, i - 1, k); }
      ValueOrder(all, k, i);
    }
  }

  lemma ValueOrder(s: seq<nat>, j: nat, k: nat)
    requires Ordered.Ascending(s) && j < |s| && k < |s|
    ensures s[j] < s[k] <==> j < k
  {
  }

  lemma EmptyScan(store: Store, after: nat, limit: nat)
    requires limit > 0 && |ScanAfter(store, after, limit)| == 0
    ensures !RowsAfter(store, after)
  {
    var later := set id | id in store.rows && id > after;
    assert later == Later(store, after);
    assert |Ordered.Sorted(later)| == |later|;
  }

  lemma LaterShrinks(store: Store, after: nat, next: nat)
    requires next in Later(store, after)
    ensures |Later(store, next)| < |Later(store, after)|
  {
    assert Later(store, next) <= Later(store, after) - {next};
    SubsetIsSmaller(Later(store, next), Later(store, after) - {next});
  }

  lemma {:induction false} SubsetIsSmaller(a: set<nat>, b: set<nat>)
    requires a <= b
    ensures |a| <= |b|
    decreases |a|
  {
    if |a| > 0 {
      var x :| x in a;
      SubsetIsSmaller(a - {x}, b - {x});
    }
  }

  function Ids(manifest: seq<Snap>): set<nat> {
    set i | 0 <= i < |manifest| :: manifest[i].id
  }

  lemma {:induction false} IdsCount(manifest: seq<Snap>)
    requires DistinctIds(manifest)
    ensures |Ids(manifest)| == |manifest|
  {
    if |manifest| > 0 {
      var front, last := manifest[..|manifest| - 1], manifest[|manifest| - 1];
      IdsCount(front);
      forall id ensures id in Ids(manifest) <==> id in Ids(front) + {last.id} {
        if id in Ids(front) {
          var i :| 0 <= i < |front| && front[i].id == id;
          assert manifest[i].id == id;
        }
        if id in Ids(manifest) {
          var i :| 0 <= i < |manifest| && manifest[i].id == id;
          assert i < |front| ==> front[i].id == id;
        }
      }
      assert Ids(manifest) == Ids(front) + {last.id};
      assert last.id !in Ids(front);
    }
  }

  /** Equal counts mean that the scan has seen every row of the table. */
  lemma EqualCountsMeanComplete(store: Store, manifest: seq<Snap>, after: nat)
    requires Listed(store, manifest) && |manifest| == |store.rows|
    requires forall i :: 0 <= i < |manifest| ==> manifest[i].id <= after
    ensures !RowsAfter(store, after)
  {
    IdsCount(manifest);
    var ids := Ids(manifest);
    forall id | id in ids ensures id in store.rows.Keys {
      var i :| 0 <= i < |manifest| && manifest[i].id == id;
      assert Identifies(store, manifest[i]);
    }
    SameSize(ids, store.rows.Keys);
    assert Later(store, after) == {} by {
      forall id | id in store.rows ensures id <= after { assert id in ids; }
    }
  }

  /** A scan that has come to the end has read as many rows as the table has. */
  lemma CompleteMeansEqualCounts(s: Sys)
    requires Alone(s) && s.rebuild.Scanning? && !RowsAfter(s.store, s.rebuild.after)
    ensures |s.rebuild.manifest| == |s.store.rows|
  {
    var manifest := s.rebuild.manifest;
    IdsCount(manifest);
    var after := s.rebuild.after;
    assert Later(s.store, after) == {};
    forall id ensures id in Ids(manifest) <==> id in s.store.rows.Keys {
      if id in s.store.rows {
        assert id !in Later(s.store, after);
        assert HasId(manifest, id);
      }
      if id in Ids(manifest) {
        var i :| 0 <= i < |manifest| && manifest[i].id == id;
        assert Identifies(s.store, manifest[i]);
      }
    }
    assert Ids(manifest) == s.store.rows.Keys;
  }

  lemma SameSize(a: set<nat>, b: set<nat>)
    requires a <= b && |a| == |b|
    ensures a == b
  {
    assert |b - a| == |b| - |a|;
  }

  // ---------- the protocol's view ----------

  lemma Step1(s: Sys, step: Step)
    requires Alone(s) && Enabled(s, step) && !step.StartServer?
    ensures Alone(Apply(s, step))
  {
    StepStaysAlone(s, step);
  }

  ghost predicate IsBuilt(s: Sys, lines: seq<Snap>) {
    s.rebuild.Built? && s.rebuild.manifest == lines
  }

  ghost predicate Others<T>(before: map<string, T>, after: map<string, T>, except: string) {
    forall p :: p != except ==> (p in after <==> p in before) && (p in before ==> after[p] == before[p])
  }

  /** The rows of one batch, added to the temporary index and to the manifest. */
  method AddBatch(repo: Repository, ids: seq<nat>, limit: nat, lines: seq<Snap>, plan: nat -> Fate, ghost s: Sys)
    returns (status: Status, lines': seq<Snap>, ghost t: Sys)
    requires Alone(s) && s.store == repo.Contents() && s.rebuild.Scanning? && s.rebuild.manifest == lines
    requires ids == ScanAfter(s.store, s.rebuild.after, limit)
    ensures Alone(t) && t == s.(rebuild := t.rebuild) && t.rebuild.Scanning? && t.rebuild.manifest == lines'
    ensures status.Done? ==> |lines'| == |lines| + |ids|
    ensures (forall i: nat :: plan(i).Works?) ==> status.Done?
    ensures status.Done? ==> t.rebuild.after == if |ids| == 0 then s.rebuild.after else ids[|ids| - 1]
  {
    lines', t, status := lines, s, Done;
    for i := 0 to |ids|
      invariant Alone(t) && t == s.(rebuild := t.rebuild) && t.rebuild.Scanning? && t.rebuild.manifest == lines'
      invariant |lines'| == |lines| + i && t.rebuild.after == if i == 0 then s.rebuild.after else ids[i - 1]
    {
      if plan(i) != Works {
        return StatusOf(plan(i)), lines', t;
      }
      ScanIsNext(s.store, s.rebuild.after, limit, i);
      Step1(t, ScanNext);
      t := Apply(t, ScanNext);
      lines' := lines' + [SnapOf(repo.Contents(), ids[i])];
    }
  }

  /** The fate of every operation of a rebuild; `scans`, `adds` and the like are per batch. */
  datatype Plan = Plan(
    openActive: Fate,
    openTemporary: Fate,
    createManifest: Fate,
    scans: nat -> Fate,
    adds: (nat, nat) -> Fate,
    commits: nat -> Fate,
    flushes: nat -> Fate,
    batchHooks: nat -> Fate,
    sync: Fate,
    reload: Fate,
    count: Fate,
    moveActive: Fate,
    installHook: Fate,
    install: Fate,
    restore: Fate,
    removeBackup: Fate,
    openManifest: Fate,
    marks: nat -> Fate,
    removeManifest: Fate,
    dropDir: Fate,
    dropFile: Fate)

  ghost predicate BatchesWork(plan: Plan) {
    forall b: nat :: plan.scans(b).Works? && plan.commits(b).Works? && plan.flushes(b).Works?
        && plan.batchHooks(b).Works?
        && forall i: nat :: plan.adds(b, i).Works?
  }

  ghost predicate SwapWorks(plan: Plan) {
    plan.moveActive.Works? && plan.installHook.Works? && plan.install.Works? && plan.removeBackup.Works?
  }

  ghost predicate MarksWork(plan: Plan) {
    plan.openManifest.Works? && forall i: nat :: plan.marks(i).Works?
  }

  /** Nothing fails. Restoring and dropping are not needed then. */
  ghost predicate AllWork(plan: Plan) {
    plan.openActive.Works? && plan.openTemporary.Works? && plan.createManifest.Works? && BatchesWork(plan)
    && plan.sync.Works? && plan.reload.Works? && plan.count.Works? && SwapWorks(plan) && MarksWork(plan)
    && plan.removeManifest.Works?
  }

  /** What the loop has put on disk so far: everything committed. */
  ghost predicate OnDisk(tree: FileTree, tmp: string, lines: seq<Snap>)
    reads tree
  {
    EntriesAt(tree.dirs, tmp) == Some(EntriesOf(lines)) && ManifestOf(tmp) in tree.files
        && tree.files[ManifestOf(tmp)] == lines
  }

  /** Rows after `afterId` in one batch: add, commit, flush. `more` tells whether there were any. */
  method OneBatch(repo: Repository, tree: FileTree, tmp: string, batchSize: nat, afterId: nat, batch: nat,
                  lines: seq<Snap>, plan: Plan, ghost s: Sys)
    returns (status: Status, more: bool, lines': seq<Snap>, afterId': nat, ghost t: Sys)
    requires batchSize > 0 && Alone(s) && s.store == repo.Contents() && s.rebuild.Scanning?
             && s.rebuild.after == afterId && s.rebuild.manifest == lines && OnDisk(tree, tmp, lines)
    modifies tree
    ensures Alone(t) && t == s.(rebuild := t.rebuild) && t.rebuild.Scanning?
    ensures Others(old(tree.dirs), tree.dirs, tmp) && Others(old(tree.files), tree.files, ManifestOf(tmp))
    ensures status.Done? ==> t.rebuild.after == afterId' && t.rebuild.manifest == lines' && OnDisk(tree, tmp, lines')
    ensures status.Done? ==>
              if more then |Later(s.store, afterId')| < |Later(s.store, afterId)| else !RowsAfter(s.store, afterId')
    ensures BatchesWork(plan) ==> status.Done?
  {
    t, lines', afterId', more := s, lines, afterId, false;
    status := StatusOf(plan.scans(batch));
    if status != Done {
      return;
    }
    var ids := ScanAfter(repo.Contents(), afterId, batchSize);
    if |ids| == 0 {
      EmptyScan(repo.Contents(), afterId, batchSize);
      return;
    }
    more := true;
    status, lines', t := AddBatch(repo, ids, batchSize, lines, (i: nat) => plan.adds(batch, i), t);
    if status == Done { status := StatusOf(plan.commits(batch)); }
    if status != Done {
      return;
    }
    tree.dirs := tree.dirs[tmp := Index(EntriesOf(lines'))];
    status := StatusOf(plan.flushes(batch));
    if status != Done {
      return;
    }
    tree.files := tree.files[ManifestOf(tmp) := lines'];
    afterId' := ids[|ids| - 1];
    ScanReaches(repo.Contents(), afterId, batchSize);
    LaterShrinks(repo.Contents(), afterId, afterId');
    status := StatusOf(plan.batchHooks(batch));
  }

  /** All batches. `traffic` is what arrives before each batch. */
  method BuildBatches(repo: Repository, tree: FileTree, tmp: string, batchSize: nat, traffic: seq<seq<Traffic>>,
                      plan: Plan, ghost s: Sys)
    returns (status: Status, lines: seq<Snap>, ghost t: Sys)
    requires batchSize > 0 && Alone(s) && s.store == repo.Contents() && s.rebuild.Scanning? && s.rebuild.after == 0
             && s.rebuild.manifest == [] && OnDisk(tree, tmp, [])
    modifies repo, tree
    ensures Alone(t) && t.store == repo.Contents() && t.active == s.active && t.backup == s.backup
            && t.rebuild.Scanning?
    ensures Others(old(tree.dirs), tree.dirs, tmp) && Others(old(tree.files), tree.files, ManifestOf(tmp))
    ensures status.Done? ==>
              t.rebuild.manifest == lines && OnDisk(tree, tmp, lines) && !RowsAfter(t.store, t.rebuild.after)
    ensures BatchesWork(plan) ==> status.Done?
    ensures old(repo.rows).Keys <= repo.rows.Keys
  {
    t, lines, status := s, [], Done;
    var afterId, batch, more: bool := 0, 0, true;
    while more && status == Done
      invariant Alone(t) && t.store == repo.Contents() && t.active == s.active && t.backup == s.backup
                && t.rebuild.Scanning?
      invariant Others(old(tree.dirs), tree.dirs, tmp) && Others(old(tree.files), tree.files, ManifestOf(tmp))
      invariant status.Done? ==> t.rebuild.after == afterId && t.rebuild.manifest == lines && OnDisk(tree, tmp, lines)
      invariant status.Done? && !more ==> !RowsAfter(t.store, afterId)
      invariant BatchesWork(plan) ==> status.Done?
      invariant old(repo.rows).Keys <= repo.rows.Keys
      decreases if batch < |traffic| then |traffic| - batch else 0
      decreases more && status.Done?, |Later(repo.Contents(), afterId)|
    {
      if batch < |traffic| {
        Interfere(repo, traffic[batch]);
        UnmarksKeepsAlone(t, repo.Contents());
        t := t.(store := repo.Contents());
      }
      status, more, lines, afterId, t := OneBatch(repo, tree, tmp, batchSize, afterId, batch, lines, plan, t);
      batch := batch + 1;
    }
  }

  lemma ScanReaches(store: Store, after: nat, limit: nat)
    ensures forall i :: 0 <= i < |ScanAfter(store, after, limit)| ==>
              ScanAfter(store, after, limit)[i] in Later(store, after)
  {
    var all := Ordered.Sorted(set id | id in store.rows && id > after);
    assert forall i :: 0 <= i < |all| ==> all[i] in all;
  }

  /** Temporary index and manifest next to the active index, complete and counted. */
  method Build(repo: Repository, tree: FileTree, tmp: string, batchSize: nat, traffic: seq<seq<Traffic>>,
               lateTraffic: seq<Traffic>,
               plan: Plan, ghost s: Sys)
    returns (status: Status, lines: seq<Snap>, ghost t: Sys)
    requires batchSize > 0 && Alone(s) && s.store == repo.Contents() && s.rebuild.NoRebuild? && s.server.Down?
    requires !tree.Exists(tmp)
    modifies repo, tree
    ensures Alone(t) && t.store == repo.Contents() && t.active == s.active && t.backup == s.backup
    ensures Others(old(tree.dirs), tree.dirs, tmp) && Others(old(tree.files), tree.files, ManifestOf(tmp))
    ensures if status.Done? then IsBuilt(t, lines) && OnDisk(tree, tmp, lines) else t.rebuild.NoRebuild?
    ensures status.Done? ==> forall id :: id in old(repo.rows) ==> HasId(lines, id)
    ensures AllWork(plan) && AddsNoRows(lateTraffic) ==> status.Done?
  {
    t, lines, status := s, [], Done;
    if plan.openTemporary != Works {
      return StatusOf(plan.openTemporary), lines, t;
    }
    tree.dirs := tree.dirs[tmp := Index([])];
    if plan.createManifest != Works {
      return StatusOf(plan.createManifest), lines, t;
    }
    tree.files := tree.files[ManifestOf(tmp) := []];
    Step1(t, StartRebuild);
    t := Apply(t, StartRebuild);
    status, lines, t := BuildBatches(repo, tree, tmp, batchSize, traffic, plan, t);
    status, t := CheckCounts(repo, lines, lateTraffic, plan, status, t);
  }

  /** A scan that has listed as many rows as the table has is accepted, and has them all. */
  lemma CountedIsBuilt(s: Sys)
    requires Alone(s) && s.rebuild.Scanning? && |s.rebuild.manifest| == |s.store.rows|
    ensures Enabled(s, FinishScan) && Alone(Apply(s, FinishScan))
    ensures Apply(s, FinishScan) == s.(rebuild := Built(s.rebuild.guarded, s.rebuild.manifest))
    ensures forall id :: id in s.store.rows ==> HasId(s.rebuild.manifest, id)
  {
    EqualCountsMeanComplete(s.store, s.rebuild.manifest, s.rebuild.after);
    assert Later(s.store, s.rebuild.after) == {};
    forall id | id in s.store.rows ensures HasId(s.rebuild.manifest, id) {
      assert id !in Later(s.store, s.rebuild.after);
    }
    Step1(s, FinishScan);
  }

  /** The temporary index must count as many documents as were read, and as many as the table has now. */
  method CheckCounts(repo: Repository, lines: seq<Snap>, lateTraffic: seq<Traffic>, plan: Plan, built: Status,
                     ghost s: Sys)
    returns (status: Status, ghost t: Sys)
    requires Alone(s) && s.store == repo.Contents() && s.rebuild.Scanning?
             && (built.Done? ==> s.rebuild.manifest == lines && !RowsAfter(s.store, s.rebuild.after))
    modifies repo
    ensures Alone(t) && t.store == repo.Contents() && t.active == s.active && t.backup == s.backup
    ensures if status.Done? then built.Done? && IsBuilt(t, lines) else t.rebuild.NoRebuild?
    ensures status.Done? ==> forall id :: id in old(repo.rows) ==> HasId(lines, id)
    ensures built.Done? && plan.sync.Works? && plan.reload.Works? && plan.count.Works? && AddsNoRows(lateTraffic) ==>
              status.Done?
  {
    status, t := built, s;
    if built == Done { CompleteMeansEqualCounts(s); }
    if status == Done && plan.sync != Works { status := StatusOf(plan.sync); }
    if status == Done && plan.reload != Works { status := StatusOf(plan.reload); }
    if status == Done && plan.count != Works { status := StatusOf(plan.count); }
    if status == Done {
      Interfere(repo, lateTraffic);
      UnmarksKeepsAlone(t, repo.Contents());
      t := t.(store := repo.Contents());
      if |EntriesOf(lines)| != |lines| || |lines| != |repo.rows| {
        status := Error;
      }
    }
    if status != Done {
      Step1(t, StopRebuild);
      t := Apply(t, StopRebuild);
      return;
    }
    CountedIsBuilt(t);
    t := Apply(t, FinishScan);
  }

  // ---------- the swap ----------

  ghost predicate Elsewhere(before: map<string, Dir>, after: map<string, Dir>, active: string, tmp: string,
                            backup: string) {
    forall p :: p != active && p != tmp && p != backup ==>
        (p in after <==> p in before) && (p in before ==> after[p] == before[p])
  }

  ghost predicate AsActive(tree: FileTree, active: string, s: Sys)
    reads tree
  {
    s.active == EntriesAt(tree.dirs, active) && (active in tree.dirs ==> tree.dirs[active].Index?)
  }

  /** Puts the backup back; when that fails too it stays where it is. */
  method RestoreAfterFailedInstall(tree: FileTree, active: string, backup: string, plan: Plan, ghost s: Sys)
    returns (status: Status, ghost t: Sys)
    requires Alone(s) && s.rebuild.Moved? && active !in tree.dirs && active != backup
    requires s.rebuild.previous == EntriesAt(tree.dirs, backup) && (backup in tree.dirs ==> tree.dirs[backup].Index?)
    modifies tree
    ensures status != Done && Alone(t) && t.store == s.store && t.rebuild.NoRebuild? && AsActive(tree, active, t)
    ensures tree.files == old(tree.files)
    ensures tree.dirs == if old(backup in tree.dirs) && plan.restore.Works?
                         then (old(tree.dirs) - {backup})[active := old(tree.dirs)[backup]] else old(tree.dirs)
    ensures active !in tree.dirs ==> t.backup == OrElse(s.rebuild.previous, s.backup)
  {
    if backup in tree.dirs {
      var moved := tree.Rename(backup, active, plan.restore);
      var step := if moved == Crash then StopRebuild else InstallFails(moved == Done);
      Step1(s, step);
      return (if moved == Crash then Crash else Error), Apply(s, step);
    }
    Step1(s, InstallFails(true));
    return Error, Apply(s, InstallFails(true));
  }

  /** The first rename; there may be nothing to move. */
  method MoveAside(tree: FileTree, active: string, backup: string, fate: Fate, ghost s: Sys)
    returns (status: Status, ghost t: Sys)
    requires Alone(s) && s.rebuild.Built? && AsActive(tree, active, s) && backup !in tree.dirs && active != backup
    modifies tree`dirs
    ensures Alone(t) && t.store == s.store && t.backup == s.backup && (fate.Works? ==> status.Done?)
    ensures if status.Done?
            then t.rebuild == Moved(s.rebuild.manifest, s.active) && active !in tree.dirs
                 && EntriesAt(tree.dirs, backup) == s.active && (backup in tree.dirs ==> tree.dirs[backup].Index?)
            else tree.dirs == old(tree.dirs) && t == s.(rebuild := NoRebuild)
    ensures forall p :: p != active && p != backup ==>
              (p in tree.dirs <==> p in old(tree.dirs)) && (p in tree.dirs ==> tree.dirs[p] == old(tree.dirs)[p])
  {
    status := Done;
    if active in tree.dirs {
      status := tree.Rename(active, backup, fate);
    }
    var step := if status == Done then MoveActive else StopRebuild;
    Step1(s, step);
    t := Apply(s, step);
  }

  /**
   The two renames. Afterwards the new index is active, or the old one is active, or
   nothing is active and the old one is the backup.
   */
  method Swap(tree: FileTree, active: string, tmp: string, backup: string, plan: Plan, lines: seq<Snap>, ghost s: Sys)
    returns (status: Status, ghost t: Sys)
    requires Alone(s) && IsBuilt(s, lines) && AsActive(tree, active, s)
    requires EntriesAt(tree.dirs, tmp) == Some(EntriesOf(lines)) && backup !in tree.dirs
    requires active != tmp && active != backup && tmp != backup
    modifies tree
    ensures Alone(t) && t.store == s.store && AsActive(tree, active, t) && tree.files == old(tree.files)
    ensures Elsewhere(old(tree.dirs), tree.dirs, active, tmp, backup)
    ensures if status.Done? then t.rebuild == Installed(lines) && tmp !in tree.dirs && backup !in tree.dirs
            else t.rebuild.NoRebuild?
    ensures active in tree.dirs ==> t.active == s.active || t.active == Some(EntriesOf(lines))
    ensures status.Done? ==> t.active == Some(EntriesOf(lines))
    ensures active !in tree.dirs ==> EntriesAt(tree.dirs, backup) == s.active && t.backup == OrElse(s.active, s.backup)
    ensures status.Error? && plan.restore.Works? && s.active.Some? ==> active in tree.dirs
    ensures SwapWorks(plan) ==> status.Done?
  {
    status, t := MoveAside(tree, active, backup, plan.moveActive, s);
    if status != Done {
      return;
    }
    status, t := InstallNew(tree, active, tmp, backup, plan, lines, t);
  }

  /** The second rename, with the active directory out of the way. */
  method InstallNew(tree: FileTree, active: string, tmp: string, backup: string, plan: Plan, lines: seq<Snap>,
                    ghost s: Sys)
    returns (status: Status, ghost t: Sys)
    requires Alone(s) && s.rebuild.Moved? && s.rebuild.manifest == lines && active !in tree.dirs
    requires s.rebuild.previous == EntriesAt(tree.dirs, backup) && (backup in tree.dirs ==> tree.dirs[backup].Index?)
    requires EntriesAt(tree.dirs, tmp) == Some(EntriesOf(lines))
    requires active != tmp && active != backup && tmp != backup
    modifies tree
    ensures Alone(t) && t.store == s.store && AsActive(tree, active, t) && tree.files == old(tree.files)
    ensures Elsewhere(old(tree.dirs), tree.dirs, active, tmp, backup)
    ensures if status.Done? then t.rebuild == Installed(lines) && tmp !in tree.dirs && backup !in tree.dirs
            else t.rebuild.NoRebuild?
    ensures active in tree.dirs ==> t.active == s.rebuild.previous || t.active == Some(EntriesOf(lines))
    ensures status.Done? ==> t.active == Some(EntriesOf(lines))
    ensures active !in tree.dirs ==>
              EntriesAt(tree.dirs, backup) == s.rebuild.previous && t.backup == OrElse(s.rebuild.previous, s.backup)
    ensures status.Error? && plan.restore.Works? && s.rebuild.previous.Some? ==> active in tree.dirs
    ensures plan.installHook.Works? && plan.install.Works? && plan.removeBackup.Works? ==> status.Done?
  {
    if plan.installHook == Crashes || (plan.installHook == Works && plan.install == Crashes) {
      Step1(s, StopRebuild);
      t := Apply(s, StopRebuild);
      return Crash, t;
    }
    if plan.installHook == Fails {
      status, t := RestoreAfterFailedInstall(tree, active, backup, plan, s);
      return;
    }
    status := tree.Rename(tmp, active, plan.install);
    if status != Done {
      status, t := RestoreAfterFailedInstall(tree, active, backup, plan, s);
      return;
    }
    status, t := RemoveReplaced(tree, active, backup, plan, lines, s);
  }

  /** The new index is active; the replaced one goes. */
  method RemoveReplaced(tree: FileTree, active: string, backup: string, plan: Plan, lines: seq<Snap>, ghost s: Sys)
    returns (status: Status, ghost t: Sys)
    requires Alone(s) && s.rebuild.Moved? && s.rebuild.manifest == lines && active != backup
    requires EntriesAt(tree.dirs, active) == Some(EntriesOf(lines))
    modifies tree
    ensures Alone(t) && t.store == s.store && t.active == Some(EntriesOf(lines)) && tree.files == old(tree.files)
    ensures forall p :: p != backup ==>
              (p in tree.dirs <==> p in old(tree.dirs)) && (p in tree.dirs ==> tree.dirs[p] == old(tree.dirs)[p])
    ensures if status.Done? then t.rebuild == Installed(lines) && backup !in tree.dirs else t.rebuild.NoRebuild?
    ensures plan.removeBackup.Works? ==> status.Done?
  {
    status := Done;
    if backup in tree.dirs {
      status := tree.RemoveDir(backup, plan.removeBackup);
    }
    Step1(s, Install(status == Done));
    t := Apply(s, Install(status == Done));
  }

  // ---------- the marks ----------

  /** One mark transaction: the table it found and the table it left. */
  datatype Round = Round(from: nat, to: nat, seen: Store, marked: Store)

  ghost predicate IsMarkedIffCurrent(r: Round, line: Snap) {
    line.id in r.seen.rows && line.id in r.marked.rows
    && (r.marked.rows[line.id].state.Indexed? <==> r.seen.rows[line.id].hash == line.hash)
  }

  /** The transaction marks its part of the manifest: a listed row is indexed exactly when it has the listed hash. */
  ghost predicate ExactRound(lines: seq<Snap>, r: Round) {
    r.from <= r.to <= |lines| && r.marked == MarkVersions(r.seen, Versions(lines[r.from..r.to]))
    && forall k :: r.from <= k < r.to ==> IsMarkedIffCurrent(r, lines[k])
  }

  /** How far in the manifest the transactions have come. */
  function Reached(rounds: seq<Round>): nat {
    if |rounds| == 0 then 0 else rounds[|rounds| - 1].to
  }

  /**
   The transactions take the manifest part by part; between two of them, and between
   the last one and the table `end`, rows are only uploaded or requeued.
   */
  ghost predicate InTurn(lines: seq<Snap>, rounds: seq<Round>, end: Store)
    decreases |rounds|
  {
    |rounds| > 0 ==>
      var before, last := rounds[..|rounds| - 1], rounds[|rounds| - 1];
      ExactRound(lines, last) && last.from == Reached(before) && InTurn(lines, before, last.seen)
          && Unmarks(last.marked, end)
  }

  /** After its own transaction no other one touches a row. */
  ghost predicate LeftAlone(rounds: seq<Round>, i: nat, id: nat) {
    forall j :: i < j < |rounds| ==>
                  id in rounds[j].seen.rows && id in rounds[j].marked.rows
                      && rounds[j].marked.rows[id] == rounds[j].seen.rows[id]
  }

  /** A transaction for other lines leaves the row of line `k` alone. */
  lemma OtherRoundSpares(lines: seq<Snap>, r: Round, k: nat)
    requires DistinctIds(lines) && ExactRound(lines, r) && k < r.from && k < |lines| && lines[k].id in r.seen.rows
    ensures lines[k].id in r.marked.rows && r.marked.rows[lines[k].id] == r.seen.rows[lines[k].id]
  {
    var versions := Versions(lines[r.from..r.to]);
    forall i | 0 <= i < |versions| ensures versions[i].0 != lines[k].id {
      assert versions[i].0 == lines[r.from + i].id;
    }
    UnlistedRowsStay(r.seen, versions, lines[k].id);
  }

  /**
   Every listed row has one transaction, which indexes it exactly when its hash is
   still the listed one. No other transaction touches it, so if it is indexed in the
   end, it is as that transaction left it.
   */
  lemma {:induction false} RowsAreMarkedOnce(lines: seq<Snap>, rounds: seq<Round>, end: Store, k: nat) returns (i: nat)
    requires DistinctIds(lines) && InTurn(lines, rounds, end) && k < Reached(rounds)
    ensures i < |rounds| && rounds[i].from <= k < rounds[i].to <= |lines|
    ensures IsMarkedIffCurrent(rounds[i], lines[k]) && LeftAlone(rounds, i, lines[k].id)
    ensures lines[k].id in end.rows
    ensures end.rows[lines[k].id].state.Indexed? ==> end.rows[lines[k].id] == rounds[i].marked.rows[lines[k].id]
    decreases |rounds|
  {
    var before, last := rounds[..|rounds| - 1], rounds[|rounds| - 1];
    if k < last.from {
      i := RowsAreMarkedOnce(lines, before, last.seen, k);
      OtherRoundSpares(lines, last, k);
      forall j | i < j < |rounds|
        ensures lines[k].id in rounds[j].seen.rows && lines[k].id in rounds[j].marked.rows
        ensures rounds[j].marked.rows[lines[k].id] == rounds[j].seen.rows[lines[k].id]
      {
        if j < |before| { assert before[j] == rounds[j]; }
      }
    } else {
      i := |rounds| - 1;
      assert IsMarkedIffCurrent(last, lines[k]);
    }
  }

  /** One row, after the marks for lines `i` to `j`. */
  lemma MarkedRow(store: Store, lines: seq<Snap>, i: nat, j: nat, k: nat)
    requires Valid(store) && Listed(store, lines) && i <= j <= |lines| && k < |lines|
    ensures var after := MarkVersions(store, Versions(lines[i..j]));
            && lines[k].id in after.rows
            && (i <= k < j ==> IsMarkedIffCurrent(Round(i, j, store, after), lines[k]))
            && (after.rows[lines[k].id].state.Indexed? ==> after.rows[lines[k].id].hash == lines[k].hash)
  {
    var versions := Versions(lines[i..j]);
    assert Identifies(store, lines[k]);
    if i <= k < j {
      assert versions[k - i] == (lines[k].id, lines[k].hash);
      RebuildMarksUnchangedRows(store, versions, k - i);
    } else {
      forall v | 0 <= v < |versions| ensures versions[v].0 != lines[k].id { assert versions[v].0 == lines[i + v].id; }
      UnlistedRowsStay(store, versions, lines[k].id);
    }
  }

  /** The versions of lines `i` to `j` mark exactly the rows that have the listed hash, and keep the manifest right. */
  lemma MarksAreExact(store: Store, lines: seq<Snap>, i: nat, j: nat)
    requires Valid(store) && Listed(store, lines) && i <= j <= |lines|
    ensures var after := MarkVersions(store, Versions(lines[i..j]));
            ExactRound(lines, Round(i, j, store, after)) && Listed(after, lines)
  {
    var after := MarkVersions(store, Versions(lines[i..j]));
    MarkVersionsMarks(store, lines[i..j]);
    EvolvesKeepsLists(store, after, lines);
    forall k | 0 <= k < |lines|
      ensures i <= k < j ==> IsMarkedIffCurrent(Round(i, j, store, after), lines[k])
      ensures after.rows[lines[k].id].state.Indexed? ==> after.rows[lines[k].id].hash == lines[k].hash
    {
      assert Identifies(after, lines[k]);
      MarkedRow(store, lines, i, j, k);
    }
  }

  lemma OneMoreRound(lines: seq<Snap>, rounds: seq<Round>, r: Round)
    requires InTurn(lines, rounds, r.seen) && ExactRound(lines, r) && r.from == Reached(rounds)
    requires Unmarks(r.marked, r.marked)
    ensures InTurn(lines, rounds + [r], r.marked) && Reached(rounds + [r]) == r.to
  {
    var more := rounds + [r];
    assert more[..|more| - 1] == rounds && more[|more| - 1] == r;
  }

  lemma UnmarksReflexive(store: Store)
    requires Valid(store)
    ensures Unmarks(store, store)
  {
  }

  /** What is known between two mark transactions. */
  ghost predicate Marking(lines: seq<Snap>, rounds: seq<Round>, s: Sys) {
    Alone(s) && s.rebuild.Installed? && Listed(s.store, lines) && DistinctIds(lines) && InTurn(lines, rounds, s.store)
  }

  /** What one transaction does to the machine. */
  lemma TransactionSteps(lines: seq<Snap>, i: nat, j: nat, s: Sys)
    requires i <= j <= |lines| && s.rebuild == Installed(lines[i..])
    ensures Enabled(s, MarkChunk(j - i))
    ensures Apply(s, MarkChunk(j - i)) ==
            s.(store := MarkVersions(s.store, Versions(lines[i..j])), rebuild := Installed(lines[j..]))
  {
    assert lines[i..][..j - i] == lines[i..j] && lines[i..][j - i..] == lines[j..];
  }

  /** What it does to the history. */
  lemma TransactionCounts(lines: seq<Snap>, i: nat, j: nat, rounds: seq<Round>, before: Store, after: Store)
    requires i <= j <= |lines| && Valid(before) && Listed(before, lines)
    requires after == MarkVersions(before, Versions(lines[i..j]))
    requires InTurn(lines, rounds, before) && Reached(rounds) == i
    ensures Listed(after, lines) && before.rows.Keys <= after.rows.Keys
    ensures InTurn(lines, rounds + [Round(i, j, before, after)], after)
  {
    MarksAreExact(before, lines, i, j);
    MarkVersionsMarks(before, lines[i..j]);
    UnmarksReflexive(after);
    OneMoreRound(lines, rounds, Round(i, j, before, after));
  }

  /** One transaction of marks, after whatever has arrived before it. */
  method MarkSome(repo: Repository, lines: seq<Snap>, i: nat, j: nat, traffic: seq<Traffic>, fate: Fate,
                  ghost rounds: seq<Round>, ghost s: Sys)
    returns (status: Status, ghost rounds': seq<Round>, ghost t: Sys)
    requires i <= j <= |lines| && Marking(lines, rounds, s) && s.rebuild == Installed(lines[i..])
    requires s.store == repo.Contents() && Reached(rounds) == i
    modifies repo
    ensures status == StatusOf(fate) && Marking(lines, rounds', t) && t.store == repo.Contents() && t.active == s.active
    ensures if status.Done? then t.rebuild == Installed(lines[j..]) && |rounds'| > 0 && Reached(rounds') == j
            else rounds' == rounds
    ensures old(repo.rows).Keys <= repo.rows.Keys
  {
    Interfere(repo, traffic);
    UnmarksKeepsAlone(s, repo.Contents());
    UnmarksKeepsListed(s.store, repo.Contents(), lines);
    t, rounds', status := s.(store := repo.Contents()), rounds, StatusOf(fate);
    InterruptedRound(lines, rounds, s.store, t.store);
    if status == Done {
      ghost var seen := repo.Contents();
      repo.MarkIndexedVersions(Versions(lines[i..j]));
      TransactionSteps(lines, i, j, t);
      Step1(t, MarkChunk(j - i));
      TransactionCounts(lines, i, j, rounds, seen, repo.Contents());
      rounds' := rounds + [Round(i, j, seen, repo.Contents())];
      t := Apply(t, MarkChunk(j - i));
    }
  }

  lemma InterruptedRound(lines: seq<Snap>, rounds: seq<Round>, before: Store, after: Store)
    requires InTurn(lines, rounds, before) && Unmarks(before, after)
    ensures InTurn(lines, rounds, after)
  {
    if |rounds| > 0 { UnmarksTransitive(rounds[|rounds| - 1].marked, before, after); }
  }

  /**
   Streams the manifest and marks its versions, `batchSize` at a time; others are at work before
   every transaction.
   */
  method MarkFromManifest(repo: Repository, lines: seq<Snap>, batchSize: nat, traffic: nat -> seq<Traffic>,
                          plan: Plan, ghost s: Sys)
    returns (status: Status, ghost rounds: seq<Round>, ghost t: Sys)
    requires batchSize > 0 && Marking(lines, [], s) && s.rebuild == Installed(lines) && s.store == repo.Contents()
    modifies repo
    ensures Marking(lines, rounds, t) && t.store == repo.Contents() && t.active == s.active
    ensures status.Done? ==> |rounds| > 0 && Reached(rounds) == |lines|
    ensures MarksWork(plan) ==> status.Done?
    ensures old(repo.rows).Keys <= repo.rows.Keys
  {
    t, rounds, status := s, [], StatusOf(plan.openManifest);
    if status != Done {
      return;
    }
    var done, read, chunk: nat := 0, 0, 0;
    assert lines[0..] == lines;
    while read < |lines|
      invariant done <= read <= |lines| && read - done < batchSize
      invariant Marking(lines, rounds, t) && t.store == repo.Contents() && t.active == s.active
                && t.rebuild == Installed(lines[done..])
      invariant Reached(rounds) == done && old(repo.rows).Keys <= repo.rows.Keys
    {
      read := read + 1;
      if read - done == batchSize {
        status, rounds, t := MarkSome(repo, lines, done, read, traffic(chunk), plan.marks(chunk), rounds, t);
        if status != Done {
          return;
        }
        done, chunk := read, chunk + 1;
      }
    }
    status, rounds, t := MarkSome(repo, lines, done, read, traffic(chunk), plan.marks(chunk), rounds, t);
  }

  // ---------- the whole rebuild ----------

  /** What dropping the armed guard does: best effort, and only when the process is still there. */
  method DropTemporary(tree: FileTree, tmp: string, plan: Plan)
    modifies tree
    ensures Others(old(tree.dirs), tree.dirs, tmp) && Others(old(tree.files), tree.files, ManifestOf(tmp))
    ensures plan.dropDir.Works? ==> tmp !in tree.dirs
    ensures plan.dropFile.Works? ==> ManifestOf(tmp) !in tree.files
  {
    if tmp in tree.dirs {
      var _ := tree.RemoveDir(tmp, plan.dropDir);
    }
    if ManifestOf(tmp) in tree.files {
      var _ := tree.RemoveFile(ManifestOf(tmp), plan.dropFile);
    }
  }

  /** The index an operator finds afterwards agrees with the table. */
  ghost predicate WorkingIndex(store: Store, dirs: map<string, Dir>, active: string, backup: string,
                               before: Option<seq<Entry>>) {
    if active in dirs then dirs[active].Index? && Agrees(store, dirs[active].entries)
    else before.Some? ==> EntriesAt(dirs, backup) == before && Agrees(store, before.value)
  }

  /** Paths that existed before, other than the active one, are as they were. */
  ghost predicate SiblingsUntouched(before: map<string, Dir>, after: map<string, Dir>, active: string) {
    forall p :: p in before && p != active ==> p in after && after[p] == before[p]
  }

  /** The manifest has every row, and every line of it had its mark transaction. */
  ghost predicate AllMarked(ids: set<nat>, lines: seq<Snap>, rounds: seq<Round>, end: Store) {
    (forall id :: id in ids ==> HasId(lines, id)) && DistinctIds(lines) && InTurn(lines, rounds, end)
        && Reached(rounds) == |lines|
  }

  /** What arrives before each batch of the scan, before the count, and before each mark transaction. */
  datatype Arrivals = Arrivals(batches: seq<seq<Traffic>>, count: seq<Traffic>, marks: nat -> seq<Traffic>)

  /** Swap and marks, from a complete temporary index. */
  method InstallAndMark(repo: Repository, tree: FileTree, active: string, tmp: string, backup: string, batchSize: nat,
                        traffic: nat -> seq<Traffic>, lines: seq<Snap>, plan: Plan, ghost s: Sys)
    returns (status: Status, ghost rounds: seq<Round>, ghost t: Sys)
    requires batchSize > 0 && Alone(s) && IsBuilt(s, lines) && s.store == repo.Contents() && AsActive(tree, active, s)
    requires EntriesAt(tree.dirs, tmp) == Some(EntriesOf(lines)) && backup !in tree.dirs
    requires active != tmp && active != backup && tmp != backup
    modifies repo, tree
    ensures Alone(t) && t.store == repo.Contents() && AsActive(tree, active, t) && tree.files == old(tree.files)
    ensures Elsewhere(old(tree.dirs), tree.dirs, active, tmp, backup)
    ensures active in tree.dirs ==> t.active == s.active || t.active == Some(EntriesOf(lines))
    ensures active !in tree.dirs ==>
              t.rebuild.NoRebuild? && EntriesAt(tree.dirs, backup) == s.active && t.backup == OrElse(s.active, s.backup)
    ensures status.Done? ==> t.active == Some(EntriesOf(lines)) && tmp !in tree.dirs && backup !in tree.dirs
    ensures status.Done? ==> DistinctIds(lines) && InTurn(lines, rounds, repo.Contents()) && Reached(rounds) == |lines|
    ensures status.Error? && plan.restore.Works? && s.active.Some? ==> active in tree.dirs
    ensures SwapWorks(plan) && MarksWork(plan) ==> status.Done?
  {
    rounds := [];
    status, t := Swap(tree, active, tmp, backup, plan, lines, s);
    if status != Done {
      return;
    }
    status, rounds, t := MarkFromManifest(repo, lines, batchSize, traffic, plan, t);
  }

  lemma OnlyActiveChanged(before: map<string, Dir>, after: map<string, Dir>, active: string, tmp: string,
                          backup: string, entries: seq<Entry>)
    requires Elsewhere(before, after, active, tmp, backup) && EntriesAt(after, active) == Some(entries)
    requires tmp !in before && tmp !in after && backup !in before && backup !in after
    ensures after == before[active := Index(entries)]
  {
  }

  lemma OnlyOneGone<T>(before: map<string, T>, after: map<string, T>, gone: string)
    requires Others(before, after, gone) && gone !in after
    ensures after == before - {gone}
  {
  }

  /** Names for the temporary index and for the backup. */
  method FreshNames(tree: FileTree, active: string, tmpIds: nat -> string, backupIds: nat -> string)
    returns (names: Option<(string, string)>)
    ensures names.Some? <==>
            HasFreeName(tree, active, "rebuild", tmpIds) && HasFreeName(tree, active, "backup", backupIds)
    ensures names.Some? ==> var (tmp, backup) := names.value;
              !tree.Exists(tmp) && !tree.Exists(backup) && active != tmp && active != backup && tmp != backup
  {
    var tmp := UniqueSibling(tree, active, "rebuild", tmpIds);
    if tmp.None? {
      return None;
    }
    var backup := UniqueSibling(tree, active, "backup", backupIds);
    if backup.None? {
      return None;
    }
    ghost var i: nat :| i < 16 && tmp.value == Sibling(active, "rebuild", tmpIds(i));
    ghost var j: nat :| j < 16 && backup.value == Sibling(active, "backup", backupIds(j));
    SiblingsDiffer(active, tmpIds(i), backupIds(j));
    names := Some((tmp.value, backup.value));
  }

  /**
   For every fate of every operation: a working index stays in place, and paths that
   existed before are untouched. A successful rebuild leaves only the new index, has
   listed every row, and has marked each of them once, in turn. A rebuild fails at
   once while a server has the active index open. It succeeds if nothing fails, no
   server is up, both names are to be had and no row is added before the count.
   */
  method RebuildIndex(repo: Repository, tree: FileTree, active: string, inUse: bool, batchSize: nat, traffic: Arrivals,
                      tmpIds: nat -> string, backupIds: nat -> string, plan: Plan, ghost s: Sys)
    returns (status: Status, documents: nat, backup: string, ghost lines: seq<Snap>, ghost rounds: seq<Round>,
             ghost tmp: string)
    requires batchSize > 0 && Alone(s) && s.rebuild.NoRebuild? && s.store == repo.Contents()
             && AsActive(tree, active, s)
    requires inUse <==> s.server.Up?
    modifies repo, tree
    ensures WorkingIndex(repo.Contents(), tree.dirs, active, backup, s.active)
    ensures active in tree.dirs ==>
              EntriesAt(tree.dirs, active) == s.active || EntriesAt(tree.dirs, active) == Some(EntriesOf(lines))
    ensures SiblingsUntouched(old(tree.dirs), tree.dirs, active)
    ensures forall p :: p in old(tree.files) && p != ManifestOf(tmp) ==>
              p in tree.files && tree.files[p] == old(tree.files)[p]
    ensures status.Error? && plan.restore.Works? && s.active.Some? ==> active in tree.dirs
    ensures inUse ==> !status.Done? && repo.Contents() == old(repo.Contents()) && tree.dirs == old(tree.dirs)
    ensures status.Done? ==>
              && documents == |lines| && AllMarked(old(repo.rows).Keys, lines, rounds, repo.Contents())
              && tree.dirs == old(tree.dirs)[active := Index(EntriesOf(lines))]
              && tree.files == old(tree.files) - {ManifestOf(tmp)}
    ensures AllWork(plan) && !inUse && AddsNoRows(traffic.count)
            && old(HasFreeName(tree, active, "rebuild", tmpIds) && HasFreeName(tree, active, "backup", backupIds)) ==>
              status.Done?
  {
    status, documents, backup, lines, rounds, tmp := Error, 0, active, [], [], active;
    var names := FreshNames(tree, active, tmpIds, backupIds);
    if names.None? {
      return;
    }
    tmp, backup := names.value.0, names.value.1;
    if active in tree.dirs && (inUse || plan.openActive != Works) {
      status := if plan.openActive == Crashes then Crash else Error;
      return;
    }
    status, documents, lines, rounds :=
        RebuildAt(repo, tree, active, names.value.0, backup, batchSize, traffic, plan, s);
    if status == Done {
      OnlyActiveChanged(old(tree.dirs), tree.dirs, active, tmp, backup, EntriesOf(lines));
      OnlyOneGone(old(tree.files), tree.files, ManifestOf(tmp));
    }
  }

  /** Build, swap and marks under names that are still free. */
  method BuildAndInstall(repo: Repository, tree: FileTree, active: string, tmp: string, backup: string, batchSize: nat,
                         traffic: Arrivals, plan: Plan, ghost s: Sys)
    returns (status: Status, lines: seq<Snap>, ghost rounds: seq<Round>)
    requires batchSize > 0 && Alone(s) && s.rebuild.NoRebuild? && s.server.Down? && s.store == repo.Contents()
    requires AsActive(tree, active, s)
    requires !tree.Exists(tmp) && !tree.Exists(backup) && active != tmp && active != backup && tmp != backup
    modifies repo, tree
    ensures WorkingIndex(repo.Contents(), tree.dirs, active, backup, s.active)
    ensures active in tree.dirs ==>
              EntriesAt(tree.dirs, active) == s.active || EntriesAt(tree.dirs, active) == Some(EntriesOf(lines))
    ensures Elsewhere(old(tree.dirs), tree.dirs, active, tmp, backup)
            && Others(old(tree.files), tree.files, ManifestOf(tmp))
    ensures status.Error? && plan.restore.Works? && s.active.Some? ==> active in tree.dirs
    ensures status.Done? ==>
              && AllMarked(old(repo.rows).Keys, lines, rounds, repo.Contents())
              && EntriesAt(tree.dirs, active) == Some(EntriesOf(lines)) && tmp !in tree.dirs && backup !in tree.dirs
    ensures AllWork(plan) && AddsNoRows(traffic.count) ==> status.Done?
  {
    ghost var t;
    rounds := [];
    status, lines, t := Build(repo, tree, tmp, batchSize, traffic.batches, traffic.count, plan, s);
    if status == Done {
      status, rounds, t := InstallAndMark(repo, tree, active, tmp, backup, batchSize, traffic.marks, lines, plan, t);
    }
  }

  /** The rebuild under names that are still free, with what is left behind removed. */
  method RebuildAt(repo: Repository, tree: FileTree, active: string, tmp: string, backup: string, batchSize: nat,
                   traffic: Arrivals, plan: Plan, ghost s: Sys)
    returns (status: Status, documents: nat, lines: seq<Snap>, ghost rounds: seq<Round>)
    requires batchSize > 0 && Alone(s) && s.rebuild.NoRebuild? && s.server.Down? && s.store == repo.Contents()
    requires AsActive(tree, active, s)
    requires !tree.Exists(tmp) && !tree.Exists(backup) && active != tmp && active != backup && tmp != backup
    modifies repo, tree
    ensures WorkingIndex(repo.Contents(), tree.dirs, active, backup, s.active)
    ensures active in tree.dirs ==>
              EntriesAt(tree.dirs, active) == s.active || EntriesAt(tree.dirs, active) == Some(EntriesOf(lines))
    ensures Elsewhere(old(tree.dirs), tree.dirs, active, tmp, backup)
            && Others(old(tree.files), tree.files, ManifestOf(tmp))
    ensures status.Error? && plan.restore.Works? && s.active.Some? ==> active in tree.dirs
    ensures status.Done? ==>
              && documents == |lines| && AllMarked(old(repo.rows).Keys, lines, rounds, repo.Contents())
              && EntriesAt(tree.dirs, active) == Some(EntriesOf(lines)) && tmp !in tree.dirs && backup !in tree.dirs
              && ManifestOf(tmp) !in tree.files
    ensures AllWork(plan) && AddsNoRows(traffic.count) ==> status.Done?
  {
    documents := 0;
    status, lines, rounds := BuildAndInstall(repo, tree, active, tmp, backup, batchSize, traffic, plan, s);
    if status == Done {
      status := tree.RemoveFile(ManifestOf(tmp), plan.removeManifest);
    }
    if status == Done {
      documents := |lines|;
    } else if status == Error {
      DropTemporary(tree, tmp, plan);
    }
  }
}
