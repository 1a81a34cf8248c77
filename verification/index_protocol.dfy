/**
 Uploads, requeues, the server with its single batching worker and the rebuild
 against the canonical store and the search index, in any interleaving, with
 crashes between any two steps. Server and rebuild are processes of their own.
 The index writer's lock keeps them apart only from the start of a rebuild, if
 there is an active index then, up to the swap: between the renames and during
 the rebuild's marks a server may be started.
 */
module IndexProtocol {
  import opened Wrappers
  import opened CanonicalStore
  import opened IndexWriter
  import Ordered

  datatype Worker =
    | Idle
    | Reading(todo: seq<nat>, batch: seq<Snap>)    // selected rows, read one by one
    | MarkingIndexed(batch: seq<Snap>)             // committed, rows still to be marked
    | MarkingErrors(batch: seq<Snap>)              // failed, rows still to be marked

  datatype Server =
    | Down
    | Up(queue: seq<Op>, poisoned: bool, worker: Worker)

  /** `guarded` tells whether the rebuild holds the writer lock of the active index. */
  datatype Rebuild =
    | NoRebuild
    | Scanning(guarded: bool, after: nat, manifest: seq<Snap>)
    | Built(guarded: bool, manifest: seq<Snap>)
    | Moved(manifest: seq<Snap>, previous: Option<seq<Entry>>)    // the active directory is now the backup
    | Installed(rest: seq<Snap>)                             // the new index is active, rows still to be marked

  /** `active` and `backup` are the index directories next to each other; None is a missing directory. */
  datatype Sys = Sys(store: Store, active: Option<seq<Entry>>, backup: Option<seq<Entry>>, server: Server,
                     rebuild: Rebuild)

  datatype Failure = BeforeCommit(queued: nat, rolledBack: bool) | AfterCommit

  datatype Step =
    | Upload(m: Message)
    | RequeueDoc(source: string, sourceId: string)
    | StartServer
    | SelectPending(limit: nat)
    | ReadNext
    | CommitBatch
    | FailBatch(failure: Failure)
    | PanicInBatch(queued: nat)
    | MarkNext(written: bool)
    | StartRebuild
    | ScanNext
    | FinishScan
    | MoveActive
    | Install(backupRemoved: bool)
    | InstallFails(restored: bool)
    | MarkChunk(n: nat)
    | StopServer
    | StopRebuild
    | RestoreBackup

  predicate Reads(s: Sys) {
    s.server.Up? && s.server.worker.Reading?
  }

  predicate BatchReady(s: Sys) {
    Reads(s) && |s.server.worker.todo| == 0
  }

  predicate Marks(s: Sys) {
    s.server.Up? && (s.server.worker.MarkingIndexed? || s.server.worker.MarkingErrors?)
  }

  /** The rebuild holds the lock that a server needs. */
  predicate Guarded(s: Sys) {
    (s.rebuild.Scanning? || s.rebuild.Built?) && s.rebuild.guarded
  }

  function Later(store: Store, after: nat): set<nat> {
    set id | id in store.rows && id > after
  }

  predicate RowsAfter(store: Store, after: nat) {
    |Later(store, after)| > 0
  }

  /** A rename onto a directory that a server has opened fails; an unguarded rebuild can move one away under it. */
  predicate Enabled(s: Sys, step: Step) {
    match step
    case Upload(_) => true
    case RequeueDoc(_, _) => true
    case StartServer => s.server.Down? && !Guarded(s)
    case SelectPending(limit) => s.server.Up? && s.server.worker.Idle? && |PendingScan(s.store, limit)| > 0
    case ReadNext => Reads(s) && |s.server.worker.todo| > 0 && s.server.worker.todo[0] in s.store.rows
    case CommitBatch => BatchReady(s) && !s.server.poisoned && s.active.Some?
    case FailBatch(AfterCommit) => BatchReady(s) && !s.server.poisoned && s.active.Some?
    case FailBatch(BeforeCommit(n, _)) =>
      BatchReady(s) && n <= |BatchOps(s.server.worker.batch)| && (s.server.poisoned ==> n == 0)
    case PanicInBatch(n) => BatchReady(s) && !s.server.poisoned && n <= |BatchOps(s.server.worker.batch)|
    case MarkNext(_) => Marks(s)
    case StartRebuild => s.rebuild.NoRebuild? && s.server.Down?
    case ScanNext => s.rebuild.Scanning? && RowsAfter(s.store, s.rebuild.after)
    case FinishScan => s.rebuild.Scanning? && !RowsAfter(s.store, s.rebuild.after)
    case MoveActive => s.rebuild.Built?
    case Install(_) => s.rebuild.Moved? && s.active.None?
    case InstallFails(restored) => s.rebuild.Moved? && (restored && s.rebuild.previous.Some? ==> s.active.None?)
    case MarkChunk(n) => s.rebuild.Installed? && n <= |s.rebuild.rest|
    case StopServer => s.server.Up?
    case StopRebuild => !s.rebuild.NoRebuild?
    case RestoreBackup => s.server.Down? && s.rebuild.NoRebuild? && s.active.None? && s.backup.Some?
  }

  function SnapOf(store: Store, id: nat): Snap
    requires id in store.rows
  {
    Snap(id, KeyOf(store.rows[id]), store.rows[id].hash)
  }

  function OrElse<T>(a: Option<T>, b: Option<T>): Option<T> {
    if a.Some? then a else b
  }

  function DoFail(s: Sys, failure: Failure): Sys
    requires Enabled(s, FailBatch(failure))
  {
    var Up(queue, poisoned, Reading(_, batch)) := s.server;
    match failure
    case AfterCommit =>
      s.(active := Some(ApplyOps(s.active.value, queue + BatchOps(batch))),
         server := Up([], poisoned, MarkingErrors(batch)))
    case BeforeCommit(n, rolledBack) =>
      s.(server := Up(if rolledBack then [] else queue + BatchOps(batch)[..n], poisoned, MarkingErrors(batch)))
  }

  /** One `mark_indexed` or `mark_error`; a failed statement is skipped. */
  function DoMark(s: Sys, written: bool): Sys
    requires Marks(s)
  {
    var Up(queue, poisoned, worker) := s.server;
    if |worker.batch| == 0 then s.(server := Up(queue, poisoned, Idle))
    else
      var snap, rest := worker.batch[0], worker.batch[1..];
      var store' := if !written then s.store
                    else if worker.MarkingIndexed? then MarkIndexed(s.store, snap.id, snap.hash)
                    else MarkError(s.store, snap.id, snap.hash, "batch failed");
      s.(store := store',
      server := Up(queue, poisoned, if worker.MarkingIndexed? then MarkingIndexed(rest) else MarkingErrors(rest)))
  }

  function NextAfter(store: Store, after: nat): (id: nat)
    requires RowsAfter(store, after)
    ensures id in store.rows && id > after && forall other :: other in store.rows && other > after ==> id <= other
  {
    assert forall other :: other in store.rows && other > after ==> other in Later(store, after);
    Ordered.Min(Later(store, after))
  }

  function DoScan(s: Sys): Sys
    requires Enabled(s, ScanNext)
  {
    var id := NextAfter(s.store, s.rebuild.after);
    s.(rebuild := Scanning(s.rebuild.guarded, id, s.rebuild.manifest + [SnapOf(s.store, id)]))
  }

  /** The scan is only accepted when the built index counts as many documents as the table. */
  function DoFinishScan(s: Sys): Sys
    requires Enabled(s, FinishScan)
  {
    var manifest := s.rebuild.manifest;
    var complete := |EntriesOf(manifest)| == |manifest| == |s.store.rows|;
    s.(rebuild := if complete then Built(s.rebuild.guarded, manifest) else NoRebuild)
  }

  function DoInstall(s: Sys, backupRemoved: bool): Sys
    requires Enabled(s, Install(backupRemoved))
  {
    var installed := s.(active := Some(EntriesOf(s.rebuild.manifest)));
    if backupRemoved then installed.(rebuild := Installed(s.rebuild.manifest))
    else installed.(backup := OrElse(s.rebuild.previous, s.backup), rebuild := NoRebuild)
  }

  function DoInstallFails(s: Sys, restored: bool): Sys
    requires Enabled(s, InstallFails(restored))
  {
    if restored && s.rebuild.previous.Some? then s.(active := s.rebuild.previous, rebuild := NoRebuild)
    else s.(backup := OrElse(s.rebuild.previous, s.backup), rebuild := NoRebuild)
  }

  function Versions(snaps: seq<Snap>): (r: seq<(nat, string)>)
    ensures |r| == |snaps| && forall i :: 0 <= i < |snaps| ==> r[i] == (snaps[i].id, snaps[i].hash)
  {
    seq(|snaps|, i requires 0 <= i < |snaps| => (snaps[i].id, snaps[i].hash))
  }

  function Apply(s: Sys, step: Step): Sys
    requires Enabled(s, step)
  {
    match step
    case Upload(m) => s.(store := Upsert(s.store, m))
    case RequeueDoc(source, sourceId) => s.(store := Requeue(s.store, source, sourceId))
    case StartServer => s.(active := Some(if s.active.Some? then s.active.value else []), server := Up([], false, Idle))
    case SelectPending(limit) =>
      s.(server := s.server.(worker := Reading(PendingScan(s.store, limit), [])))
    case ReadNext =>
      var Reading(todo, batch) := s.server.worker;
      s.(server := s.server.(worker := Reading(todo[1..], batch + [SnapOf(s.store, todo[0])])))
    case CommitBatch =>
      var batch := s.server.worker.batch;
      s.(active := Some(ApplyOps(s.active.value, s.server.queue + BatchOps(batch))),
      server := Up([], s.server.poisoned, MarkingIndexed(batch)))
    case FailBatch(failure) => DoFail(s, failure)
    case PanicInBatch(n) =>
      s.(server := Up(s.server.queue + BatchOps(s.server.worker.batch)[..n], true, Idle))
    case MarkNext(written) => DoMark(s, written)
    case StartRebuild => s.(rebuild := Scanning(s.active.Some?, 0, []))
    case ScanNext => DoScan(s)
    case FinishScan => DoFinishScan(s)
    case MoveActive => s.(active := None, rebuild := Moved(s.rebuild.manifest, s.active))
    case Install(removed) => DoInstall(s, removed)
    case InstallFails(restored) => DoInstallFails(s, restored)
    case MarkChunk(n) =>
      s.(store := MarkVersions(s.store, Versions(s.rebuild.rest[..n])), rebuild := Installed(s.rebuild.rest[n..]))
    case StopServer => s.(server := Down)
    case StopRebuild =>
      if s.rebuild.Moved? then s.(backup := OrElse(s.rebuild.previous, s.backup), rebuild := NoRebuild)
      else s.(rebuild := NoRebuild)
    case RestoreBackup => s.(active := s.backup, backup := None)
  }
}
