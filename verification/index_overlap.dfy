/**
 Reachable states in which a careless step breaks agreement: a server started between
 the renames of an interrupted rebuild, or before the rebuild has marked its rows.
 */
module IndexOverlap {
  import opened Wrappers
  import opened CanonicalStore
  import opened IndexWriter
  import opened IndexProtocol
  import opened IndexInvariant
  import opened IndexSteps
  import opened IndexRuns
  import opened Ordered

  // ---------- careless steps ----------

  /**
   Starting the server while the active directory is missing keeps agreement
   exactly when no row is indexed: the fresh index is empty.
   */
  lemma FreshServerAgreesIff(s: Sys)
    requires Inv(s) && Enabled(s, StartServer) && s.active.None?
    ensures Agrees(Apply(s, StartServer).store, Apply(s, StartServer).active.value) <==> NothingIndexed(s.store)
  {
    StartKeepsIff(s);
  }

  /** Reached from a new installation by careful steps only. */
  ghost predicate Reached(t: Sys) {
    exists steps :: ValidRun(NEW, steps) && CarefulRun(NEW, steps) && Exec(NEW, steps) == t
  }

  lemma {:induction false} OneMore(s: Sys, steps: seq<Step>, step: Step)
    requires ValidRun(s, steps) && CarefulRun(s, steps)
    requires Enabled(Exec(s, steps), step) && Careful(Exec(s, steps), step)
    ensures ValidRun(s, steps + [step]) && CarefulRun(s, steps + [step])
            && Exec(s, steps + [step]) == Apply(Exec(s, steps), step)
    decreases |steps|
  {
    var more := steps + [step];
    if |steps| == 0 {
      assert more == [step] && more[1..] == [];
    } else {
      assert more[1..] == steps[1..] + [step];
      OneMore(Apply(s, steps[0]), steps[1..], step);
    }
  }

  lemma Go(s: Sys, step: Step)
    requires Reached(s) && Enabled(s, step) && Careful(s, step)
    ensures Reached(Apply(s, step))
  {
    var steps :| ValidRun(NEW, steps) && CarefulRun(NEW, steps) && Exec(NEW, steps) == s;
    OneMore(NEW, steps, step);
  }

  const FIRST: Message := Message("mailmux", "1", "h", "text")
  const SECOND: Message := Message("mailmux", "1", "h2", "text")

  /** The table with the single row 1. */
  function OneRow(m: Message): Store {
    Store(map[1 := PendingDoc(m, 0)], 2)
  }

  function SnapFor(m: Message): Snap {
    Snap(1, KeyOf(PendingDoc(m, 0)), m.hash)
  }

  /** A rebuild over a table with the single row 1, up to the first rename. */
  lemma RebuildOfOneRow(store: Store, active: Option<seq<Entry>>)
    requires store.rows.Keys == {1} && Reached(Sys(store, active, None, Down, NoRebuild))
    ensures Reached(Sys(store, None, None, Down, Moved([SnapOf(store, 1)], active)))
  {
    var snap := SnapOf(store, 1);
    var s0 := Sys(store, active, None, Down, NoRebuild);
    var s1 := s0.(rebuild := Scanning(active.Some?, 0, []));
    var s2 := s0.(rebuild := Scanning(active.Some?, 1, [snap]));
    Go(s0, StartRebuild);
    assert 1 in Later(store, 0) && Later(store, 1) == {};
    assert [] + [snap] == [snap];
    Go(s1, ScanNext);
    assert |store.rows.Keys| == 1;
    Go(s2, FinishScan);
    Go(s0.(rebuild := Built(active.Some?, [snap])), MoveActive);
  }

  /** The first rebuild of an installation with one email, about to mark its row. */
  lemma FirstRebuildInstalled()
    ensures Reached(Sys(OneRow(FIRST), Some(EntriesOf([SnapFor(FIRST)])), None, Down, Installed([SnapFor(FIRST)])))
  {
    assert ValidRun(NEW, []) && CarefulRun(NEW, []) && Exec(NEW, []) == NEW;
    assert Find(NEW.store, "mailmux", "1") == {};
    Go(NEW, Upload(FIRST));
    RebuildOfOneRow(OneRow(FIRST), None);
    var moved := Sys(OneRow(FIRST), None, None, Down, Moved([SnapFor(FIRST)], None));
    Go(moved, Install(true));
  }

  lemma MarkOne(store: Store, snap: Snap)
    ensures MarkVersions(store, Versions([snap])) == MarkVersion(store, snap.id, snap.hash)
  {
    var versions := Versions([snap]);
    assert |versions| == 1 && versions[..0] == [];
    assert MarkVersions(store, versions[..0]) == store;
  }

  lemma FirstRebuildMarked()
    ensures Reached(Sys(MarkVersion(OneRow(FIRST), 1, "h"), Some(EntriesOf([SnapFor(FIRST)])), None, Down, NoRebuild))
  {
    var snap, built := SnapFor(FIRST), Some(EntriesOf([SnapFor(FIRST)]));
    FirstRebuildInstalled();
    BuiltIndexHolds([snap], snap.key);
    assert [snap][..1] == [snap] && [snap][1..] == [] && [snap][0].key == snap.key;
    MarkOne(OneRow(FIRST), snap);
    Go(Sys(OneRow(FIRST), built, None, Down, Installed([snap])), MarkChunk(1));
    Go(Sys(MarkVersion(OneRow(FIRST), 1, "h"), built, None, Down, Installed([])), StopRebuild);
  }

  /** A crash between the two renames of a rebuild, followed by a server start, hides every indexed row from search. */
  lemma CrashMidSwapThenStart()
    ensures exists s :: Reached(s) && Enabled(s, StartServer) &&
                        var t := Apply(s, StartServer); t.active.Some? && !Agrees(t.store, t.active.value)
  {
    var snap, built := SnapFor(FIRST), Some(EntriesOf([SnapFor(FIRST)]));
    var indexed := MarkVersion(OneRow(FIRST), 1, "h");
    FirstRebuildMarked();
    RebuildOfOneRow(indexed, built);
    Go(Sys(indexed, None, None, Down, Moved([snap], built)), StopRebuild);
    var s := Sys(indexed, None, built, Down, NoRebuild);
    assert Under([], KeyOf(indexed.rows[1])) == [];
    assert Reached(s) && Enabled(s, StartServer)
        && !Agrees(Apply(s, StartServer).store, Apply(s, StartServer).active.value);
  }

  // ---------- a server during the rebuild's marks ----------

  lemma OnePending(m: Message)
    ensures PendingScan(OneRow(m), 1) == [1]
  {
    assert PendingIds(OneRow(m)) == {1};
    AscendingUnique(Sorted({1}), [1]);
  }

  /** A server that is started between the install and the marks. */
  lemma ServerDuringMarks()
    ensures Reached(Sys(OneRow(FIRST), Some(EntriesOf([SnapFor(FIRST)])), None, Up([], false, Idle),
                        Installed([SnapFor(FIRST)])))
  {
    FirstRebuildInstalled();
    Go(Sys(OneRow(FIRST), Some(EntriesOf([SnapFor(FIRST)])), None, Down, Installed([SnapFor(FIRST)])), StartServer);
  }

  /** The worker selects row 1 before it is marked. */
  lemma SelectedDuringMarks(m: Message, entries: seq<Entry>)
    requires Reached(Sys(OneRow(m), Some(entries), None, Up([], false, Idle), Installed([SnapFor(FIRST)])))
    ensures Reached(Sys(OneRow(m), Some(entries), None, Up([], false, Reading([1], [])), Installed([SnapFor(FIRST)])))
  {
    OnePending(m);
    Go(Sys(OneRow(m), Some(entries), None, Up([], false, Idle), Installed([SnapFor(FIRST)])), SelectPending(1));
  }

  /**
   A server is started before the rebuild has marked its rows, and selects a row: the
   late mark indexes a row of a batch under way.
   */
  lemma LateMarkHitsBatch()
    ensures exists s :: Reached(s) && s.server.Up? && Enabled(s, MarkChunk(1)) &&
                        var t := Apply(s, MarkChunk(1));
                        exists id :: InWork(t.server.worker, id) && !Unindexed(t.store, id)
  {
    var snap := SnapFor(FIRST);
    var s := Sys(OneRow(FIRST), Some(EntriesOf([snap])), None, Up([], false, Reading([1], [])), Installed([snap]));
    ServerDuringMarks();
    SelectedDuringMarks(FIRST, EntriesOf([snap]));
    assert [snap][..1] == [snap];
    MarkOne(OneRow(FIRST), snap);
    var t := Apply(s, MarkChunk(1));
    assert InWork(t.server.worker, 1) && !Unindexed(t.store, 1);
    assert Reached(s) && Enabled(s, MarkChunk(1));
  }

  lemma OneRowFound(store: Store)
    requires store.rows.Keys == {1} && store.rows[1].source == "mailmux" && store.rows[1].sourceId == "1"
    ensures |Find(store, "mailmux", "1")| == 1 && Min(Find(store, "mailmux", "1")) == 1
  {
    assert IsRowOf(store, 1, "mailmux", "1");
    assert Find(store, "mailmux", "1") == {1};
  }

  /** The index after a commit of the second version. */
  function Reindexed(): seq<Entry> {
    ApplyOps(EntriesOf([SnapFor(FIRST)]), BatchOps([SnapFor(SECOND)]))
  }

  /** A server starts during the marks, and the second version of row 1 is uploaded and selected. */
  lemma SecondVersionSelected()
    ensures Reached(Sys(OneRow(SECOND), Some(EntriesOf([SnapFor(FIRST)])), None, Up([], false, Reading([1], [])),
                        Installed([SnapFor(FIRST)])))
  {
    var entries := EntriesOf([SnapFor(FIRST)]);
    ServerDuringMarks();
    OneRowFound(OneRow(FIRST));
    Go(Sys(OneRow(FIRST), Some(entries), None, Up([], false, Idle), Installed([SnapFor(FIRST)])), Upload(SECOND));
    SelectedDuringMarks(SECOND, entries);
  }

  /** The worker commits it behind the rebuild's back. */
  lemma SecondVersionCommitted()
    ensures Reached(Sys(OneRow(SECOND), Some(Reindexed()), None, Up([], false, MarkingIndexed([SnapFor(SECOND)])),
                        Installed([SnapFor(FIRST)])))
  {
    var snap, snap2, entries := SnapFor(FIRST), SnapFor(SECOND), EntriesOf([SnapFor(FIRST)]);
    var s := Sys(OneRow(SECOND), Some(entries), None, Up([], false, Reading([1], [])), Installed([snap]));
    SecondVersionSelected();
    assert [1][1..] == [] && [] + [snap2] == [snap2];
    Go(s, ReadNext);
    assert [] + BatchOps([snap2]) == BatchOps([snap2]);
    Go(s.(server := Up([], false, Reading([], [snap2]))), CommitBatch);
  }

  /** It marks the row, and then the first version is uploaded again. */
  lemma FirstVersionReturns()
    ensures Reached(Sys(OneRow(FIRST), Some(Reindexed()), None, Up([], false, Idle), Installed([SnapFor(FIRST)])))
  {
    var snap2 := SnapFor(SECOND);
    var s := Sys(OneRow(SECOND), Some(Reindexed()), None, Up([], false, MarkingIndexed([snap2])),
                 Installed([SnapFor(FIRST)]));
    SecondVersionCommitted();
    assert [snap2][1..] == [];
    Go(s, MarkNext(true));
    var marked := MarkIndexed(OneRow(SECOND), 1, "h2");
    Go(s.(store := marked, server := Up([], false, MarkingIndexed([]))), MarkNext(true));
    OneRowFound(marked);
    Go(s.(store := marked, server := Up([], false, Idle)), Upload(FIRST));
  }

  /**
   A server is started before the rebuild has marked its rows. It indexes a newer
   version, the older one is uploaded again, and the late mark declares it indexed:
   the only entry is of the newer version, and the worker will not look at the row.
   */
  lemma LateMarkBreaksAgreement()
    ensures exists s :: Reached(s) && s.server.Up? && Enabled(s, MarkChunk(1)) &&
                        var t := Apply(s, MarkChunk(1));
                        t.active.Some? && !Agrees(t.store, t.active.value) && PendingIds(t.store) == {}
  {
    var snap, snap2 := SnapFor(FIRST), SnapFor(SECOND);
    var s := Sys(OneRow(FIRST), Some(Reindexed()), None, Up([], false, Idle), Installed([snap]));
    FirstVersionReturns();
    assert [snap][..1] == [snap];
    MarkOne(OneRow(FIRST), snap);
    CommitReplaces(EntriesOf([snap]), [snap2], snap.key);
    assert [snap2][0].key == snap.key && Under(Reindexed(), snap.key) == ["h2"];
    var t := Apply(s, MarkChunk(1));
    assert t.store.rows[1].state.Indexed? && t.store.rows[1].hash == "h";
    assert Reached(s) && Enabled(s, MarkChunk(1));
  }
}
