/** Runs of the index protocol from an empty installation, and what holds in all of them. */
module IndexRuns {
  import opened Wrappers
  import opened CanonicalStore
  import opened IndexWriter
  import opened IndexProtocol
  import opened IndexInvariant
  import opened IndexSteps
  import opened IndexAlone

  // ---------- runs ----------

  ghost predicate ValidRun(s: Sys, steps: seq<Step>)
    decreases |steps|
  {
    |steps| > 0 ==> Enabled(s, steps[0]) && ValidRun(Apply(s, steps[0]), steps[1..])
  }

  ghost predicate CarefulRun(s: Sys, steps: seq<Step>)
    requires ValidRun(s, steps)
    decreases |steps|
  {
    |steps| > 0 ==> Careful(s, steps[0]) && CarefulRun(Apply(s, steps[0]), steps[1..])
  }

  ghost function Exec(s: Sys, steps: seq<Step>): Sys
    requires ValidRun(s, steps)
    decreases |steps|
  {
    if |steps| == 0 then s else Exec(Apply(s, steps[0]), steps[1..])
  }

  const NEW: Sys := Sys(Store(map[], 1), None, None, Down, NoRebuild)

  lemma {:induction false} RunKeepsInv(s: Sys, steps: seq<Step>)
    requires Inv(s) && ValidRun(s, steps) && CarefulRun(s, steps)
    ensures Inv(Exec(s, steps))
    decreases |steps|
  {
    if |steps| > 0 {
      StepKeepsInvIff(s, steps[0]);
      RunKeepsInv(Apply(s, steps[0]), steps[1..]);
    }
  }

  ghost predicate SeparateRun(s: Sys, steps: seq<Step>)
    requires ValidRun(s, steps)
    decreases |steps|
  {
    |steps| > 0 ==> Separate(s, steps[0]) && SeparateRun(Apply(s, steps[0]), steps[1..])
  }

  /**
   A run in which servers are only started while no rebuild is under way is careful,
   whatever uploads, requeues, failures and crashes it has.
   */
  lemma {:induction false} SeparateRunsAreCareful(s: Sys, steps: seq<Step>)
    requires Alone(s) && ValidRun(s, steps) && SeparateRun(s, steps)
    ensures CarefulRun(s, steps) && Alone(Exec(s, steps))
    decreases |steps|
  {
    if |steps| > 0 {
      StepStaysAlone(s, steps[0]);
      SeparateRunsAreCareful(Apply(s, steps[0]), steps[1..]);
    }
  }

  /**
   Over all careful runs of uploads, requeues, worker batches that succeed, fail,
   panic or crash before their marks, and rebuilds that stop anywhere or overlap
   with a server: whenever a server is up, each indexed row has exactly one entry
   in the served index, built from its current hash.
   */
  lemma ServedIndexAgrees(steps: seq<Step>, id: nat)
    requires ValidRun(NEW, steps) && CarefulRun(NEW, steps)
    requires Exec(NEW, steps).server.Up? && id in Exec(NEW, steps).store.rows
    requires Exec(NEW, steps).store.rows[id].state.Indexed?
    ensures var t := Exec(NEW, steps);
            t.active.Some? && Under(t.active.value, KeyOf(t.store.rows[id])) == [t.store.rows[id].hash]
  {
    RunKeepsInv(NEW, steps);
  }

  /** A row that a worker batch is still working on is never indexed. */
  lemma InFlightRowsAreNotIndexed(steps: seq<Step>, id: nat)
    requires ValidRun(NEW, steps) && CarefulRun(NEW, steps) && Exec(NEW, steps).server.Up?
    requires InWork(Exec(NEW, steps).server.worker, id)
    ensures Unindexed(Exec(NEW, steps).store, id)
  {
    RunKeepsInv(NEW, steps);
    WorkIsUnindexed(Exec(NEW, steps));
  }

  /** At every moment of a rebuild, finished or interrupted, some index that agrees with the table is in place. */
  lemma SomeIndexAlwaysAgrees(steps: seq<Step>)
    requires ValidRun(NEW, steps) && CarefulRun(NEW, steps)
    ensures var t := Exec(NEW, steps);
            && Agrees(t.store, Authoritative(t))
            && (t.active.Some? ==> Agrees(t.store, t.active.value))
            && (t.rebuild.NoRebuild? && t.active.None? && t.backup.Some? ==> Agrees(t.store, t.backup.value))
  {
    RunKeepsInv(NEW, steps);
  }

  // ---------- the rebuild's marks ----------

  /**
   A mark of the rebuild makes a row indexed exactly when its hash still is the
   one the rebuild read; a row that was changed since stays as it is.
   */
  lemma {:induction false} RebuildMarksUnchangedRows(store: Store, versions: seq<(nat, string)>, k: nat)
    requires Valid(store) && k < |versions|
    requires forall i, j :: 0 <= i < j < |versions| ==> versions[i].0 != versions[j].0
    ensures versions[k].0 in store.rows ==>
              versions[k].0 in MarkVersions(store, versions).rows &&
              var before, after := store.rows[versions[k].0], MarkVersions(store, versions).rows[versions[k].0];
              after.hash == before.hash
              && if before.hash == versions[k].1 then after.state.Indexed? else after == before
    decreases |versions|
  {
    var front, last := versions[..|versions| - 1], versions[|versions| - 1];
    if k < |front| {
      RebuildMarksUnchangedRows(store, front, k);
      assert front[k] == versions[k];
    } else {
      UnlistedRowsStay(store, front, last.0);
    }
  }

  lemma {:induction false} UnlistedRowsStay(store: Store, versions: seq<(nat, string)>, id: nat)
    requires forall i :: 0 <= i < |versions| ==> versions[i].0 != id
    ensures id in store.rows <==> id in MarkVersions(store, versions).rows
    ensures id in store.rows ==> MarkVersions(store, versions).rows[id] == store.rows[id]
    decreases |versions|
  {
    if |versions| > 0 { UnlistedRowsStay(store, versions[..|versions| - 1], id); }
  }
}
