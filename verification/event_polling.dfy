/**
 Polling for undispatched events: batches of at most 100 in id order, each
 event marked even when no processor wants it, so that no event starves.
 */
module EventPolling {
  import opened Ordered
  import opened JobStore
  import opened Wrappers

  const BATCH_SIZE: nat := 100

  function UndispatchedIds(db: Db): set<nat> {
    set e | e in db.events && db.events[e].dispatchedAt.None?
  }

  /** `WHERE dispatched_at IS NULL ORDER BY id ASC LIMIT $1` */
  function Unprocessed(db: Db, limit: nat): seq<nat> {
    Limit(Sorted(UndispatchedIds(db)), limit)
  }

  /** A batch holds undispatched events, and one that is left out comes after a full batch of older ones. */
  lemma BatchMeans(db: Db, e: nat)
    ensures var batch := Unprocessed(db, BATCH_SIZE);
            && |batch| <= 100
            && (e in batch ==> e in db.events && db.events[e].dispatchedAt.None?)
            && (e !in batch && e in db.events && db.events[e].dispatchedAt.None? ==>
                  |batch| == 100 && forall x :: x in batch ==> x < e)
  {
    var all := Sorted(UndispatchedIds(db));
    var batch := Unprocessed(db, BATCH_SIZE);
    assert e in batch ==> e in all;
    if e in all && e !in batch {
      var k :| 0 <= k < |all| && all[k] == e;
      assert forall i :: 0 <= i < |batch| ==> batch[i] == all[i] && all[i] < all[k];
    }
  }

  lemma UndispatchedAfterDispatch(db: Db, e: nat, names: seq<string>, now: int)
    requires WellFormed(db)
    ensures UndispatchedIds(Dispatch(db, e, names, now)) == UndispatchedIds(db) - {e}
    ensures WellFormed(Dispatch(db, e, names, now))
  {
    DispatchKeepsTables(db, e, names, now);
    if Dispatchable(db, e) {
      InsertAllExtends(db, e, names);
    }
  }

  lemma LongerPrefix(waiting: set<nat>, s: seq<nat>, i: nat)
    requires i < |s|
    ensures waiting - Members(s[..i + 1]) == waiting - Members(s[..i]) - {s[i]}
  {
    assert s[..i + 1] == s[..i] + [s[i]];
  }

  /** Old jobs stay as they are, and each listed processor has a job of the event; new ones are pending and unused. */
  ghost predicate Registers(before: Db, after: Db, e: nat, names: seq<string>) {
    && (forall id :: id in before.jobs ==> id in after.jobs && after.jobs[id] == before.jobs[id])
    && (forall id :: id in after.jobs && id !in before.jobs ==>
          after.jobs[id] == NewJob(e, after.jobs[id].processor) && after.jobs[id].processor in names)
    && (forall p :: p in names ==> HasJob(after.jobs, e, p))
  }

  /** The same for all events of a batch. */
  ghost predicate RegistersAll(before: Db, after: Db, batch: seq<nat>, eligible: nat -> seq<string>) {
    && (forall id :: id in before.jobs ==> id in after.jobs && after.jobs[id] == before.jobs[id])
    && (forall id :: id in after.jobs && id !in before.jobs ==> IsNewFor(after.jobs[id], batch, eligible))
    && (forall e, p :: e in batch && p in eligible(e) ==> HasJob(after.jobs, e, p))
  }

  predicate IsNewFor(job: Job, batch: seq<nat>, eligible: nat -> seq<string>) {
    job == NewJob(job.eventId, job.processor) && job.eventId in batch && job.processor in eligible(job.eventId)
  }

  lemma OneMoreEvent(before: Db, mid: Db, after: Db, batch: seq<nat>, i: nat, eligible: nat -> seq<string>)
    requires i < |batch| && RegistersAll(before, mid, batch[..i], eligible)
    requires Registers(mid, after, batch[i], eligible(batch[i]))
    ensures RegistersAll(before, after, batch[..i + 1], eligible)
  {
    assert batch[..i + 1] == batch[..i] + [batch[i]];
    forall id | id in after.jobs && id !in before.jobs ensures IsNewFor(after.jobs[id], batch[..i + 1], eligible) {
      if id in mid.jobs { assert IsNewFor(mid.jobs[id], batch[..i], eligible); }
    }
    forall e, p | e in batch[..i + 1] && p in eligible(e) ensures HasJob(after.jobs, e, p) {
      if e in batch[..i] {
        var id :| id in mid.jobs && mid.jobs[id].eventId == e && mid.jobs[id].processor == p;
        assert after.jobs[id] == mid.jobs[id];
      }
    }
  }

  /** Registers one event; afterwards it is no longer undispatched. */
  method DispatchOne(table: JobTable, e: nat, names: seq<string>, now: int)
    requires WellFormed(table.Contents())
    modifies table
    ensures WellFormed(table.Contents())
    ensures UndispatchedIds(table.Contents()) == UndispatchedIds(old(table.Contents())) - {e}
    ensures e in UndispatchedIds(old(table.Contents())) ==>
              Registers(old(table.Contents()), table.Contents(), e, names)
  {
    UndispatchedAfterDispatch(table.Contents(), e, names, now);
    if e in table.events { InsertAllExtends(table.Contents(), e, names); }
    var _ := table.RegisterEventDispatch(e, names, now);
  }

  lemma NextIsUndispatched(waiting: set<nat>, batch: seq<nat>, i: nat)
    requires i < |batch| && batch == Limit(Sorted(waiting), BATCH_SIZE)
    ensures batch[i] in waiting - Members(batch[..i])
  {
    var all := Sorted(waiting);
    assert batch[i] == all[i] && all[i] in all;
    forall j | 0 <= j < i ensures batch[..i][j] != batch[i] { assert all[j] < all[i]; }
  }

  /** One error-free batch: fetch, then register every event with its eligible processors, even with none. */
  method FetchAndDispatch(table: JobTable, eligible: nat -> seq<string>, now: int) returns (batch: seq<nat>)
    requires WellFormed(table.Contents())
    modifies table
    ensures batch == Unprocessed(old(table.Contents()), BATCH_SIZE)
    ensures WellFormed(table.Contents())
    ensures UndispatchedIds(table.Contents()) == UndispatchedIds(old(table.Contents())) - Members(batch)
    ensures RegistersAll(old(table.Contents()), table.Contents(), batch, eligible)
  {
    ghost var waiting := UndispatchedIds(table.Contents());
    batch := Unprocessed(table.Contents(), BATCH_SIZE);
    for i := 0 to |batch|
      invariant WellFormed(table.Contents())
      invariant UndispatchedIds(table.Contents()) == waiting - Members(batch[..i])
      invariant RegistersAll(old(table.Contents()), table.Contents(), batch[..i], eligible)
    {
      ghost var before := table.Contents();
      NextIsUndispatched(waiting, batch, i);
      DispatchOne(table, batch[i], eligible(batch[i]), now);
      LongerPrefix(waiting, batch, i);
      OneMoreEvent(old(table.Contents()), before, table.Contents(), batch, i, eligible);
    }
    assert batch[..|batch|] == batch;
  }

  // ---------- no starvation ----------

  /** The undispatched ids after one error-free batch. */
  function AfterBatch(waiting: set<nat>): set<nat> {
    waiting - Members(Limit(Sorted(waiting), BATCH_SIZE))
  }

  function Ahead(waiting: set<nat>, e: nat): set<nat> {
    set x | x in waiting && x < e
  }

  /**
   `waits[i]` is what is undispatched when batch `i` is fetched. Between two
   batches anything may happen to other events, except that no smaller id
   appears and the watched event stays undispatched.
   */
  ghost predicate Polls(waits: seq<set<nat>>, e: nat) {
    forall i :: 0 <= i < |waits| - 1 ==> PollStep(waits[i], waits[i + 1], e)
  }

  ghost predicate PollStep(before: set<nat>, after: set<nat>, e: nat) {
    Ahead(after, e) <= AfterBatch(before) && (e in AfterBatch(before) ==> e in after)
  }

  ghost predicate FetchedIn(waiting: set<nat>, e: nat) {
    e in Limit(Sorted(waiting), BATCH_SIZE)
  }

  lemma RankInScan(s: set<nat>, k: nat)
    requires k < |s|
    ensures |Ahead(s, Sorted(s)[k])| == k
  {
    SmallerComeFirst(Sorted(s), k);
    assert Ahead(s, Sorted(s)[k]) == Members(Sorted(s)[..k]);
  }

  lemma PositionCountsSmaller(s: set<nat>, e: nat)
    requires e in s
    ensures |Ahead(s, e)| < |s| && Sorted(s)[|Ahead(s, e)|] == e
  {
    assert e in Sorted(s);
    var k :| 0 <= k < |Sorted(s)| && Sorted(s)[k] == e;
    RankInScan(s, k);
  }

  lemma SubsetCardinality(a: set<nat>, b: set<nat>)
    requires a <= b
    ensures |a| <= |b|
  {
    assert b == a + (b - a);
  }

  lemma DroppingShortensQueue(waiting: set<nat>, e: nat, n: nat)
    requires e in waiting && n <= |Ahead(waiting, e)|
    ensures n <= |Sorted(waiting)|
    ensures var left := waiting - Members(Sorted(waiting)[..n]);
            e in left && |Ahead(left, e)| == |Ahead(waiting, e)| - n
  {
    PositionCountsSmaller(waiting, e);
    SortedDrop(waiting, n);
    var left := waiting - Members(Sorted(waiting)[..n]);
    var k := |Ahead(waiting, e)| - n;
    assert Sorted(left)[k] == e;
    assert Sorted(left)[k] in Sorted(left);
    RankInScan(left, k);
  }

  /** A batch that does not reach the event removes a full batch of events ahead of it. */
  lemma BatchShortensQueue(waiting: set<nat>, e: nat)
    requires e in waiting && !FetchedIn(waiting, e)
    ensures |Ahead(waiting, e)| >= BATCH_SIZE
    ensures e in AfterBatch(waiting)
    ensures |Ahead(AfterBatch(waiting), e)| == |Ahead(waiting, e)| - BATCH_SIZE
  {
    PositionCountsSmaller(waiting, e);
    if |Ahead(waiting, e)| < BATCH_SIZE {
      LimitReaches(Sorted(waiting), BATCH_SIZE, |Ahead(waiting, e)|);
    }
    DroppingShortensQueue(waiting, e, BATCH_SIZE);
  }

  /** An event behind `k` others is fetched within `k / 100 + 1` error-free batches. */
  lemma {:induction false} NoStarvation(waits: seq<set<nat>>, e: nat)
    requires |waits| > 0 && e in waits[0] && Polls(waits, e)
    requires |waits| == |Ahead(waits[0], e)| / 100 + 1
    ensures exists i :: 0 <= i < |waits| && FetchedIn(waits[i], e)
    decreases |waits|
  {
    if FetchedIn(waits[0], e) {
    } else {
      BatchShortensQueue(waits[0], e);
      assert PollStep(waits[0], waits[1], e);
      var rest := waits[1..];
      assert Ahead(rest[0], e) <= Ahead(AfterBatch(waits[0]), e);
      SubsetCardinality(Ahead(rest[0], e), Ahead(AfterBatch(waits[0]), e));
      forall i | 0 <= i < |rest| - 1 ensures PollStep(rest[i], rest[i + 1], e) {
        assert PollStep(waits[i + 1], waits[i + 2], e);
      }
      var short := rest[..|Ahead(rest[0], e)| / BATCH_SIZE + 1];
      NoStarvation(short, e);
      var i :| 0 <= i < |short| && FetchedIn(short[i], e);
      assert FetchedIn(waits[i + 1], e);
    }
  }
}
