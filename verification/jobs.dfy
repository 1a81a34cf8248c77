/**
 The `events` and `processor_jobs` tables of mailmux and the statements that
 change them. Each statement is a function from table contents to table
 contents; the class `JobTable` performs the same statements in place.
 */
module JobStore {
  import opened Wrappers

  datatype Status = Pending | InProgress | Completed | Failed | Abandoned

  datatype Job = Job(
    eventId: nat,
    processor: string,
    status: Status,
    attempts: nat,
    lastError: Option<string>,
    nextRetryAt: Option<int>,
    output: Option<string>)

  datatype Event = Event(
    eventType: string,
    account: string,
    mailbox: string,
    createdAt: int,
    dispatchedAt: Option<int>)

  /** Table contents. `nextJob` is the sequence behind `processor_jobs.id`. */
  datatype Db = Db(events: map<nat, Event>, jobs: map<nat, Job>, nextJob: nat)

  datatype AttemptsUpdate = Keep | Increment

  // ---------- row predicates ----------

  /** Jobs that neither a sweep nor a dispatcher will run again. */
  predicate Terminal(status: Status) {
    status.Completed? || status.Abandoned?
  }

  /** The `WHERE` guard shared by the sweep, the claim and the abandonment. */
  predicate Claimable(job: Job, now: int) {
    job.status.Pending? ||
    (job.status.Failed? && job.nextRetryAt.Some? && job.nextRetryAt.value <= now)
  }

  predicate HasJob(jobs: map<nat, Job>, eventId: nat, processor: string) {
    exists id :: id in jobs && jobs[id].eventId == eventId && jobs[id].processor == processor
  }

  // ---------- statements ----------

  function NewJob(eventId: nat, processor: string): Job {
    Job(eventId, processor, Pending, 0, None, None, None)
  }

  /** `INSERT ... ON CONFLICT (event_id, processor_name) DO NOTHING` */
  function Insert(db: Db, eventId: nat, processor: string): Db {
    if HasJob(db.jobs, eventId, processor) then db
    else db.(jobs := db.jobs[db.nextJob := NewJob(eventId, processor)], nextJob := db.nextJob + 1)
  }

  /** Inserting the processors of one event, in order. */
  function InsertAll(db: Db, eventId: nat, names: seq<string>): Db
    decreases |names|
  {
    if |names| == 0 then db
    else Insert(InsertAll(db, eventId, names[..|names| - 1]), eventId, names[|names| - 1])
  }

  /** The `RETURNING id, processor_name` rows of the same insertion. */
  function Inserted(db: Db, eventId: nat, names: seq<string>): seq<(nat, string)>
    decreases |names|
  {
    if |names| == 0 then []
    else
      var before := names[..|names| - 1];
      var last := names[|names| - 1];
      var db' := InsertAll(db, eventId, before);
      Inserted(db, eventId, before) +
      if HasJob(db'.jobs, eventId, last) then [] else [(db'.nextJob, last)]
  }

  predicate Dispatchable(db: Db, eventId: nat) {
    eventId in db.events && db.events[eventId].dispatchedAt.None?
  }

  /** The whole dispatch transaction: insert the missing jobs, set the marker. */
  function Dispatch(db: Db, eventId: nat, names: seq<string>, now: int): Db {
    if !Dispatchable(db, eventId) then db
    else
      var db' := InsertAll(db, eventId, names);
      db'.(events := db.events[eventId := db.events[eventId].(dispatchedAt := Some(now))])
  }

  function Claimed(job: Job): Job {
    job.(status := InProgress, attempts := job.attempts + 1, lastError := None, nextRetryAt := None, output := None)
  }

  function Claim(db: Db, id: nat, now: int): Db {
    if id in db.jobs && Claimable(db.jobs[id], now)
    then db.(jobs := db.jobs[id := Claimed(db.jobs[id])])
    else db
  }

  function Abandon(db: Db, id: nat, now: int, reason: string): Db {
    if id in db.jobs && Claimable(db.jobs[id], now)
    then db.(jobs := db.jobs[id := db.jobs[id].(status := Abandoned, lastError := Some(reason), nextRetryAt := None)])
    else db
  }

  function ReplayClaimed(job: Job): Job {
    job.(status := InProgress, attempts := 1, lastError := None, nextRetryAt := None, output := None)
  }

  predicate ReplayClaimable(db: Db, id: nat) {
    id in db.jobs && !db.jobs[id].status.InProgress?
  }

  function ReplayClaim(db: Db, id: nat): Db {
    if ReplayClaimable(db, id)
    then db.(jobs := db.jobs[id := ReplayClaimed(db.jobs[id])])
    else db
  }

  /** The final write of an execution. Its only guard is the row id. */
  function UpdateStatus(db: Db, id: nat, status: Status, error: Option<string>, retryAt: Option<int>,
                        output: Option<string>, attempts: AttemptsUpdate): Db
  {
    if id in db.jobs
    then
      var job := db.jobs[id];
      db.(jobs := db.jobs[id := job.(status := status, lastError := error, nextRetryAt := retryAt, output := output,
      attempts := if attempts.Increment? then job.attempts + 1 else job.attempts)])
    else db
  }

  // ---------- retry schedule ----------

  datatype Policy = Policy(maxRetries: nat, backoff: seq<nat>)

  datatype Verdict = GiveUp | RetryAfter(seconds: nat)

  function SaturatingSub(a: nat, b: nat): nat {
    if a < b then 0 else a - b
  }

  /** What the scheduler does with a failed execution that has used `attempts` attempts. */
  function AfterFailure(attempts: nat, policy: Policy): Verdict {
    if policy.maxRetries == 0 || attempts >= policy.maxRetries then GiveUp
    else
      var last := SaturatingSub(|policy.backoff|, 1);
      var index := if SaturatingSub(attempts, 1) < last then SaturatingSub(attempts, 1) else last;
      RetryAfter(if index < |policy.backoff| then policy.backoff[index] else 60)
  }

  // ---------- retention cleanup, statement by statement ----------

  /** Statement 1: old dispatched events without unfinished jobs. */
  function Candidates(db: Db, cutoff: int): set<nat> {
    set e | e in db.events && db.events[e].createdAt < cutoff && db.events[e].dispatchedAt.Some?
            && forall id :: id in db.jobs && db.jobs[id].eventId == e ==> Terminal(db.jobs[id].status)
  }

  /** Statement 2: terminal jobs of the candidates. */
  function TerminalJobs(db: Db, candidates: set<nat>): set<nat> {
    set id | id in db.jobs && db.jobs[id].eventId in candidates && Terminal(db.jobs[id].status)
  }

  /** Statement 3: candidates without any job once the jobs in `removed` are gone. */
  function Childless(db: Db, candidates: set<nat>, removed: set<nat>): set<nat> {
    set e | e in candidates && e in db.events
            && forall id :: id in db.jobs && db.jobs[id].eventId == e ==> id in removed
  }

  function Remove(db: Db, jobs: set<nat>, events: set<nat>): Db {
    db.(jobs := db.jobs - jobs, events := db.events - events)
  }

  // ---------- structural invariants of the tables ----------

  ghost predicate ForeignKeys(db: Db) {
    forall id :: id in db.jobs ==> db.jobs[id].eventId in db.events
  }

  predicate SameTarget(a: Job, b: Job) {
    a.eventId == b.eventId && a.processor == b.processor
  }

  ghost predicate UniqueJobs(db: Db) {
    forall i, j {:trigger SameTarget(db.jobs[i], db.jobs[j])} ::
      i in db.jobs && j in db.jobs && SameTarget(db.jobs[i], db.jobs[j]) ==> i == j
  }

  ghost predicate FreshIds(db: Db) {
    forall id :: id in db.jobs ==> id < db.nextJob
  }

  ghost predicate WellFormed(db: Db) {
    ForeignKeys(db) && UniqueJobs(db) && FreshIds(db)
  }

  lemma InsertKeepsTables(db: Db, eventId: nat, processor: string)
    requires WellFormed(db) && eventId in db.events
    ensures WellFormed(Insert(db, eventId, processor))
    ensures HasJob(Insert(db, eventId, processor).jobs, eventId, processor)
    ensures Insert(db, eventId, processor).events == db.events
  {
    if !HasJob(db.jobs, eventId, processor) {
      assert Insert(db, eventId, processor).jobs[db.nextJob] == NewJob(eventId, processor);
    }
  }

  /** What an insertion of several processors leaves behind. */
  ghost predicate Extends(db: Db, db': Db, eventId: nat) {
    db'.events == db.events && db.nextJob <= db'.nextJob &&
    (forall id :: id in db.jobs ==> id in db'.jobs && db'.jobs[id] == db.jobs[id]) &&
    (forall id :: id in db'.jobs && id !in db.jobs ==>
      db.nextJob <= id && db'.jobs[id] == NewJob(eventId, db'.jobs[id].processor))
  }

  /** Registration inserts a pending job for every name that lacks one and nothing else. */
  lemma {:induction false} InsertAllExtends(db: Db, eventId: nat, names: seq<string>)
    requires WellFormed(db) && eventId in db.events
    ensures WellFormed(InsertAll(db, eventId, names))
    ensures Extends(db, InsertAll(db, eventId, names), eventId)
    ensures forall p :: p in names ==> HasJob(InsertAll(db, eventId, names).jobs, eventId, p)
    ensures forall id :: id in InsertAll(db, eventId, names).jobs && id !in db.jobs ==>
              InsertAll(db, eventId, names).jobs[id].processor in names
    decreases |names|
  {
    if |names| > 0 {
      var before, last := names[..|names| - 1], names[|names| - 1];
      InsertAllExtends(db, eventId, before);
      var mid := InsertAll(db, eventId, before);
      InsertKeepsTables(mid, eventId, last);
      var after := Insert(mid, eventId, last);
      assert names == before + [last];
      forall p | p in names ensures HasJob(after.jobs, eventId, p) {
        if p in before {
          var id :| id in mid.jobs && mid.jobs[id].eventId == eventId && mid.jobs[id].processor == p;
          assert after.jobs[id] == mid.jobs[id];
        }
      }
    }
  }

  /** The dispatch transaction as a whole. */
  lemma DispatchKeepsTables(db: Db, eventId: nat, names: seq<string>, now: int)
    requires WellFormed(db)
    ensures WellFormed(Dispatch(db, eventId, names, now))
  {
    if Dispatchable(db, eventId) {
      InsertAllExtends(db, eventId, names);
    }
  }

  // ---------- the tables in place ----------

  class JobTable {
    var events: map<nat, Event>
    var jobs: map<nat, Job>
    var nextJob: nat

    constructor (db: Db)
      ensures Contents() == db
    {
      events, jobs, nextJob := db.events, db.jobs, db.nextJob;
    }

    function Contents(): Db
      reads this
    {
      Db(events, jobs, nextJob)
    }

    /** Returns None when the job already exists. */
    method CreateJob(eventId: nat, processor: string) returns (id: Option<nat>)
      modifies this
      ensures Contents() == Insert(old(Contents()), eventId, processor)
      ensures id == if HasJob(old(jobs), eventId, processor) then None else Some(old(nextJob))
      ensures id.None? <==> exists j :: j in old(jobs) && old(jobs)[j].eventId == eventId
                                        && old(jobs)[j].processor == processor
      ensures id.Some? ==> jobs == old(jobs)[id.value := Job(eventId, processor, Pending, 0, None, None, None)]
    {
      if HasJob(jobs, eventId, processor) {
        id := None;
      } else {
        id := Some(nextJob);
        jobs := jobs[nextJob := Job(eventId, processor, Pending, 0, None, None, None)];
        nextJob := nextJob + 1;
      }
    }

    method RegisterEventDispatch(eventId: nat, names: seq<string>, now: int) returns (inserted: seq<(nat, string)>)
      modifies this
      ensures Contents() == Dispatch(old(Contents()), eventId, names, now)
      ensures inserted ==
              if Dispatchable(old(Contents()), eventId) then Inserted(old(Contents()), eventId, names) else []
      ensures eventId in old(events) && old(events)[eventId].dispatchedAt.None? ==>
                events == old(events)[eventId := old(events)[eventId].(dispatchedAt := Some(now))]
      ensures eventId !in old(events) || old(events)[eventId].dispatchedAt.Some? ==>
                Contents() == old(Contents()) && inserted == []
    {
      inserted := [];
      if eventId !in events || events[eventId].dispatchedAt.Some? {
        return;
      }
      ghost var before := Contents();
      for i := 0 to |names|
        invariant Contents() == InsertAll(before, eventId, names[..i])
        invariant inserted == Inserted(before, eventId, names[..i])
        invariant events == old(events)
      {
        assert names[..i + 1][..i] == names[..i];
        var id := CreateJob(eventId, names[i]);
        if id.Some? {
          inserted := inserted + [(id.value, names[i])];
        }
      }
      assert names[..|names|] == names;
      events := events[eventId := events[eventId].(dispatchedAt := Some(now))];
    }

    method ClaimJob(id: nat, now: int) returns (claimed: bool)
      modifies this
      ensures Contents() == Claim(old(Contents()), id, now)
      ensures claimed <==>
              id in old(jobs) && (old(jobs)[id].status == Pending
                                  || (old(jobs)[id].status == Failed && old(jobs)[id].nextRetryAt.Some?
                                      && old(jobs)[id].nextRetryAt.value <= now))
      ensures claimed ==>
                && id in jobs && jobs == old(jobs)[id := jobs[id]] && jobs[id].status == InProgress
                && jobs[id].attempts == old(jobs)[id].attempts + 1
                && jobs[id].lastError.None? && jobs[id].nextRetryAt.None? && jobs[id].output.None?
    {
      claimed := id in jobs && (jobs[id].status == Pending || (jobs[id].status == Failed && jobs[id].nextRetryAt.Some?
                                                               && jobs[id].nextRetryAt.value <= now));
      if claimed {
        var job := jobs[id];
        jobs := jobs[id := Job(job.eventId, job.processor, InProgress, job.attempts + 1, None, None, None)];
      }
    }

    method AbandonQueuedJob(id: nat, now: int, reason: string) returns (abandoned: bool)
      modifies this
      ensures Contents() == Abandon(old(Contents()), id, now, reason)
      ensures abandoned <==>
              id in old(jobs) && (old(jobs)[id].status == Pending
                                  || (old(jobs)[id].status == Failed && old(jobs)[id].nextRetryAt.Some?
                                      && old(jobs)[id].nextRetryAt.value <= now))
      ensures abandoned ==>
                && id in jobs && jobs == old(jobs)[id := jobs[id]] && jobs[id].status == Abandoned
                && jobs[id].attempts == old(jobs)[id].attempts && jobs[id].nextRetryAt.None?
                && jobs[id].lastError == Some(reason)
    {
      abandoned := id in jobs && (jobs[id].status == Pending || (jobs[id].status == Failed && jobs[id].nextRetryAt.Some?
                                                                 && jobs[id].nextRetryAt.value <= now));
      if abandoned {
        var job := jobs[id];
        jobs := jobs[id := Job(job.eventId, job.processor, Abandoned, job.attempts, Some(reason), None, job.output)];
      }
    }

    method ResetAndClaimJobForReplay(id: nat) returns (claimed: bool)
      modifies this
      ensures Contents() == ReplayClaim(old(Contents()), id)
      ensures claimed <==> id in old(jobs) && old(jobs)[id].status != InProgress
      ensures claimed ==>
                && id in jobs && jobs == old(jobs)[id := jobs[id]] && jobs[id].status == InProgress
                && jobs[id].attempts == 1
                && jobs[id].lastError.None? && jobs[id].nextRetryAt.None? && jobs[id].output.None?
    {
      claimed := id in jobs && jobs[id].status != InProgress;
      if claimed {
        jobs := jobs[id := Job(jobs[id].eventId, jobs[id].processor, InProgress, 1, None, None, None)];
      }
    }

    method UpdateJobStatus(id: nat, status: Status, error: Option<string>, retryAt: Option<int>,
                           output: Option<string>, attempts: AttemptsUpdate)
      modifies this
      ensures Contents() == UpdateStatus(old(Contents()), id, status, error, retryAt, output, attempts)
      ensures id in old(jobs) ==>
                && id in jobs && jobs == old(jobs)[id := jobs[id]] && jobs[id].status == status
                && jobs[id].lastError == error && jobs[id].nextRetryAt == retryAt && jobs[id].output == output
                && jobs[id].attempts == old(jobs)[id].attempts + if attempts.Increment? then 1 else 0
    {
      if id in jobs {
        var job := jobs[id];
        var n := match attempts { case Keep => job.attempts case Increment => job.attempts + 1 };
        jobs := jobs[id := Job(job.eventId, job.processor, status, n, error, retryAt, output)];
      }
    }

    /**
     The three statements without interference: exactly the old, dispatched events
     without unfinished jobs disappear, with their jobs. Nothing recent does.
     */
    method CleanupOldEvents(cutoff: int) returns (deleted: set<nat>)
      modifies this
      ensures forall e :: e in deleted <==>
                          && e in old(events) && old(events)[e].createdAt < cutoff && old(events)[e].dispatchedAt.Some?
                          && forall id :: id in old(jobs) && old(jobs)[id].eventId == e ==>
                                            old(jobs)[id].status == Completed || old(jobs)[id].status == Abandoned
      ensures forall e :: e in old(events) && old(events)[e].createdAt >= cutoff ==> e in events
      ensures forall id ::
                id in old(jobs) && old(jobs)[id].eventId in old(events)
                && old(events)[old(jobs)[id].eventId].createdAt >= cutoff
                ==> id in jobs
      ensures events == old(events) - deleted
      ensures jobs == map id | id in old(jobs) && old(jobs)[id].eventId !in deleted :: old(jobs)[id]
      ensures nextJob == old(nextJob)
    {
      var candidates := Candidates(Contents(), cutoff);
      if candidates == {} {
        deleted := {};
        assert jobs == map id | id in jobs && jobs[id].eventId !in deleted :: jobs[id];
        return;
      }
      var finished := TerminalJobs(Contents(), candidates);
      jobs := jobs - finished;
      deleted := Childless(Contents(), candidates, {});
      assert deleted == candidates;
      events := events - deleted;
    }
  }
}
