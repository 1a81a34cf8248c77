/** Runs of the job protocol from a new installation, and what holds in all of them. */
module JobRuns {
  import opened Wrappers
  import opened JobStore
  import opened JobProtocol
  import opened JobInvariant

  // ---------- runs ----------

  ghost predicate ValidRun(s: Sys, steps: seq<Step>)
    decreases |steps|
  {
    |steps| > 0 ==> Enabled(s, steps[0]) && ValidRun(Apply(s, steps[0]), steps[1..])
  }

  ghost function Exec(s: Sys, steps: seq<Step>): Sys
    requires ValidRun(s, steps)
    decreases |steps|
  {
    if |steps| == 0 then s else Exec(Apply(s, steps[0]), steps[1..])
  }

  /** A new installation: no rows and no actors. Restarts are crashes followed by new actors. */
  ghost predicate Start(s: Sys) {
    s.db.events == map[] && s.db.jobs == map[] && s.actors == map[] && s.calls == map[] && s.claimant == map[]
  }

  lemma {:induction false} RunKeepsInv(s: Sys, steps: seq<Step>)
    requires Inv(s) && ValidRun(s, steps)
    ensures Inv(Exec(s, steps))
    decreases |steps|
  {
    if |steps| > 0 {
      StepKeepsInv(s, steps[0]);
      RunKeepsInv(Apply(s, steps[0]), steps[1..]);
    }
  }

  lemma StartIsSafe(s: Sys)
    requires Start(s)
    ensures Inv(s)
  {
  }

  // ---------- ownership over whole runs ----------

  /** In every reachable state a job has at most one live owner. */
  lemma AtMostOneOwner(s: Sys, steps: seq<Step>, a: nat, b: nat)
    requires Start(s) && ValidRun(s, steps)
    requires a in Exec(s, steps).actors && b in Exec(s, steps).actors
    requires Holds(Exec(s, steps).actors[a]).Some? && Holds(Exec(s, steps).actors[a]) == Holds(Exec(s, steps).actors[b])
    ensures a == b
  {
    StartIsSafe(s);
    RunKeepsInv(s, steps);
    var t := Exec(s, steps);
    assert HeldBy(t, Holds(t.actors[a]).value, a) && HeldBy(t, Holds(t.actors[b]).value, b);
  }

  /**
   The final write is guarded by nothing but the row id, yet in every reachable
   state it lands on a row that its writer claimed last and that is still in
   progress, and it takes exactly that row out of progress.
   */
  lemma WritesLandOnClaimedRows(s: Sys, steps: seq<Step>, step: Step, job: nat)
    requires Start(s) && ValidRun(s, steps)
    requires Enabled(Exec(s, steps), step) && (step.WriteOutcome? || step.ReplayWrites?)
    requires Holds(Exec(s, steps).actors[step.actor]) == Some(job)
    ensures HeldBy(Exec(s, steps), job, step.actor)
    ensures var t, u := Exec(s, steps), Apply(Exec(s, steps), step);
            job in u.db.jobs && !u.db.jobs[job].status.InProgress? && u.db.jobs[job].attempts == t.db.jobs[job].attempts
            && u.db == t.db.(jobs := t.db.jobs[job := u.db.jobs[job]])
  {
    StartIsSafe(s);
    RunKeepsInv(s, steps);
    var t := Exec(s, steps);
    assert HeldBy(t, Holds(t.actors[step.actor]).value, step.actor);
    WriteEndsProgress(t, step, job);
  }

  lemma WriteEndsProgress(t: Sys, step: Step, job: nat)
    requires Enabled(t, step) && (step.WriteOutcome? || step.ReplayWrites?)
    requires Holds(t.actors[step.actor]) == Some(job) && job in t.db.jobs
    ensures var u := Apply(t, step);
            job in u.db.jobs && !u.db.jobs[job].status.InProgress? && u.db.jobs[job].attempts == t.db.jobs[job].attempts
            && u.db == t.db.(jobs := t.db.jobs[job := u.db.jobs[job]])
  {
  }

  /** The entry of a nonempty backoff list after so many starts: the first one first, the last one from then on. */
  function Clamp(calls: nat, length: nat): (i: nat)
    requires length > 0
    ensures i < length
    ensures calls > 0 ==> i + 1 == calls || (i + 1 == length && length < calls)
    ensures calls == 0 ==> i == 0
  {
    if calls == 0 then 0 else if calls <= length then calls - 1 else length - 1
  }

  /**
   What the scheduler writes, in terms of how often it has started the job:
   completed exactly on success, given up exactly when the budget is spent, and
   otherwise failed, to be retried after the delay for that many starts.
   */
  lemma VerdictsFollowTheBudget(s: Sys, steps: seq<Step>, a: nat)
    requires Start(s) && ValidRun(s, steps) && Enabled(Exec(s, steps), WriteOutcome(a))
    ensures var t, u := Exec(s, steps), Apply(Exec(s, steps), WriteOutcome(a));
            var job := t.actors[a].s.job;
            job in t.db.jobs && job in u.db.jobs &&
            var row, spent := u.db.jobs[job], Calls(t, job) >= PolicyOf(t, t.db.jobs[job].processor).maxRetries;
            && (row.status.Completed? <==> t.actors[a].s.Succeeded?)
            && (row.status.Abandoned? <==> t.actors[a].s.Deciding? && spent)
            && (row.status.Failed? <==> t.actors[a].s.Deciding? && !spent)
            && (row.status.Failed? ==>
                  var policy := PolicyOf(t, t.db.jobs[job].processor);
                  var list := policy.backoff;
                  row.nextRetryAt == Some(t.now + if |list| == 0 then 60 else list[Clamp(Calls(t, job), |list|)]))
            && (!row.status.Failed? ==> row.nextRetryAt.None?)
  {
    StartIsSafe(s);
    RunKeepsInv(s, steps);
    var t := Exec(s, steps);
    assert HeldBy(t, Holds(t.actors[a]).value, a);
    assert CountsAttempts(t, t.actors[a].s);
  }

  // ---------- cleanup over whole runs ----------

  /**
   Whatever ran between the three statements, and however stale the locked
   candidates were, the commit removes only finished jobs, removes an event
   only together with all its jobs, and leaves every job with its event.
   */
  lemma CleanupIsSafe(s: Sys, steps: seq<Step>, a: nat)
    requires Start(s) && ValidRun(s, steps) && Enabled(Exec(s, steps), Commit(a))
    ensures var t, u := Exec(s, steps), Apply(Exec(s, steps), Commit(a));
            && ForeignKeys(u.db)
            && (forall j :: j in t.db.jobs && j !in u.db.jobs ==> Terminal(t.db.jobs[j].status))
            && (forall e :: e in t.db.events && e !in u.db.events ==>
              e in t.actors[a].c.events && forall j :: j in t.db.jobs && t.db.jobs[j].eventId == e ==> j !in u.db.jobs)
            && (forall b :: b in t.actors && Holds(t.actors[b]).Some? ==> Holds(t.actors[b]).value in u.db.jobs)
  {
    StartIsSafe(s);
    RunKeepsInv(s, steps);
    var t := Exec(s, steps);
    CommitKeeps(t, a);
    assert CleanerOk(t.db, t.actors[a].c);
    forall b | b in t.actors && Holds(t.actors[b]).Some? ensures Holds(t.actors[b]).value in DoCommit(t, a).db.jobs {
      assert HeldBy(t, Holds(t.actors[b]).value, b);
    }
  }

  /**
   A cleanup that locks what it has found and is not disturbed removes exactly the
   old, dispatched events without unfinished jobs, together with their jobs.
   */
  lemma UndisturbedCleanup(s: Sys, a: nat, cutoff: int) returns (steps: seq<Step>)
    requires a !in s.actors && forall e :: e in Candidates(s.db, cutoff) ==> EventFree(s, e)
    ensures |steps| == 4 && ValidRun(s, steps)
    ensures var t := Exec(s, steps);
            t.actors == s.actors && CleanedUp(s.db, t.db, cutoff)
  {
    var found := Candidates(s.db, cutoff);
    steps := [LockCandidates(a, found), DeleteJobs(a), DeleteEvents(a), Commit(a)];
    var s1, s2, s3, t := CleanupStates(s, a, found);
    FourSteps(s, steps, s1, s2, s3, t);
    CandidatesAreCleanedUp(s.db, cutoff);
  }

  lemma CleanupStates(s: Sys, a: nat, found: set<nat>) returns (s1: Sys, s2: Sys, s3: Sys, t: Sys)
    requires a !in s.actors && found <= s.db.events.Keys
    requires forall id :: id in s.db.jobs && s.db.jobs[id].eventId in found ==> Terminal(s.db.jobs[id].status)
    ensures s1 == SetActor(s, a, Cleaner(Locked(found))) && s2 == DoDeleteJobs(s1, a)
    ensures IsCleaner(s2, a) && s2.actors[a].c.JobsGone? && s3 == DoDeleteEvents(s2, a)
    ensures IsCleaner(s3, a) && s3.actors[a].c.EventsGone? && t == DoCommit(s3, a)
    ensures t.actors == s.actors && t.db == Remove(s.db, TerminalJobs(s.db, found), found)
  {
    s1 := SetActor(s, a, Cleaner(Locked(found)));
    s2 := DoDeleteJobs(s1, a);
    s3 := DoDeleteEvents(s2, a);
    assert Childless(s.db, found, TerminalJobs(s.db, found)) == found;
    t := DoCommit(s3, a);
    assert t.actors == s.actors;
  }

  /** Rows of the tables disappear or stay as they are, and this decides which. */
  ghost predicate CleanedUp(before: Db, after: Db, cutoff: int) {
    && (forall e :: e in after.events ==> e in before.events && after.events[e] == before.events[e])
    && (forall e :: e in before.events ==>
          (e !in after.events <==>
           && before.events[e].createdAt < cutoff && before.events[e].dispatchedAt.Some?
           && forall id :: id in before.jobs && before.jobs[id].eventId == e ==>
                             before.jobs[id].status == Completed || before.jobs[id].status == Abandoned))
    && (forall id :: id in after.jobs ==> id in before.jobs && after.jobs[id] == before.jobs[id])
    && (forall id :: id in before.jobs && before.jobs[id].eventId in before.events ==>
          (id in after.jobs <==> before.jobs[id].eventId in after.events))
  }

  lemma CandidatesAreCleanedUp(db: Db, cutoff: int)
    ensures var found := Candidates(db, cutoff); CleanedUp(db, Remove(db, TerminalJobs(db, found), found), cutoff)
  {
  }

  lemma FourSteps(s: Sys, steps: seq<Step>, s1: Sys, s2: Sys, s3: Sys, t: Sys)
    requires |steps| == 4 && Enabled(s, steps[0]) && s1 == Apply(s, steps[0]) && Enabled(s1, steps[1])
    requires s2 == Apply(s1, steps[1]) && Enabled(s2, steps[2]) && s3 == Apply(s2, steps[2]) && Enabled(s3, steps[3])
    requires t == Apply(s3, steps[3])
    ensures ValidRun(s, steps) && Exec(s, steps) == t
  {
    var r1, r2, r3, r4 := steps[1..], steps[1..][1..], steps[1..][1..][1..], steps[1..][1..][1..][1..];
    assert r1[0] == steps[1] && r2[0] == steps[2] && r3[0] == steps[3] && |r4| == 0;
    assert ValidRun(t, r4) && Exec(t, r4) == t;
    assert ValidRun(s3, r3) && Exec(s3, r3) == t;
    assert ValidRun(s2, r2) && Exec(s2, r2) == t;
    assert ValidRun(s1, r1) && Exec(s1, r1) == t;
  }

  // ---------- bounded execution ----------

  /** Does this step make the scheduler start the job? */
  predicate Starts(s: Sys, step: Step, job: nat) {
    step.ClaimQueued? && IsQueued(s, step.actor) && s.actors[step.actor].s.job == job
    && job in s.db.jobs && Claimable(s.db.jobs[job], s.now)
  }

  ghost function StartsIn(s: Sys, steps: seq<Step>, job: nat): nat
    requires ValidRun(s, steps)
    decreases |steps|
  {
    if |steps| == 0 then 0
    else (if Starts(s, steps[0], job) then 1 else 0) + StartsIn(Apply(s, steps[0]), steps[1..], job)
  }

  /** The job whose row a statement may rewrite. */
  function Touches(s: Sys, step: Step): Option<nat>
    requires Enabled(s, step)
  {
    match step
    case AbandonIneligible(a, _) => Some(s.actors[a].s.job)
    case ClaimQueued(a) => Some(s.actors[a].s.job)
    case WriteOutcome(a) => Some(s.actors[a].s.job)
    case ReplayClaims(a) => Some(s.actors[a].r.job)
    case ReplayWrites(a) => Some(s.actors[a].r.job)
    case _ => None
  }

  /** All other rows are left alone, except that a cleanup may remove finished ones. */
  lemma OtherRowsStay(s: Sys, step: Step, job: nat)
    requires WellFormed(s.db) && Cleanups(s) && Enabled(s, step)
    requires job < s.db.nextJob && Touches(s, step) != Some(job)
    ensures var t := Apply(s, step);
            && job < t.db.nextJob
            && (job in t.db.jobs ==> job in s.db.jobs && t.db.jobs[job] == s.db.jobs[job])
            && (job in s.db.jobs && job !in t.db.jobs ==> Terminal(s.db.jobs[job].status))
  {
    if step.DispatchEvent? {
      DispatchLeavesRow(s, step.eventId, step.names, job);
    } else if step.ReplayCreate? {
      InsertKeepsTables(s.db, step.eventId, step.processor);
    } else if step.Commit? {
      assert CleanerOk(s.db, s.actors[step.actor].c);
    } else {
      StatementLeavesRow(s, step, job);
    }
  }

  lemma StatementLeavesRow(s: Sys, step: Step, job: nat)
    requires Enabled(s, step) && Touches(s, step) != Some(job)
    requires !step.DispatchEvent? && !step.ReplayCreate? && !step.Commit?
    ensures var t := Apply(s, step);
            && t.db.nextJob == s.db.nextJob && (job in t.db.jobs <==> job in s.db.jobs)
            && (job in s.db.jobs ==> t.db.jobs[job] == s.db.jobs[job])
  {
  }

  lemma DispatchLeavesRow(s: Sys, e: nat, names: seq<string>, job: nat)
    requires WellFormed(s.db) && job < s.db.nextJob
    ensures var db := Dispatch(s.db, e, names, s.now);
            && job < db.nextJob && (job in db.jobs <==> job in s.db.jobs)
            && (job in s.db.jobs ==> db.jobs[job] == s.db.jobs[job])
  {
    if Dispatchable(s.db, e) { InsertAllExtends(s.db, e, names); }
  }

  /** A job keeps its event and processor for life, and its id is never used again. */
  lemma StepKeepsIdentity(s: Sys, step: Step, job: nat)
    requires WellFormed(s.db) && Cleanups(s) && Enabled(s, step) && job < s.db.nextJob
    ensures var t := Apply(s, step);
            && job < t.db.nextJob
            && (job in t.db.jobs ==> job in s.db.jobs && SameTarget(t.db.jobs[job], s.db.jobs[job]))
  {
    if Touches(s, step) == Some(job) { TouchedRowKeepsTarget(s, step, job); } else { OtherRowsStay(s, step, job); }
  }

  lemma TouchedRowKeepsTarget(s: Sys, step: Step, job: nat)
    requires Enabled(s, step) && Touches(s, step) == Some(job)
    ensures var t := Apply(s, step);
            && t.db.nextJob == s.db.nextJob
            && (job in t.db.jobs ==> job in s.db.jobs && SameTarget(t.db.jobs[job], s.db.jobs[job]))
  {
  }

  lemma PoliciesAreFixed(s: Sys, step: Step)
    requires Enabled(s, step)
    ensures Apply(s, step).policies == s.policies
  {
  }

  lemma StepCountsStarts(s: Sys, step: Step, job: nat)
    requires Enabled(s, step)
    ensures Calls(Apply(s, step), job) == Calls(s, job) + if Starts(s, step, job) then 1 else 0
  {
  }

  /**
   Over its whole life the scheduler starts a job at most `max(1, max_retries)`
   times, whatever crashes, replays and cleanups happen in between.
   */
  lemma {:induction false} LifetimeBound(s: Sys, steps: seq<Step>, job: nat, processor: string)
    requires Inv(s) && ValidRun(s, steps) && job < s.db.nextJob
    requires job in s.db.jobs ==> s.db.jobs[job].processor == processor
    requires Calls(s, job) <= Cap(PolicyOf(s, processor))
    ensures Calls(s, job) + StartsIn(s, steps, job) <= Cap(PolicyOf(s, processor))
    decreases |steps|
  {
    if |steps| > 0 {
      var t := Apply(s, steps[0]);
      StepKeepsInv(s, steps[0]);
      StepKeepsIdentity(s, steps[0], job);
      StepCountsStarts(s, steps[0], job);
      PoliciesAreFixed(s, steps[0]);
      assert job in t.db.jobs ==> WithinBudget(t.db.jobs[job], Calls(t, job), PolicyOf(t, processor));
      assert Starts(s, steps[0], job) ==> job in t.db.jobs;
      LifetimeBound(t, steps[1..], job, processor);
    }
  }

  /** The history variable counts the starts of a run. */
  lemma {:induction false} CallsCountStarts(s: Sys, steps: seq<Step>, job: nat)
    requires ValidRun(s, steps)
    ensures Calls(Exec(s, steps), job) == Calls(s, job) + StartsIn(s, steps, job)
    decreases |steps|
  {
    if |steps| > 0 {
      StepCountsStarts(s, steps[0], job);
      CallsCountStarts(Apply(s, steps[0]), steps[1..], job);
    }
  }

  /** The bound for every job of every reachable state: its starts up to then and in any continuation. */
  lemma EveryJobIsBounded(s: Sys, steps: seq<Step>, more: seq<Step>, job: nat)
    requires Start(s) && ValidRun(s, steps) && ValidRun(Exec(s, steps), more)
    requires job in Exec(s, steps).db.jobs
    ensures var t := Exec(s, steps);
            var retries := PolicyOf(t, t.db.jobs[job].processor).maxRetries;
            StartsIn(s, steps, job) + StartsIn(t, more, job) <= if retries == 0 then 1 else retries
  {
    StartIsSafe(s);
    CallsCountStarts(s, steps, job);
    RunKeepsInv(s, steps);
    var t := Exec(s, steps);
    var processor := t.db.jobs[job].processor;
    assert WithinBudget(t.db.jobs[job], Calls(t, job), PolicyOf(t, processor));
    LifetimeBound(t, more, job, processor);
  }

  // ---------- replayed and orphaned jobs ----------

  /** No sweep can ever start the job again. */
  ghost predicate Retired(s: Sys, job: nat) {
    job < s.db.nextJob &&
    (forall a :: a in s.actors && s.actors[a].Scheduler? ==> Holds(s.actors[a]) != Some(job)) &&
    (job in s.db.jobs ==> !s.db.jobs[job].status.Pending?
                          && (s.db.jobs[job].status.Failed? ==> s.db.jobs[job].nextRetryAt.None?))
  }

  /** Only a claim or a replay claim makes an actor a holder. */
  lemma NewHolders(s: Sys, step: Step, b: nat)
    requires Enabled(s, step) && b in Apply(s, step).actors && Holds(Apply(s, step).actors[b]).Some?
    ensures (b in s.actors && Holds(s.actors[b]) == Holds(Apply(s, step).actors[b])
             && s.actors[b].Scheduler? == Apply(s, step).actors[b].Scheduler?)
            || (step.ClaimQueued? && Starts(s, step, Holds(Apply(s, step).actors[b]).value))
            || (step.ReplayClaims? && Apply(s, step).actors[b].Replayer?
                && ReplayClaimable(s.db, Holds(Apply(s, step).actors[b]).value))
  {
  }

  lemma RetiredStep(s: Sys, step: Step, job: nat)
    requires Inv(s) && Enabled(s, step) && Retired(s, job)
    ensures Retired(Apply(s, step), job) && !Starts(s, step, job)
  {
    var t := Apply(s, step);
    if Touches(s, step) != Some(job) { OtherRowsStay(s, step, job); }
    forall b | b in t.actors && t.actors[b].Scheduler? ensures Holds(t.actors[b]) != Some(job) {
      if Holds(t.actors[b]).Some? { NewHolders(s, step, b); }
    }
  }

  lemma {:induction false} RetiredForever(s: Sys, steps: seq<Step>, job: nat)
    requires Inv(s) && ValidRun(s, steps) && Retired(s, job)
    ensures Retired(Exec(s, steps), job) && StartsIn(s, steps, job) == 0
    decreases |steps|
  {
    if |steps| > 0 {
      StepKeepsInv(s, steps[0]);
      RetiredStep(s, steps[0], job);
      RetiredForever(Apply(s, steps[0]), steps[1..], job);
    }
  }

  /** Once a replay has claimed a job, no later sweep runs it again, whether the replay succeeds, fails or dies. */
  lemma ReplayedJobsAreNeverSwept(s: Sys, a: nat, steps: seq<Step>)
    requires Inv(s) && Enabled(s, ReplayClaims(a)) && ReplayClaimable(s.db, s.actors[a].r.job)
    requires ValidRun(Apply(s, ReplayClaims(a)), steps)
    ensures StartsIn(Apply(s, ReplayClaims(a)), steps, s.actors[a].r.job) == 0
  {
    var t, job := Apply(s, ReplayClaims(a)), s.actors[a].r.job;
    StepKeepsInv(s, ReplayClaims(a));
    forall b | b in t.actors && t.actors[b].Scheduler? ensures Holds(t.actors[b]) != Some(job) {
      assert Holds(s.actors[b]).Some? ==> HeldBy(s, Holds(s.actors[b]).value, b);
    }
    RetiredForever(t, steps, job);
  }

  /** In progress, but the actor that claimed it is gone. */
  ghost predicate Orphaned(s: Sys, job: nat) {
    job in s.db.jobs && s.db.jobs[job].status.InProgress?
    && forall a :: a in s.actors ==> Holds(s.actors[a]) != Some(job)
  }

  lemma OrphanStep(s: Sys, step: Step, job: nat)
    requires Inv(s) && Enabled(s, step) && Orphaned(s, job)
    ensures Orphaned(Apply(s, step), job)
  {
    var t := Apply(s, step);
    RowOfOrphan(s, step, job);
    forall b | b in t.actors ensures Holds(t.actors[b]) != Some(job) {
      if Holds(t.actors[b]).Some? { NewHolders(s, step, b); }
    }
  }

  lemma RowOfOrphan(s: Sys, step: Step, job: nat)
    requires WellFormed(s.db) && Cleanups(s) && Enabled(s, step) && Orphaned(s, job)
    ensures job in Apply(s, step).db.jobs && Apply(s, step).db.jobs[job] == s.db.jobs[job]
  {
    if Touches(s, step) != Some(job) {
      OtherRowsStay(s, step, job);
    }
  }

  lemma {:induction false} OrphanForever(s: Sys, steps: seq<Step>, job: nat)
    requires Inv(s) && ValidRun(s, steps) && Orphaned(s, job)
    ensures Orphaned(Exec(s, steps), job)
    decreases |steps|
  {
    if |steps| > 0 {
      StepKeepsInv(s, steps[0]);
      OrphanStep(s, steps[0], job);
      OrphanForever(Apply(s, steps[0]), steps[1..], job);
    }
  }

  /**
   A crash between claim and final write leaves the job in progress for good:
   no sweep, replay or cleanup of any later run touches it. (The design
   document promises that such jobs return to `pending`; no code does that.)
   */
  lemma CrashedJobsStayInProgress(s: Sys, a: nat, job: nat, steps: seq<Step>)
    requires Inv(s) && a in s.actors && Holds(s.actors[a]) == Some(job)
    requires ValidRun(Apply(s, Crash(a)), steps)
    ensures Orphaned(Exec(Apply(s, Crash(a)), steps), job)
  {
    var t := Apply(s, Crash(a));
    StepKeepsInv(s, Crash(a));
    assert HeldBy(s, job, a);
    forall b | b in t.actors ensures Holds(t.actors[b]) != Some(job) {
      assert Holds(s.actors[b]).Some? ==> HeldBy(s, Holds(s.actors[b]).value, b);
    }
    OrphanForever(t, steps, job);
  }

  // ---------- dispatch exactly once ----------

  predicate Registers(s: Sys, step: Step, eventId: nat) {
    step.DispatchEvent? && step.eventId == eventId && Dispatchable(s.db, eventId)
  }

  ghost function RegistrationsIn(s: Sys, steps: seq<Step>, eventId: nat): nat
    requires ValidRun(s, steps)
    decreases |steps|
  {
    if |steps| == 0 then 0
    else (if Registers(s, steps[0], eventId) then 1 else 0) + RegistrationsIn(Apply(s, steps[0]), steps[1..], eventId)
  }

  /** The event can still be dispatched now or after its ingestion. */
  predicate Undispatched(s: Sys, eventId: nat) {
    Dispatchable(s.db, eventId) || s.nextEvent <= eventId
  }

  lemma MarkerIsSetOnce(s: Sys, step: Step, eventId: nat)
    requires Inv(s) && Enabled(s, step)
    ensures Undispatched(Apply(s, step), eventId) ==> Undispatched(s, eventId) && !Registers(s, step, eventId)
    ensures eventId in s.db.events && s.db.events[eventId].dispatchedAt.Some? && eventId in Apply(s, step).db.events ==>
              Apply(s, step).db.events[eventId] == s.db.events[eventId]
  {
    if step.DispatchEvent? {
      DispatchSetsMarker(s, step.eventId, step.names);
    } else if step.ReplayCreate? {
      InsertKeepsTables(s.db, step.eventId, step.processor);
    } else if !step.Commit? && !step.Ingest? {
      StatementKeepsEvents(s, step);
    }
  }

  lemma StatementKeepsEvents(s: Sys, step: Step)
    requires Enabled(s, step) && !step.DispatchEvent? && !step.ReplayCreate? && !step.Commit? && !step.Ingest?
    ensures Apply(s, step).db.events == s.db.events && Apply(s, step).nextEvent == s.nextEvent
  {
  }

  lemma DispatchSetsMarker(s: Sys, e: nat, names: seq<string>)
    requires WellFormed(s.db)
    ensures var db := Dispatch(s.db, e, names, s.now);
            && db.events.Keys == s.db.events.Keys
            && (forall other :: other in s.db.events && other != e ==> db.events[other] == s.db.events[other])
            && (Dispatchable(s.db, e) ==> e in db.events && db.events[e].dispatchedAt.Some?)
            && (!Dispatchable(s.db, e) ==> db == s.db)
  {
    if Dispatchable(s.db, e) { InsertAllExtends(s.db, e, names); }
  }

  /** However batches from notifications and polls overlap, one event is registered at most once. */
  lemma {:induction false} DispatchedAtMostOnce(s: Sys, steps: seq<Step>, eventId: nat)
    requires Inv(s) && ValidRun(s, steps)
    ensures RegistrationsIn(s, steps, eventId) <= 1
    ensures !Undispatched(s, eventId) ==> RegistrationsIn(s, steps, eventId) == 0
    decreases |steps|
  {
    if |steps| > 0 {
      StepKeepsInv(s, steps[0]);
      MarkerIsSetOnce(s, steps[0], eventId);
      DispatchedAtMostOnce(Apply(s, steps[0]), steps[1..], eventId);
    }
  }

  /** The effective registration gives every named processor exactly one job and sets the marker. */
  lemma RegistrationCreatesOneJobEach(s: Sys, eventId: nat, names: seq<string>, processor: string)
    requires Inv(s) && Enabled(s, DispatchEvent(eventId, names)) && Dispatchable(s.db, eventId)
    requires processor in names
    ensures var t := Apply(s, DispatchEvent(eventId, names));
            && t.db.events[eventId].dispatchedAt == Some(s.now)
            && (exists i :: i in t.db.jobs && t.db.jobs[i].eventId == eventId && t.db.jobs[i].processor == processor)
            && forall i, j | i in t.db.jobs && j in t.db.jobs && t.db.jobs[i].eventId == t.db.jobs[j].eventId == eventId
                             && t.db.jobs[i].processor == t.db.jobs[j].processor == processor :: i == j
  {
    InsertAllExtends(s.db, eventId, names);
    var t := Apply(s, DispatchEvent(eventId, names));
    assert t.db.jobs == InsertAll(s.db, eventId, names).jobs;
    forall i, j | i in t.db.jobs && j in t.db.jobs && t.db.jobs[i].eventId == t.db.jobs[j].eventId == eventId
      && t.db.jobs[i].processor == t.db.jobs[j].processor == processor
      ensures i == j
    {
      assert SameTarget(t.db.jobs[i], t.db.jobs[j]);
    }
  }
}
