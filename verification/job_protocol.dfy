/**
 The actors that race over the job tables: dispatchers and retry sweeps,
 explicit replays and retention cleanups, in any number and any interleaving,
 each allowed to crash between two statements. A statement is one atomic step.

 A statement that fails, or whose acknowledgement is lost, leaves its actor
 without the job; that is a `Crash` before or after the statement.
 */
module JobProtocol {
  import opened Wrappers
  import opened JobStore

  /** Where a dispatcher or sweep stands with one job. */
  datatype SchedulerPc =
    | Queued(job: nat)                     // knows an id, possibly from a stale scan
    | Running(job: nat)                    // claimed, processor executing
    | Succeeded(job: nat)                  // about to write `completed`
    | FailedRun(job: nat)                  // about to read the attempt count
    | Deciding(job: nat, attempts: nat)    // about to write the verdict

  /** Where an explicit replay stands with one job. */
  datatype ReplayPc =
    | ReplayQueued(job: nat)
    | ReplayRunning(job: nat)
    | ReplayDone(job: nat, success: bool)

  /** An open cleanup transaction: locked events, then removed jobs, then removed events. */
  datatype CleanupPc =
    | Locked(events: set<nat>)
    | JobsGone(events: set<nat>, jobs: set<nat>)
    | EventsGone(events: set<nat>, jobs: set<nat>, gone: set<nat>)

  datatype Actor = Scheduler(s: SchedulerPc) | Replayer(r: ReplayPc) | Cleaner(c: CleanupPc)

  /**
   Committed tables, the live actors, and two histories: who claimed a job
   last, and how often the scheduler has started it.
   */
  datatype Sys = Sys(
    db: Db,
    nextEvent: nat,
    now: int,
    actors: map<nat, Actor>,
    claimant: map<nat, nat>,
    calls: map<nat, nat>,
    policies: map<string, Policy>)

  datatype Step =
    | Tick(time: int)
    | Ingest(event: Event)
    | DispatchEvent(eventId: nat, names: seq<string>)
    | Pick(actor: nat, job: nat)
    | AbandonIneligible(actor: nat, reason: string)
    | ClaimQueued(actor: nat)
    | ProcessorReturns(actor: nat, success: bool)
    | ReadAttempts(actor: nat)
    | WriteOutcome(actor: nat)
    | ReplayPick(actor: nat, job: nat)
    | ReplayCreate(actor: nat, eventId: nat, processor: string)
    | ReplayClaims(actor: nat)
    | ReplayReturns(actor: nat, success: bool)
    | ReplayWrites(actor: nat)
    | LockCandidates(actor: nat, events: set<nat>)
    | DeleteJobs(actor: nat)
    | DeleteEvents(actor: nat)
    | Commit(actor: nat)
    | Crash(actor: nat)

  // ---------- locks and ownership ----------

  function LockedEvents(a: Actor): set<nat> {
    if a.Cleaner? then a.c.events else {}
  }

  function LockedJobs(a: Actor): set<nat> {
    if a.Cleaner? && !a.c.Locked? then a.c.jobs else {}
  }

  /** The job an actor has claimed and not yet written back. */
  function Holds(a: Actor): Option<nat> {
    match a
    case Scheduler(Queued(_)) => None
    case Scheduler(Running(j)) => Some(j)
    case Scheduler(Succeeded(j)) => Some(j)
    case Scheduler(FailedRun(j)) => Some(j)
    case Scheduler(Deciding(j, _)) => Some(j)
    case Replayer(ReplayQueued(_)) => None
    case Replayer(ReplayRunning(j)) => Some(j)
    case Replayer(ReplayDone(j, _)) => Some(j)
    case Cleaner(_) => None
  }

  /** A row lock taken by an uncommitted cleanup delays every other writer of that row. */
  predicate JobFree(s: Sys, job: nat) {
    forall a :: a in s.actors ==> job !in LockedJobs(s.actors[a])
  }

  /** Job inserts and dispatches wait for the event row lock of a cleanup. */
  predicate EventFree(s: Sys, eventId: nat) {
    forall a :: a in s.actors ==> eventId !in LockedEvents(s.actors[a])
  }

  function Calls(s: Sys, job: nat): nat {
    if job in s.calls then s.calls[job] else 0
  }

  function PolicyOf(s: Sys, processor: string): Policy {
    if processor in s.policies then s.policies[processor] else Policy(0, [])
  }

  // ---------- the step relation ----------

  predicate IsQueued(s: Sys, a: nat) {
    a in s.actors && s.actors[a].Scheduler? && s.actors[a].s.Queued?
  }

  predicate IsRunning(s: Sys, a: nat) {
    a in s.actors && s.actors[a].Scheduler? && s.actors[a].s.Running?
  }

  predicate IsFailedRun(s: Sys, a: nat) {
    a in s.actors && s.actors[a].Scheduler? && s.actors[a].s.FailedRun?
  }

  predicate IsWriting(s: Sys, a: nat) {
    a in s.actors && s.actors[a].Scheduler? && (s.actors[a].s.Succeeded? || s.actors[a].s.Deciding?)
  }

  predicate IsReplay(s: Sys, a: nat) {
    a in s.actors && s.actors[a].Replayer?
  }

  predicate IsCleaner(s: Sys, a: nat) {
    a in s.actors && s.actors[a].Cleaner?
  }

  predicate Enabled(s: Sys, step: Step) {
    match step
    case Tick(t) => s.now <= t
    case Ingest(event) => event.dispatchedAt.None?
    case DispatchEvent(e, _) => EventFree(s, e)
    case Pick(a, _) => a !in s.actors
    case AbandonIneligible(a, _) => IsQueued(s, a) && JobFree(s, s.actors[a].s.job)
    case ClaimQueued(a) => IsQueued(s, a) && JobFree(s, s.actors[a].s.job)
    case ProcessorReturns(a, _) => IsRunning(s, a)
    case ReadAttempts(a) => IsFailedRun(s, a)
    case WriteOutcome(a) => IsWriting(s, a) && JobFree(s, s.actors[a].s.job)
    case ReplayPick(a, _) => a !in s.actors
    case ReplayCreate(a, e, _) => a !in s.actors && e in s.db.events && EventFree(s, e)
    case ReplayClaims(a) => IsReplay(s, a) && s.actors[a].r.ReplayQueued? && JobFree(s, s.actors[a].r.job)
    case ReplayReturns(a, _) => IsReplay(s, a) && s.actors[a].r.ReplayRunning?
    case ReplayWrites(a) => IsReplay(s, a) && s.actors[a].r.ReplayDone? && JobFree(s, s.actors[a].r.job)
    case LockCandidates(a, es) =>
      a !in s.actors && es <= s.db.events.Keys && forall e :: e in es ==> EventFree(s, e)
    case DeleteJobs(a) => IsCleaner(s, a) && s.actors[a].c.Locked?
    case DeleteEvents(a) => IsCleaner(s, a) && s.actors[a].c.JobsGone?
    case Commit(a) => IsCleaner(s, a) && s.actors[a].c.EventsGone?
    case Crash(a) => a in s.actors
  }

  function SetActor(s: Sys, a: nat, actor: Actor): Sys {
    s.(actors := s.actors[a := actor])
  }

  function Drop(s: Sys, a: nat): Sys {
    s.(actors := s.actors - {a})
  }

  function DoClaim(s: Sys, a: nat): Sys
    requires IsQueued(s, a)
  {
    var job := s.actors[a].s.job;
    if job in s.db.jobs && Claimable(s.db.jobs[job], s.now)
    then SetActor(s, a, Scheduler(Running(job)))
         .(db := Claim(s.db, job, s.now), claimant := s.claimant[job := a], calls := s.calls[job := Calls(s, job) + 1])
    else Drop(s, a)
  }

  /** `get_job_by_id` before the verdict; a vanished job ends the handling. */
  function DoReadAttempts(s: Sys, a: nat): Sys
    requires IsFailedRun(s, a)
  {
    var job := s.actors[a].s.job;
    if job in s.db.jobs then SetActor(s, a, Scheduler(Deciding(job, s.db.jobs[job].attempts))) else Drop(s, a)
  }

  function WriteVerdict(s: Sys, job: nat, attempts: nat): Db {
    var verdict := AfterFailure(attempts, PolicyOf(s, if job in s.db.jobs then s.db.jobs[job].processor else ""));
    match verdict
    case GiveUp => UpdateStatus(s.db, job, Abandoned, Some("failed"), None, None, Keep)
    case RetryAfter(d) => UpdateStatus(s.db, job, Failed, Some("failed"), Some(s.now + d), None, Keep)
  }

  function DoWrite(s: Sys, a: nat): Sys
    requires IsWriting(s, a)
  {
    var pc := s.actors[a].s;
    var db' := match pc
      case Deciding(job, attempts) => WriteVerdict(s, job, attempts)
      case _ => UpdateStatus(s.db, pc.job, Completed, None, None, Some("output"), Keep);
    Drop(s, a).(db := db')
  }

  function DoReplayClaim(s: Sys, a: nat): Sys
    requires IsReplay(s, a) && s.actors[a].r.ReplayQueued?
  {
    var job := s.actors[a].r.job;
    if ReplayClaimable(s.db, job)
    then SetActor(s, a, Replayer(ReplayRunning(job))).(db := ReplayClaim(s.db, job), claimant := s.claimant[job := a])
    else Drop(s, a)
  }

  /** A failed replay stores no retry time. */
  function DoReplayWrite(s: Sys, a: nat): Sys
    requires IsReplay(s, a) && s.actors[a].r.ReplayDone?
  {
    var pc := s.actors[a].r;
    Drop(s, a).(db := UpdateStatus(s.db, pc.job, if pc.success then Completed else Failed, None, None, None, Keep))
  }

  /** `create_job`; when the job already exists its id is looked up, which is a `ReplayPick`. */
  function DoReplayCreate(s: Sys, a: nat, eventId: nat, processor: string): Sys {
    if HasJob(s.db.jobs, eventId, processor) then s
    else SetActor(s, a, Replayer(ReplayQueued(s.db.nextJob))).(db := Insert(s.db, eventId, processor))
  }

  function DoDeleteJobs(s: Sys, a: nat): Sys
    requires IsCleaner(s, a) && s.actors[a].c.Locked?
  {
    var es := s.actors[a].c.events;
    SetActor(s, a, Cleaner(JobsGone(es, TerminalJobs(s.db, es))))
  }

  function DoDeleteEvents(s: Sys, a: nat): Sys
    requires IsCleaner(s, a) && s.actors[a].c.JobsGone?
  {
    var c := s.actors[a].c;
    SetActor(s, a, Cleaner(EventsGone(c.events, c.jobs, Childless(s.db, c.events, c.jobs))))
  }

  function DoCommit(s: Sys, a: nat): Sys
    requires IsCleaner(s, a) && s.actors[a].c.EventsGone?
  {
    Drop(s, a).(db := Remove(s.db, s.actors[a].c.jobs, s.actors[a].c.gone))
  }

  function Apply(s: Sys, step: Step): Sys
    requires Enabled(s, step)
  {
    match step
    case Tick(t) => s.(now := t)
    case Ingest(event) => s.(db := s.db.(events := s.db.events[s.nextEvent := event]), nextEvent := s.nextEvent + 1)
    case DispatchEvent(e, names) => s.(db := Dispatch(s.db, e, names, s.now))
    case Pick(a, job) => SetActor(s, a, Scheduler(Queued(job)))
    case AbandonIneligible(a, reason) => Drop(s, a).(db := Abandon(s.db, s.actors[a].s.job, s.now, reason))
    case ClaimQueued(a) => DoClaim(s, a)
    case ProcessorReturns(a, ok) =>
      SetActor(s, a, Scheduler(if ok then Succeeded(s.actors[a].s.job) else FailedRun(s.actors[a].s.job)))
    case ReadAttempts(a) => DoReadAttempts(s, a)
    case WriteOutcome(a) => DoWrite(s, a)
    case ReplayPick(a, job) => SetActor(s, a, Replayer(ReplayQueued(job)))
    case ReplayCreate(a, e, p) => DoReplayCreate(s, a, e, p)
    case ReplayClaims(a) => DoReplayClaim(s, a)
    case ReplayReturns(a, ok) => SetActor(s, a, Replayer(ReplayDone(s.actors[a].r.job, ok)))
    case ReplayWrites(a) => DoReplayWrite(s, a)
    case LockCandidates(a, es) => SetActor(s, a, Cleaner(Locked(es)))
    case DeleteJobs(a) => DoDeleteJobs(s, a)
    case DeleteEvents(a) => DoDeleteEvents(s, a)
    case Commit(a) => DoCommit(s, a)
    case Crash(a) => Drop(s, a)
  }
}
