/** What every step of every actor keeps: ownership of claimed jobs, cleanup locks, retry budgets. */
module JobInvariant {
  import opened Wrappers
  import opened JobStore
  import opened JobProtocol

  // ---------- the inductive invariant ----------

  /** A held job exists, is in progress, and was claimed last by its holder. */
  ghost predicate Ownership(s: Sys) {
    forall a :: a in s.actors && Holds(s.actors[a]).Some? ==> HeldBy(s, Holds(s.actors[a]).value, a)
  }

  ghost predicate HeldBy(s: Sys, job: nat, a: nat) {
    job in s.db.jobs && s.db.jobs[job].status.InProgress? && job in s.claimant && s.claimant[job] == a
  }

  ghost predicate CleanerOk(db: Db, c: CleanupPc) {
    c.events <= db.events.Keys &&
    (!c.Locked? ==> forall j :: j in c.jobs ==>
      j in db.jobs && db.jobs[j].eventId in c.events && Terminal(db.jobs[j].status)) &&
    (c.EventsGone? ==> c.gone <= c.events) &&
    (c.EventsGone? ==> forall j :: j in db.jobs && db.jobs[j].eventId in c.gone ==> j in c.jobs)
  }

  ghost predicate Cleanups(s: Sys) {
    (forall a :: IsCleaner(s, a) ==> CleanerOk(s.db, s.actors[a].c)) &&
    (forall a, b :: a in s.actors && b in s.actors && a != b ==>
      LockedEvents(s.actors[a]) !! LockedEvents(s.actors[b]))
  }

  function Cap(policy: Policy): nat {
    if policy.maxRetries == 0 then 1 else policy.maxRetries
  }

  /** Queued work still has budget; spent work is no longer claimable by a sweep. */
  ghost predicate WithinBudget(job: Job, calls: nat, policy: Policy) {
    calls <= Cap(policy) &&
    (job.status.Pending? ==> calls == job.attempts == 0) &&
    (job.status.Failed? && job.nextRetryAt.Some? ==> calls == job.attempts < policy.maxRetries)
  }

  ghost predicate Budget(s: Sys) {
    (forall j :: j in s.db.jobs ==> WithinBudget(s.db.jobs[j], Calls(s, j), PolicyOf(s, s.db.jobs[j].processor))) &&
    (forall a :: a in s.actors && s.actors[a].Scheduler? && Holds(s.actors[a]).Some? ==>
        CountsAttempts(s, s.actors[a].s)) &&
    (forall j :: j in s.calls ==> j < s.db.nextJob)
  }

  ghost predicate CountsAttempts(s: Sys, pc: SchedulerPc) {
    pc.job in s.db.jobs ==>
      s.db.jobs[pc.job].attempts == Calls(s, pc.job) && (pc.Deciding? ==> pc.attempts == Calls(s, pc.job))
  }

  ghost predicate FreshEvents(s: Sys) {
    forall e :: e in s.db.events ==> e < s.nextEvent
  }

  ghost predicate Inv(s: Sys) {
    WellFormed(s.db) && FreshEvents(s) && Ownership(s) && Cleanups(s) && Budget(s)
  }

  // ---------- one step keeps the invariant ----------

  /** A statement that rewrites one row and keeps what the row belongs to. */
  ghost predicate Rewrites(db: Db, db': Db, id: nat) {
    db' == db ||
    (id in db.jobs && id in db'.jobs && db' == db.(jobs := db.jobs[id := db'.jobs[id]])
     && SameTarget(db.jobs[id], db'.jobs[id]))
  }

  lemma RewriteKeepsTables(db: Db, db': Db, id: nat)
    requires WellFormed(db) && Rewrites(db, db', id)
    ensures WellFormed(db')
  {
    forall i, j | i in db'.jobs && j in db'.jobs && SameTarget(db'.jobs[i], db'.jobs[j]) ensures i == j {
      assert SameTarget(db.jobs[i], db.jobs[j]);
    }
  }

  /** Statements on one row: claim, abandonment, replay claim, final write. */
  lemma RewriteKeepsRest(s: Sys, s': Sys, id: nat)
    requires WellFormed(s.db) && FreshEvents(s) && Cleanups(s)
    requires Rewrites(s.db, s'.db, id) && s'.nextEvent == s.nextEvent
    requires JobFree(s, id) || s'.db == s.db
    requires s'.actors.Keys <= s.actors.Keys
    requires forall a :: a in s'.actors ==> s'.actors[a] == s.actors[a] || !s'.actors[a].Cleaner?
    ensures WellFormed(s'.db) && FreshEvents(s') && Cleanups(s')
  {
    RewriteKeepsTables(s.db, s'.db, id);
    forall a | IsCleaner(s', a) ensures CleanerOk(s'.db, s'.actors[a].c) {
      assert CleanerOk(s.db, s.actors[a].c);
      assert id !in LockedJobs(s.actors[a]) || s'.db == s.db;
    }
  }

  /** Writes to a row nobody else holds keep every other holder's row. */
  lemma OthersKeepRows(s: Sys, s': Sys, job: nat, a: nat)
    requires Ownership(s) && Rewrites(s.db, s'.db, job)
    requires s'.db == s.db || job !in s.db.jobs || !s.db.jobs[job].status.InProgress?
             || (job in s.claimant && s.claimant[job] == a)
    requires s'.claimant == s.claimant || s'.claimant == s.claimant[job := a]
    requires s'.claimant == s.claimant || (job in s.db.jobs && !s.db.jobs[job].status.InProgress?)
    requires forall b :: b in s'.actors && b != a ==> b in s.actors && s'.actors[b] == s.actors[b]
    requires a in s'.actors && Holds(s'.actors[a]).Some? ==> HeldBy(s', Holds(s'.actors[a]).value, a)
    ensures Ownership(s')
  {
    forall b | b in s'.actors && Holds(s'.actors[b]).Some? ensures HeldBy(s', Holds(s'.actors[b]).value, b) {
      if b != a { assert HeldBy(s, Holds(s.actors[b]).value, b); }
    }
  }

  lemma BudgetFrame(s: Sys, s': Sys, job: nat, a: nat)
    requires Ownership(s) && Budget(s) && FreshIds(s.db) && Rewrites(s.db, s'.db, job)
    requires s'.policies == s.policies
    requires s'.calls == s.calls || (job in s.db.jobs && s'.calls == s.calls[job := Calls(s, job) + 1])
    requires (s'.db == s.db && s'.calls == s.calls) || job !in s.db.jobs || !s.db.jobs[job].status.InProgress?
             || (job in s.claimant && s.claimant[job] == a)
    requires forall b :: b in s'.actors && b != a ==> b in s.actors && s'.actors[b] == s.actors[b]
    requires job in s'.db.jobs ==>
               WithinBudget(s'.db.jobs[job], Calls(s', job), PolicyOf(s', s'.db.jobs[job].processor))
    requires a in s'.actors && s'.actors[a].Scheduler? && Holds(s'.actors[a]).Some? ==>
               CountsAttempts(s', s'.actors[a].s)
    ensures Budget(s')
  {
    forall j | j in s'.db.jobs
      ensures WithinBudget(s'.db.jobs[j], Calls(s', j), PolicyOf(s', s'.db.jobs[j].processor))
    {
      if j != job { assert WithinBudget(s.db.jobs[j], Calls(s, j), PolicyOf(s, s.db.jobs[j].processor)); }
    }
    forall b | b in s'.actors && s'.actors[b].Scheduler? && Holds(s'.actors[b]).Some?
      ensures CountsAttempts(s', s'.actors[b].s)
    {
      if b != a {
        assert HeldBy(s, Holds(s.actors[b]).value, b);
        assert CountsAttempts(s, s.actors[b].s);
      }
    }
  }

  /** A claim spends one call of a budget that is not used up. */
  lemma ClaimSpendsBudget(job: Job, now: int, calls: nat, policy: Policy)
    requires Claimable(job, now) && WithinBudget(job, calls, policy)
    ensures WithinBudget(Claimed(job), calls + 1, policy) && Claimed(job).attempts == calls + 1
  {
  }

  lemma EffectiveClaimKeepsBudget(s: Sys, a: nat, job: nat)
    requires Inv(s) && Enabled(s, ClaimQueued(a)) && job == s.actors[a].s.job
    requires job in s.db.jobs && Claimable(s.db.jobs[job], s.now)
    ensures Budget(DoClaim(s, a))
  {
    ClaimSpendsBudget(s.db.jobs[job], s.now, Calls(s, job), PolicyOf(s, s.db.jobs[job].processor));
    BudgetFrame(s, DoClaim(s, a), job, a);
  }

  lemma EffectiveClaimKeepsRows(s: Sys, a: nat, job: nat)
    requires Inv(s) && Enabled(s, ClaimQueued(a)) && job == s.actors[a].s.job
    requires job in s.db.jobs && Claimable(s.db.jobs[job], s.now)
    ensures var s' := DoClaim(s, a); WellFormed(s'.db) && FreshEvents(s') && Cleanups(s') && Ownership(s')
  {
    var s' := DoClaim(s, a);
    RewriteKeepsRest(s, s', job);
    OthersKeepRows(s, s', job, a);
  }

  lemma ClaimKeeps(s: Sys, a: nat)
    requires Inv(s) && Enabled(s, ClaimQueued(a))
    ensures Inv(DoClaim(s, a))
  {
    var job := s.actors[a].s.job;
    if job in s.db.jobs && Claimable(s.db.jobs[job], s.now) {
      EffectiveClaimKeepsRows(s, a, job);
      EffectiveClaimKeepsBudget(s, a, job);
    } else {
      LocalKeeps(s, DoClaim(s, a), a);
    }
  }

  lemma AbandonKeeps(s: Sys, a: nat, reason: string)
    requires Inv(s) && Enabled(s, AbandonIneligible(a, reason))
    ensures Inv(Apply(s, AbandonIneligible(a, reason)))
  {
    var s' := Apply(s, AbandonIneligible(a, reason));
    var job := s.actors[a].s.job;
    RewriteKeepsRest(s, s', job);
    OthersKeepRows(s, s', job, a);
    assert job in s.db.jobs ==> WithinBudget(s.db.jobs[job], Calls(s, job), PolicyOf(s, s.db.jobs[job].processor));
    BudgetFrame(s, s', job, a);
  }

  lemma WriteKeeps(s: Sys, a: nat)
    requires Inv(s) && Enabled(s, WriteOutcome(a))
    ensures Inv(DoWrite(s, a))
  {
    var s' := DoWrite(s, a);
    var job := s.actors[a].s.job;
    assert HeldBy(s, job, a);
    RewriteKeepsRest(s, s', job);
    OthersKeepRows(s, s', job, a);
    assert WithinBudget(s.db.jobs[job], Calls(s, job), PolicyOf(s, s.db.jobs[job].processor));
    assert CountsAttempts(s, s.actors[a].s);
    BudgetFrame(s, s', job, a);
  }

  lemma ReplayClaimStaysInBudget(job: Job, calls: nat, policy: Policy)
    requires WithinBudget(job, calls, policy)
    ensures WithinBudget(ReplayClaimed(job), calls, policy)
  {
  }

  lemma EffectiveReplayClaimKeeps(s: Sys, a: nat, job: nat)
    requires Inv(s) && Enabled(s, ReplayClaims(a)) && job == s.actors[a].r.job && ReplayClaimable(s.db, job)
    ensures Inv(DoReplayClaim(s, a))
  {
    var s' := DoReplayClaim(s, a);
    RewriteKeepsRest(s, s', job);
    OthersKeepRows(s, s', job, a);
    ReplayClaimStaysInBudget(s.db.jobs[job], Calls(s, job), PolicyOf(s, s.db.jobs[job].processor));
    BudgetFrame(s, s', job, a);
  }

  lemma ReplayClaimKeeps(s: Sys, a: nat)
    requires Inv(s) && Enabled(s, ReplayClaims(a))
    ensures Inv(DoReplayClaim(s, a))
  {
    var job := s.actors[a].r.job;
    if ReplayClaimable(s.db, job) {
      EffectiveReplayClaimKeeps(s, a, job);
    } else {
      LocalKeeps(s, DoReplayClaim(s, a), a);
    }
  }

  lemma ReplayWriteKeeps(s: Sys, a: nat)
    requires Inv(s) && Enabled(s, ReplayWrites(a))
    ensures Inv(DoReplayWrite(s, a))
  {
    var s' := DoReplayWrite(s, a);
    var job := s.actors[a].r.job;
    assert HeldBy(s, job, a);
    RewriteKeepsRest(s, s', job);
    OthersKeepRows(s, s', job, a);
    assert WithinBudget(s.db.jobs[job], Calls(s, job), PolicyOf(s, s.db.jobs[job].processor));
    BudgetFrame(s, s', job, a);
  }

  /** Steps that move one actor and touch no table. */
  lemma LocalKeeps(s: Sys, s': Sys, a: nat)
    requires Inv(s)
    requires s' == s.(actors := s'.actors)
    requires forall b :: b in s'.actors && b != a ==> b in s.actors && s'.actors[b] == s.actors[b]
    requires a in s'.actors ==> !s'.actors[a].Cleaner?
    requires a in s'.actors && Holds(s'.actors[a]).Some? ==>
               a in s.actors && Holds(s.actors[a]) == Holds(s'.actors[a])
                   && s.actors[a].Scheduler? == s'.actors[a].Scheduler?
    requires a in s'.actors && s'.actors[a].Scheduler? && Holds(s'.actors[a]).Some? ==>
               CountsAttempts(s', s'.actors[a].s)
    ensures Inv(s')
  {
    forall b | b in s'.actors && Holds(s'.actors[b]).Some? ensures HeldBy(s', Holds(s'.actors[b]).value, b) {
      assert HeldBy(s, Holds(s.actors[b]).value, b);
    }
    forall b | b in s'.actors && s'.actors[b].Scheduler? && Holds(s'.actors[b]).Some?
      ensures CountsAttempts(s', s'.actors[b].s)
    {
      if b != a { assert CountsAttempts(s, s.actors[b].s); }
    }
    forall b | IsCleaner(s', b) ensures CleanerOk(s'.db, s'.actors[b].c) {
      assert CleanerOk(s.db, s.actors[b].c);
    }
  }

  lemma ReturnKeeps(s: Sys, step: Step, a: nat)
    requires Inv(s) && Enabled(s, step)
    requires (step.ProcessorReturns? || step.ReplayReturns?) && step.actor == a
    ensures Inv(Apply(s, step))
  {
    assert step.ProcessorReturns? ==> CountsAttempts(s, s.actors[a].s);
    LocalKeeps(s, Apply(s, step), a);
  }

  lemma ReadKeeps(s: Sys, a: nat)
    requires Inv(s) && Enabled(s, ReadAttempts(a))
    ensures Inv(DoReadAttempts(s, a))
  {
    assert CountsAttempts(s, s.actors[a].s);
    LocalKeeps(s, DoReadAttempts(s, a), a);
  }

  /** Steps that only add rows: ingestion, dispatch, job creation by a replay. */
  ghost predicate Grows(s: Sys, s': Sys, eventId: nat) {
    s'.claimant == s.claimant && s'.calls == s.calls && s'.policies == s.policies
    && s.db.events.Keys <= s'.db.events.Keys
    && Extends(s.db.(events := s'.db.events), s'.db, eventId)
    && (s'.db.jobs == s.db.jobs || EventFree(s, eventId))
    && (forall b :: b in s'.actors ==>
      (b in s.actors && s'.actors[b] == s.actors[b]) || (!s'.actors[b].Cleaner? && Holds(s'.actors[b]).None?))
  }

  lemma GrowthKeepsOwnership(s: Sys, s': Sys, eventId: nat)
    requires Ownership(s) && Grows(s, s', eventId)
    ensures Ownership(s')
  {
    forall b | b in s'.actors && Holds(s'.actors[b]).Some? ensures HeldBy(s', Holds(s'.actors[b]).value, b) {
      assert HeldBy(s, Holds(s.actors[b]).value, b);
    }
  }

  lemma GrowthKeepsCleanups(s: Sys, s': Sys, eventId: nat)
    requires Cleanups(s) && Grows(s, s', eventId)
    ensures Cleanups(s')
  {
    forall b | IsCleaner(s', b) ensures CleanerOk(s'.db, s'.actors[b].c) {
      assert CleanerOk(s.db, s.actors[b].c);
      assert s'.db.jobs == s.db.jobs || eventId !in LockedEvents(s.actors[b]);
    }
  }

  lemma GrowthKeepsBudget(s: Sys, s': Sys, eventId: nat)
    requires Ownership(s) && Budget(s) && Grows(s, s', eventId)
    ensures Budget(s')
  {
    forall j | j in s'.db.jobs
      ensures WithinBudget(s'.db.jobs[j], Calls(s', j), PolicyOf(s', s'.db.jobs[j].processor))
    {
      if j in s.db.jobs {
        assert WithinBudget(s.db.jobs[j], Calls(s, j), PolicyOf(s, s.db.jobs[j].processor));
      } else {
        assert s'.db.jobs[j] == NewJob(eventId, s'.db.jobs[j].processor);
        assert j !in s.calls;
      }
    }
    forall b | b in s'.actors && s'.actors[b].Scheduler? && Holds(s'.actors[b]).Some?
      ensures CountsAttempts(s', s'.actors[b].s)
    {
      assert HeldBy(s, Holds(s.actors[b]).value, b);
      assert CountsAttempts(s, s.actors[b].s);
    }
  }

  lemma GrowthKeeps(s: Sys, s': Sys, eventId: nat)
    requires Inv(s) && WellFormed(s'.db) && FreshEvents(s') && Grows(s, s', eventId)
    ensures Inv(s')
  {
    GrowthKeepsOwnership(s, s', eventId);
    GrowthKeepsCleanups(s, s', eventId);
    GrowthKeepsBudget(s, s', eventId);
  }

  lemma DispatchKeeps(s: Sys, eventId: nat, names: seq<string>)
    requires Inv(s) && Enabled(s, DispatchEvent(eventId, names))
    ensures Inv(Apply(s, DispatchEvent(eventId, names)))
  {
    var s' := Apply(s, DispatchEvent(eventId, names));
    if Dispatchable(s.db, eventId) {
      InsertAllExtends(s.db, eventId, names);
      GrowthKeeps(s, s', eventId);
    }
  }

  lemma IngestKeeps(s: Sys, event: Event)
    requires Inv(s) && Enabled(s, Ingest(event))
    ensures Inv(Apply(s, Ingest(event)))
  {
    GrowthKeeps(s, Apply(s, Ingest(event)), s.nextEvent);
  }

  lemma ReplayCreateKeeps(s: Sys, a: nat, eventId: nat, processor: string)
    requires Inv(s) && Enabled(s, ReplayCreate(a, eventId, processor))
    ensures Inv(DoReplayCreate(s, a, eventId, processor))
  {
    InsertKeepsTables(s.db, eventId, processor);
    GrowthKeeps(s, DoReplayCreate(s, a, eventId, processor), eventId);
  }

  // ---------- cleanup ----------

  lemma CleanupActorKeeps(s: Sys, s': Sys, a: nat)
    requires Inv(s)
    requires a in s'.actors && s' == s.(actors := s.actors[a := s'.actors[a]])
    requires s'.actors[a].Cleaner? && CleanerOk(s.db, s'.actors[a].c)
    requires a in s.actors ==> s.actors[a].Cleaner?
    requires forall b :: b in s.actors && b != a ==> LockedEvents(s'.actors[a]) !! LockedEvents(s.actors[b])
    ensures Inv(s')
  {
    forall b | b in s'.actors && Holds(s'.actors[b]).Some? ensures HeldBy(s', Holds(s'.actors[b]).value, b) {
      assert HeldBy(s, Holds(s.actors[b]).value, b);
    }
    forall b | b in s'.actors && s'.actors[b].Scheduler? && Holds(s'.actors[b]).Some?
      ensures CountsAttempts(s', s'.actors[b].s)
    {
      assert CountsAttempts(s, s.actors[b].s);
    }
    forall b | IsCleaner(s', b) ensures CleanerOk(s'.db, s'.actors[b].c) {
      if b != a { assert CleanerOk(s.db, s.actors[b].c); }
    }
  }

  lemma LockKeeps(s: Sys, a: nat, events: set<nat>)
    requires Inv(s) && Enabled(s, LockCandidates(a, events))
    ensures Inv(Apply(s, LockCandidates(a, events)))
  {
    CleanupActorKeeps(s, Apply(s, LockCandidates(a, events)), a);
  }

  lemma DeleteJobsKeeps(s: Sys, a: nat)
    requires Inv(s) && Enabled(s, DeleteJobs(a))
    ensures Inv(DoDeleteJobs(s, a))
  {
    assert CleanerOk(s.db, s.actors[a].c);
    CleanupActorKeeps(s, DoDeleteJobs(s, a), a);
  }

  lemma DeleteEventsKeeps(s: Sys, a: nat)
    requires Inv(s) && Enabled(s, DeleteEvents(a))
    ensures Inv(DoDeleteEvents(s, a))
  {
    assert CleanerOk(s.db, s.actors[a].c);
    CleanupActorKeeps(s, DoDeleteEvents(s, a), a);
  }

  lemma CommitKeeps(s: Sys, a: nat)
    requires Inv(s) && Enabled(s, Commit(a))
    ensures Inv(DoCommit(s, a))
  {
    var s' := DoCommit(s, a);
    assert CleanerOk(s.db, s.actors[a].c);
    forall b | b in s'.actors && Holds(s'.actors[b]).Some? ensures HeldBy(s', Holds(s'.actors[b]).value, b) {
      assert HeldBy(s, Holds(s.actors[b]).value, b);
    }
    forall b | b in s'.actors && s'.actors[b].Scheduler? && Holds(s'.actors[b]).Some?
      ensures CountsAttempts(s', s'.actors[b].s)
    {
      assert CountsAttempts(s, s.actors[b].s);
    }
    forall b | IsCleaner(s', b) ensures CleanerOk(s'.db, s'.actors[b].c) {
      assert CleanerOk(s.db, s.actors[b].c);
      assert LockedEvents(s.actors[a]) !! LockedEvents(s.actors[b]);
    }
    forall j | j in s'.db.jobs
      ensures WithinBudget(s'.db.jobs[j], Calls(s', j), PolicyOf(s', s'.db.jobs[j].processor))
    {
      assert WithinBudget(s.db.jobs[j], Calls(s, j), PolicyOf(s, s.db.jobs[j].processor));
    }
  }

  /** Every step of every actor keeps the invariant. */
  lemma StepKeepsInv(s: Sys, step: Step)
    requires Inv(s) && Enabled(s, step)
    ensures Inv(Apply(s, step))
  {
    match step
    case Tick(_) =>
    case Ingest(event) => IngestKeeps(s, event);
    case DispatchEvent(e, names) => DispatchKeeps(s, e, names);
    case Pick(a, _) => LocalKeeps(s, Apply(s, step), a);
    case AbandonIneligible(a, reason) => AbandonKeeps(s, a, reason);
    case ClaimQueued(a) => ClaimKeeps(s, a);
    case ProcessorReturns(a, _) => ReturnKeeps(s, step, a);
    case ReadAttempts(a) => ReadKeeps(s, a);
    case WriteOutcome(a) => WriteKeeps(s, a);
    case Crash(a) => LocalKeeps(s, Apply(s, step), a);
    case _ => OtherStepKeepsInv(s, step);
  }

  /** The steps of replays and cleanups. */
  lemma OtherStepKeepsInv(s: Sys, step: Step)
    requires Inv(s) && Enabled(s, step)
    requires step.ReplayPick? || step.ReplayCreate? || step.ReplayClaims? || step.ReplayReturns? || step.ReplayWrites?
             || step.LockCandidates? || step.DeleteJobs? || step.DeleteEvents? || step.Commit?
    ensures Inv(Apply(s, step))
  {
    match step
    case ReplayPick(a, _) => LocalKeeps(s, Apply(s, step), a);
    case ReplayCreate(a, e, p) => ReplayCreateKeeps(s, a, e, p);
    case ReplayClaims(a) => ReplayClaimKeeps(s, a);
    case ReplayReturns(a, _) => ReturnKeeps(s, step, a);
    case ReplayWrites(a) => ReplayWriteKeeps(s, a);
    case LockCandidates(a, es) => LockKeeps(s, a, es);
    case DeleteJobs(a) => DeleteJobsKeeps(s, a);
    case DeleteEvents(a) => DeleteEventsKeeps(s, a);
    case Commit(a) => CommitKeeps(s, a);
  }
}
