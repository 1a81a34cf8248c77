/**
 One job, executed as a sequence of statements on the job tables with everybody
 else at work between any two of them. Whatever the others do, this is a run of the
 job protocol, and what became of the job is what its result says.
 */
module JobExecution {
  import opened Wrappers
  import opened JobStore
  import opened JobProtocol
  import opened JobInvariant
  import opened JobRuns
  import Registry

  /** Everybody else: from the state before a pause to the one after it. `k` numbers the pauses. */
  type Others = (nat, Sys) -> Sys

  predicate ActsAs(step: Step, a: nat) {
    !step.Tick? && !step.Ingest? && !step.DispatchEvent? && step.actor == a
  }

  ghost predicate WithoutActor(s: Sys, t: Sys, a: nat) {
    exists steps :: ValidRun(s, steps) && Exec(s, steps) == t && forall i :: 0 <= i < |steps| ==> !ActsAs(steps[i], a)
  }

  /** The others take steps of the protocol, none in the name of this actor. */
  ghost predicate PlayFair(others: Others, a: nat) {
    forall k, s :: WithoutActor(s, others(k, s), a)
  }

  ghost predicate LeadsTo(s: Sys, t: Sys) {
    exists steps :: ValidRun(s, steps) && Exec(s, steps) == t
  }

  lemma {:induction false} RunConcat(s: Sys, first: seq<Step>, second: seq<Step>)
    requires ValidRun(s, first) && ValidRun(Exec(s, first), second)
    ensures ValidRun(s, first + second) && Exec(s, first + second) == Exec(Exec(s, first), second)
    decreases |first|
  {
    if |first| == 0 {
      assert first + second == second;
    } else {
      assert (first + second)[1..] == first[1..] + second;
      RunConcat(Apply(s, first[0]), first[1..], second);
    }
  }

  lemma Chain(s: Sys, t: Sys, u: Sys)
    requires LeadsTo(s, t) && LeadsTo(t, u)
    ensures LeadsTo(s, u)
  {
    var first :| ValidRun(s, first) && Exec(s, first) == t;
    var second :| ValidRun(t, second) && Exec(t, second) == u;
    RunConcat(s, first, second);
  }

  lemma Stay(s: Sys)
    ensures LeadsTo(s, s)
  {
    assert ValidRun(s, []) && Exec(s, []) == s;
  }

  lemma OneStep(s: Sys, step: Step)
    requires Enabled(s, step)
    ensures LeadsTo(s, Apply(s, step))
  {
    assert [step][0] == step && [step][1..] == [];
    assert Exec(Apply(s, step), []) == Apply(s, step);
    assert ValidRun(s, [step]) && Exec(s, [step]) == Apply(s, step);
  }

  lemma {:induction false} OthersKeepActor(s: Sys, steps: seq<Step>, a: nat)
    requires ValidRun(s, steps) && forall i :: 0 <= i < |steps| ==> !ActsAs(steps[i], a)
    ensures var t := Exec(s, steps);
            (a in t.actors <==> a in s.actors) && (a in s.actors ==> t.actors[a] == s.actors[a])
    decreases |steps|
  {
    if |steps| > 0 {
      assert !ActsAs(steps[0], a);
      forall i | 0 <= i < |steps[1..]| ensures !ActsAs(steps[1..][i], a) { assert steps[1..][i] == steps[i + 1]; }
      OthersKeepActor(Apply(s, steps[0]), steps[1..], a);
    }
  }

  /** What is known of the state between two statements of actor `a`, which works on `job` of `processor`. */
  ghost predicate At(start: Sys, s: Sys, table: JobTable, job: nat, processor: string)
    reads table
  {
    && LeadsTo(start, s) && Inv(s) && s.db == table.Contents() && s.policies == start.policies
    && job < s.db.nextJob && (job in s.db.jobs ==> s.db.jobs[job].processor == processor)
  }

  lemma {:induction false} RunKeepsJob(s: Sys, steps: seq<Step>, job: nat)
    requires Inv(s) && ValidRun(s, steps) && job < s.db.nextJob
    ensures var t := Exec(s, steps);
            && Inv(t) && t.policies == s.policies && job < t.db.nextJob
            && (job in t.db.jobs ==> job in s.db.jobs && SameTarget(t.db.jobs[job], s.db.jobs[job]))
    decreases |steps|
  {
    if |steps| > 0 {
      StepKeepsInv(s, steps[0]);
      StepKeepsIdentity(s, steps[0], job);
      PoliciesAreFixed(s, steps[0]);
      RunKeepsJob(Apply(s, steps[0]), steps[1..], job);
    }
  }

  /** A pause: the others run, and this actor finds itself where it was. */
  method Pause(table: JobTable, s: Sys, others: Others, k: nat, ghost start: Sys, a: nat, ghost job: nat,
               ghost processor: string)
    returns (t: Sys)
    requires At(start, s, table, job, processor) && PlayFair(others, a)
    modifies table
    ensures At(start, t, table, job, processor) && t == others(k, s)
    ensures (a in t.actors <==> a in s.actors) && (a in s.actors ==> t.actors[a] == s.actors[a])
  {
    t := others(k, s);
    table.events, table.jobs, table.nextJob := t.db.events, t.db.jobs, t.db.nextJob;
    PauseIsARun(start, s, t, a, job);
  }

  lemma PauseIsARun(start: Sys, s: Sys, t: Sys, a: nat, job: nat)
    requires LeadsTo(start, s) && Inv(s) && job < s.db.nextJob && WithoutActor(s, t, a)
    ensures LeadsTo(start, t) && Inv(t) && t.policies == s.policies && job < t.db.nextJob
    ensures job in t.db.jobs ==> job in s.db.jobs && SameTarget(t.db.jobs[job], s.db.jobs[job])
    ensures (a in t.actors <==> a in s.actors) && (a in s.actors ==> t.actors[a] == s.actors[a])
  {
    var steps :| ValidRun(s, steps) && Exec(s, steps) == t && forall i :: 0 <= i < |steps| ==> !ActsAs(steps[i], a);
    assert LeadsTo(s, t);
    Chain(start, s, t);
    RunKeepsJob(s, steps, job);
    OthersKeepActor(s, steps, a);
  }

  /** One statement or local move of this actor. */
  lemma Moves(start: Sys, s: Sys, step: Step, job: nat)
    requires LeadsTo(start, s) && Inv(s) && Enabled(s, step) && job < s.db.nextJob
    ensures var t := Apply(s, step);
            && LeadsTo(start, t) && Inv(t) && t.policies == s.policies && job < t.db.nextJob
            && (job in t.db.jobs ==> job in s.db.jobs && SameTarget(t.db.jobs[job], s.db.jobs[job]))
  {
    OneStep(s, step);
    Chain(start, s, Apply(s, step));
    StepKeepsInv(s, step);
    StepKeepsIdentity(s, step, job);
    PoliciesAreFixed(s, step);
  }

  // ---------- one job ----------

  /** How a started processor ends; `Dies` takes this process down with it. */
  datatype Ending = Success | Failure | Dies

  /** Completed after success; failed or abandoned after a failure. */
  predicate OutcomeOf(status: Status, ending: Ending) {
    if ending.Success? then status.Completed? else status.Failed? || status.Abandoned?
  }

  datatype JobResult = Refused | NotClaimed | Finished | Interrupted

  /** The others do nothing. */
  ghost predicate Quiet(others: Others) {
    forall k, s :: others(k, s) == s
  }

  /** The actor is about to write the outcome of the job, and the row is free. */
  ghost predicate WritesAt(s: Sys, a: nat, job: nat) {
    IsWriting(s, a) && s.actors[a].s.job == job && JobFree(s, job)
  }

  /** The actor stopped here, without writing: it died, or the row was locked. */
  ghost predicate StopsAt(s: Sys, a: nat, job: nat, ending: Ending) {
    a in s.actors && (ending.Dies? || !JobFree(s, job))
  }

  /** The verdict on a failed run, from the attempt count that is read back. */
  method HandleFailure(table: JobTable, s: Sys, others: Others, ghost start: Sys, a: nat, job: nat, processor: string)
    returns (t: Sys, written: bool, ghost write: Sys)
    requires At(start, s, table, job, processor) && PlayFair(others, a)
    requires a in s.actors && s.actors[a] == JobProtocol.Scheduler(FailedRun(job))
    modifies table
    ensures At(start, t, table, job, processor) && a !in t.actors && LeadsTo(start, write)
    ensures if written then WritesAt(write, a, job) && t == DoWrite(write, a)
            else StopsAt(write, a, job, Failure) && t == Drop(write, a)
    ensures written ==> job in table.jobs && (table.jobs[job].status.Failed? || table.jobs[job].status.Abandoned?)
    ensures Quiet(others) ==> write == DoReadAttempts(s, a)
  {
    Moves(start, s, ReadAttempts(a), job);
    HeldRowExists(s, a, job);
    if job !in table.jobs {
      assert false;
    }
    var attempts := table.jobs[job].attempts;
    t := Apply(s, ReadAttempts(a));
    t := Pause(table, t, others, 3, start, a, job, processor);
    write := t;
    if !JobFree(t, job) {
      written := false;
      t := StopWorking(table, t, start, a, job, processor);
      return;
    }
    t := WriteVerdictOf(table, t, start, a, job, processor, attempts);
    written := true;
  }

  /** The entry of the backoff list for this attempt, clamped to the last one; 60 seconds without a list. */
  method BackoffDelay(policy: Policy, attempts: nat) returns (delay: nat)
    requires 0 < policy.maxRetries && attempts < policy.maxRetries
    ensures AfterFailure(attempts, policy) == RetryAfter(delay)
  {
    var index := SaturatingSub(attempts, 1);
    if SaturatingSub(|policy.backoff|, 1) < index {
      index := SaturatingSub(|policy.backoff|, 1);
    }
    delay := if index < |policy.backoff| then policy.backoff[index] else 60;
  }

  /** Gives up when the budget is spent, else schedules the next attempt by the backoff list. */
  method WriteVerdictOf(table: JobTable, s: Sys, ghost start: Sys, a: nat, job: nat, processor: string, attempts: nat)
    returns (t: Sys)
    requires At(start, s, table, job, processor) && JobFree(s, job)
    requires a in s.actors && s.actors[a] == JobProtocol.Scheduler(Deciding(job, attempts))
    modifies table
    ensures At(start, t, table, job, processor) && a !in t.actors && t == DoWrite(s, a)
    ensures job in table.jobs && (table.jobs[job].status.Failed? || table.jobs[job].status.Abandoned?)
  {
    Moves(start, s, WriteOutcome(a), job);
    HeldRowExists(s, a, job);
    StoreVerdict(table, job, PolicyOf(s, processor), attempts, s.now);
    t := DoWrite(s, a);
  }

  method StoreVerdict(table: JobTable, job: nat, policy: Policy, attempts: nat, now: int)
    requires job in table.jobs
    modifies table
    ensures table.Contents() ==
            match AfterFailure(attempts, policy)
            case GiveUp => UpdateStatus(old(table.Contents()), job, Abandoned, Some("failed"), None, None, Keep)
            case RetryAfter(d) =>
              UpdateStatus(old(table.Contents()), job, Failed, Some("failed"), Some(now + d), None, Keep)
    ensures job in table.jobs && (table.jobs[job].status.Failed? || table.jobs[job].status.Abandoned?)
  {
    if policy.maxRetries == 0 || attempts >= policy.maxRetries {
      table.UpdateJobStatus(job, Abandoned, Some("failed"), None, None, Keep);
    } else {
      var delay := BackoffDelay(policy, attempts);
      table.UpdateJobStatus(job, Failed, Some("failed"), Some(now + delay), None, Keep);
    }
  }

  lemma HeldRowExists(s: Sys, a: nat, job: nat)
    requires Inv(s) && a in s.actors && Holds(s.actors[a]) == Some(job)
    ensures HeldBy(s, job, a)
  {
    assert HeldBy(s, Holds(s.actors[a]).value, a);
  }

  /** A statement that does not come back: the job stays as it is, and nobody works on it any more. */
  method StopWorking(table: JobTable, s: Sys, ghost start: Sys, a: nat, ghost job: nat, ghost processor: string)
    returns (t: Sys)
    requires At(start, s, table, job, processor) && a in s.actors
    ensures At(start, t, table, job, processor) && a !in t.actors && t == Drop(s, a)
  {
    Moves(start, s, Crash(a), job);
    t := Apply(s, Crash(a));
  }

  /** Where a started job stands before its final write when nobody else acts. */
  function QuietWrite(s: Sys, a: nat, job: nat, ending: Ending): Sys
    requires job in s.db.jobs
  {
    var pc := if ending.Success? then Succeeded(job) else Deciding(job, s.db.jobs[job].attempts);
    SetActor(s, a, JobProtocol.Scheduler(pc))
  }

  /** The outcome of a run that has returned is written back, unless the row is locked. */
  method WriteBack(table: JobTable, s: Sys, others: Others, ghost start: Sys, a: nat, job: nat, processor: string,
                   ending: Ending)
    returns (t: Sys, written: bool, ghost write: Sys)
    requires At(start, s, table, job, processor) && PlayFair(others, a) && !ending.Dies?
    requires a in s.actors
             && s.actors[a] == JobProtocol.Scheduler(if ending.Success? then Succeeded(job) else FailedRun(job))
    modifies table
    ensures At(start, t, table, job, processor) && a !in t.actors && LeadsTo(start, write)
    ensures if written then WritesAt(write, a, job) && t == DoWrite(write, a)
            else StopsAt(write, a, job, ending) && t == Drop(write, a)
    ensures written ==> job in table.jobs && OutcomeOf(table.jobs[job].status, ending)
    ensures Quiet(others) ==> write == if ending.Success? then s else DoReadAttempts(s, a)
  {
    if ending == Failure {
      t, written, write := HandleFailure(table, s, others, start, a, job, processor);
      return;
    }
    write := s;
    if !JobFree(s, job) {
      t := StopWorking(table, s, start, a, job, processor);
      return t, false, write;
    }
    t := WriteSuccess(table, s, start, a, job, processor);
    written := true;
  }

  method WriteSuccess(table: JobTable, s: Sys, ghost start: Sys, a: nat, job: nat, processor: string) returns (t: Sys)
    requires At(start, s, table, job, processor) && JobFree(s, job)
    requires a in s.actors && s.actors[a] == JobProtocol.Scheduler(Succeeded(job))
    modifies table
    ensures At(start, t, table, job, processor) && a !in t.actors && t == DoWrite(s, a)
    ensures job in table.jobs && table.jobs[job].status.Completed?
  {
    Moves(start, s, WriteOutcome(a), job);
    HeldRowExists(s, a, job);
    table.UpdateJobStatus(job, Completed, None, None, Some("output"), Keep);
    t := Apply(s, WriteOutcome(a));
  }

  /** The actor after the processor has returned. */
  function Returned(s: Sys, a: nat, job: nat, ending: Ending): Sys {
    SetActor(s, a, JobProtocol.Scheduler(if ending.Success? then Succeeded(job) else FailedRun(job)))
  }

  lemma Returns(start: Sys, s: Sys, a: nat, job: nat, ending: Ending)
    requires LeadsTo(start, s) && Inv(s) && job < s.db.nextJob
    requires a in s.actors && s.actors[a] == JobProtocol.Scheduler(Running(job))
    ensures LeadsTo(start, Returned(s, a, job, ending)) && Inv(Returned(s, a, job, ending))
  {
    Moves(start, s, ProcessorReturns(a, ending.Success?), job);
  }

  lemma QuietReturn(s: Sys, a: nat, job: nat, ending: Ending)
    requires job in s.db.jobs
    ensures var r := Returned(s, a, job, ending);
            QuietWrite(s, a, job, ending) == if ending.Success? then r else DoReadAttempts(r, a)
  {
    var r := Returned(s, a, job, ending);
    if !ending.Success? { assert DoReadAttempts(r, a).actors == QuietWrite(s, a, job, ending).actors; }
  }

  /** The processor runs, and the outcome is written back. */
  method RunClaimed(table: JobTable, s: Sys, others: Others, ghost start: Sys, a: nat, job: nat, processor: string,
                    ending: Ending)
    returns (t: Sys, result: JobResult, ghost write: Sys)
    requires At(start, s, table, job, processor) && PlayFair(others, a)
    requires a in s.actors && s.actors[a] == JobProtocol.Scheduler(Running(job))
    modifies table
    ensures At(start, t, table, job, processor) && a !in t.actors && LeadsTo(start, write)
    ensures match result
            case Finished => !ending.Dies? && WritesAt(write, a, job) && t == DoWrite(write, a)
            case Interrupted => StopsAt(write, a, job, ending) && t == Drop(write, a)
            case _ => false
    ensures result.Finished? ==> job in table.jobs && OutcomeOf(table.jobs[job].status, ending)
    ensures Quiet(others) && job in s.db.jobs && !ending.Dies? ==> write == QuietWrite(s, a, job, ending)
  {
    t := Pause(table, s, others, 1, start, a, job, processor);
    if ending == Dies {
      write := t;
      t := StopWorking(table, t, start, a, job, processor);
      return t, Interrupted, write;
    }
    Returns(start, t, a, job, ending);
    t := Returned(t, a, job, ending);
    t := Pause(table, t, others, 2, start, a, job, processor);
    var written;
    t, written, write := WriteBack(table, t, others, start, a, job, processor, ending);
    result := if written then Finished else Interrupted;
    if job in s.db.jobs { QuietReturn(s, a, job, ending); }
  }

  // ---------- the turn of a job ----------

  /**
   A job's turn: the states before it, when it is claimed or refused, when its
   outcome is written or its actor stops, and after it.
   */
  datatype Turn = Turn(job: nat, processor: string, refusal: Option<string>, ending: Ending,
                       before: Sys, claim: Sys, write: Sys, after: Sys, result: JobResult)

  ghost predicate ClaimableAt(s: Sys, job: nat) {
    job in s.db.jobs && Claimable(s.db.jobs[job], s.now)
  }

  /** The processor ran between the claim and the moment `write`. */
  ghost predicate RanTo(a: nat, job: nat, refusal: Option<string>, claim: Sys, write: Sys)
    requires IsQueued(claim, a)
  {
    JobFree(claim, job) && refusal.None? && ClaimableAt(claim, job) && LeadsTo(DoClaim(claim, a), write)
  }

  /**
   What a result means. Finished: claimed, run, and written back with the outcome of
   its ending. Not claimed: not claimable when its claim came. Refused: abandoned, if it was
   claimable. Interrupted: its row was locked, or the process died.
   */
  ghost predicate EndsAs(a: nat, job: nat, refusal: Option<string>, ending: Ending, claim: Sys, write: Sys, after: Sys,
                         result: JobResult)
  {
    IsQueued(claim, a) && claim.actors[a].s.job == job &&
    match result
    case Refused =>
      refusal.Some? && JobFree(claim, job) && after == Apply(claim, AbandonIneligible(a, refusal.value))
      && (ClaimableAt(claim, job) ==> job in after.db.jobs && after.db.jobs[job].status == Abandoned)
    case NotClaimed =>
      refusal.None? && JobFree(claim, job) && !ClaimableAt(claim, job) && after == DoClaim(claim, a)
    case Finished =>
      RanTo(a, job, refusal, claim, write) && !ending.Dies? && WritesAt(write, a, job) && after == DoWrite(write, a)
      && job in after.db.jobs && OutcomeOf(after.db.jobs[job].status, ending)
    case Interrupted =>
      || (!JobFree(claim, job) && after == Drop(claim, a))
      || (RanTo(a, job, refusal, claim, write) && StopsAt(write, a, job, ending) && after == Drop(write, a))
  }

  /** Picked up, reached its claim, and ended as its result says. */
  ghost predicate IsTurn(a: nat, u: Turn) {
    a !in u.before.actors && LeadsTo(SetActor(u.before, a, JobProtocol.Scheduler(Queued(u.job))), u.claim)
    && EndsAs(a, u.job, u.refusal, u.ending, u.claim, u.write, u.after, u.result)
  }

  /**
   With nobody else at work: one more attempt, the outcome of the ending, and nothing else but the
   histories changed.
   */
  ghost predicate DoneQuietly(s: Sys, t: Sys, job: nat, ending: Ending) {
    job in s.db.jobs && job in t.db.jobs
    && t == s.(db := s.db.(jobs := s.db.jobs[job := t.db.jobs[job]]), claimant := t.claimant, calls := t.calls)
    && t.db.jobs[job].attempts == s.db.jobs[job].attempts + 1 && SameTarget(t.db.jobs[job], s.db.jobs[job])
    && OutcomeOf(t.db.jobs[job].status, ending)
  }

  lemma QuietTurn(s: Sys, a: nat, job: nat, ending: Ending)
    requires a !in s.actors && JobFree(s, job) && ClaimableAt(s, job) && !ending.Dies?
    ensures var c := SetActor(s, a, JobProtocol.Scheduler(Queued(job)));
            && JobFree(c, job) && ClaimableAt(c, job) && job in DoClaim(c, a).db.jobs
            && var w := QuietWrite(DoClaim(c, a), a, job, ending);
               WritesAt(w, a, job) && DoneQuietly(s, DoWrite(w, a), job, ending)
  {
    var c := SetActor(s, a, JobProtocol.Scheduler(Queued(job)));
    var w := QuietWrite(DoClaim(c, a), a, job, ending);
    FreeBeside(s, c, a, job);
    FreeBeside(s, w, a, job);
    QuietOutcome(s, w, a, job, ending);
  }

  lemma FreeBeside(s: Sys, t: Sys, a: nat, job: nat)
    requires JobFree(s, job) && a in t.actors && !t.actors[a].Cleaner?
    requires forall b :: b in t.actors && b != a ==> b in s.actors && t.actors[b] == s.actors[b]
    ensures JobFree(t, job)
  {
  }

  lemma QuietOutcome(s: Sys, w: Sys, a: nat, job: nat, ending: Ending)
    requires a !in s.actors && job in s.db.jobs && w.actors.Keys == s.actors.Keys + {a} && !ending.Dies?
    requires forall b :: b in s.actors ==> w.actors[b] == s.actors[b]
    requires IsWriting(w, a) && w.actors[a].s.job == job && (w.actors[a].s.Succeeded? <==> ending.Success?)
    requires w == s.(db := s.db.(jobs := s.db.jobs[job := Claimed(s.db.jobs[job])]), actors := w.actors,
                     claimant := w.claimant,
                     calls := w.calls)
    ensures DoneQuietly(s, DoWrite(w, a), job, ending)
  {
    var t := DoWrite(w, a);
    assert t.actors == s.actors;
    assert t.db.jobs == s.db.jobs[job := t.db.jobs[job]];
  }

  lemma Picks(start: Sys, s: Sys, a: nat, job: nat)
    requires LeadsTo(start, s) && Inv(s) && a !in s.actors && job < s.db.nextJob
    ensures var t := SetActor(s, a, JobProtocol.Scheduler(Queued(job))); LeadsTo(start, t) && Inv(t)
  {
    Moves(start, s, Pick(a, job), job);
  }

  /** From one state on: what `At` says with this state as the start. */
  lemma StartHere(start: Sys, s: Sys, table: JobTable, job: nat, processor: string)
    requires At(start, s, table, job, processor)
    ensures At(s, s, table, job, processor)
  {
    Stay(s);
  }

  /**
   Executes a queued job: abandoned when the processor is not eligible, started only
   when the claim succeeds, and then written back or left in progress by a crash.
   Whatever the others do meanwhile, this is a run of the protocol.
   */
  method ExecuteJob(table: JobTable, s: Sys, others: Others, ghost start: Sys, a: nat, job: nat, processor: string,
                    refusal: Option<string>, ending: Ending)
    returns (t: Sys, result: JobResult, ghost turn: Turn)
    requires At(start, s, table, job, processor) && PlayFair(others, a) && a !in s.actors
    modifies table
    ensures At(start, t, table, job, processor) && a !in t.actors
    ensures IsTurn(a, turn) && turn == Turn(job, processor, refusal, ending, s, turn.claim, turn.write, t, result)
    ensures Quiet(others) && refusal.None? && JobFree(s, job) && ClaimableAt(s, job) && !ending.Dies? ==>
              result.Finished? && DoneQuietly(s, t, job, ending)
  {
    Picks(start, s, a, job);
    t := SetActor(s, a, JobProtocol.Scheduler(Queued(job)));
    ghost var picked := t;
    StartHere(start, picked, table, job, processor);
    t := Pause(table, t, others, 0, picked, a, job, processor);
    ghost var claim := t;
    ghost var write;
    t, result, write := ClaimAndRun(table, t, others, picked, a, job, processor, refusal, ending);
    Chain(start, picked, t);
    turn := Turn(job, processor, refusal, ending, s, claim, write, t, result);
    if JobFree(s, job) && ClaimableAt(s, job) && !ending.Dies? { QuietTurn(s, a, job, ending); }
  }

  /** What follows when the job's turn has come. */
  method ClaimAndRun(table: JobTable, s: Sys, others: Others, ghost start: Sys, a: nat, job: nat, processor: string,
                     refusal: Option<string>, ending: Ending)
    returns (t: Sys, result: JobResult, ghost write: Sys)
    requires At(start, s, table, job, processor) && PlayFair(others, a) && IsQueued(s, a) && s.actors[a].s.job == job
    modifies table
    ensures At(start, t, table, job, processor) && a !in t.actors
    ensures EndsAs(a, job, refusal, ending, s, write, t, result)
    ensures Quiet(others) && refusal.None? && JobFree(s, job) && ClaimableAt(s, job) && !ending.Dies? ==>
              write == QuietWrite(DoClaim(s, a), a, job, ending)
  {
    write := s;
    if !JobFree(s, job) {
      t := StopWorking(table, s, start, a, job, processor);
      return t, Interrupted, write;
    }
    if refusal.Some? {
      t := Refuse(table, s, start, a, job, processor, refusal.value);
      return t, Refused, write;
    }
    var claimed;
    t, claimed := ClaimQueuedJob(table, s, start, a, job, processor);
    if !claimed {
      return t, NotClaimed, write;
    }
    ghost var running := t;
    StartHere(start, running, table, job, processor);
    t, result, write := RunClaimed(table, t, others, running, a, job, processor, ending);
    Chain(start, running, t);
  }

  /** A job whose processor is not eligible is abandoned, unless it has been taken meanwhile. */
  method Refuse(table: JobTable, s: Sys, ghost start: Sys, a: nat, job: nat, processor: string, reason: string)
    returns (t: Sys)
    requires At(start, s, table, job, processor) && IsQueued(s, a) && s.actors[a].s.job == job && JobFree(s, job)
    modifies table
    ensures At(start, t, table, job, processor) && t == Apply(s, AbandonIneligible(a, reason)) && a !in t.actors
    ensures ClaimableAt(s, job) ==> job in t.db.jobs && t.db.jobs[job].status == Abandoned
  {
    Moves(start, s, AbandonIneligible(a, reason), job);
    var _ := table.AbandonQueuedJob(job, s.now, reason);
    t := Apply(s, AbandonIneligible(a, reason));
  }

  method ClaimQueuedJob(table: JobTable, s: Sys, ghost start: Sys, a: nat, job: nat, processor: string)
    returns (t: Sys, claimed: bool)
    requires At(start, s, table, job, processor) && IsQueued(s, a) && s.actors[a].s.job == job && JobFree(s, job)
    modifies table
    ensures At(start, t, table, job, processor) && t == DoClaim(s, a) && (claimed <==> ClaimableAt(s, job))
    ensures if claimed then a in t.actors && t.actors[a] == JobProtocol.Scheduler(Running(job)) else a !in t.actors
  {
    Moves(start, s, ClaimQueued(a), job);
    claimed := table.ClaimJob(job, s.now);
    t := Apply(s, ClaimQueued(a));
  }

  // ---------- between two jobs ----------

  /** Between two jobs: nothing is held. */
  ghost predicate Between(start: Sys, s: Sys, table: JobTable, a: nat)
    reads table
  {
    LeadsTo(start, s) && Inv(s) && s.db == table.Contents() && s.policies == start.policies && a !in s.actors
  }

  /** A job that belongs to a processor belongs to it for good. */
  ghost predicate BelongsTo(s: Sys, job: nat, processor: string) {
    job < s.db.nextJob && (job in s.db.jobs ==> s.db.jobs[job].processor == processor)
  }

  lemma BelongsForever(s: Sys, t: Sys, job: nat, processor: string)
    requires Inv(s) && LeadsTo(s, t) && BelongsTo(s, job, processor)
    ensures BelongsTo(t, job, processor)
  {
    var steps :| ValidRun(s, steps) && Exec(s, steps) == t;
    RunKeepsJob(s, steps, job);
  }

  function EventOf(e: JobStore.Event): Registry.Event {
    Registry.Event(e.eventType, e.account, e.mailbox)
  }

  function RefusalText(refusal: Option<Registry.Refusal>): Option<string> {
    match refusal
    case None => None
    case Some(Unavailable) => Some("not available")
    case Some(NotSubscribed) => Some("not subscribed")
    case Some(SourceExcluded) => Some("source excluded")
  }
}
