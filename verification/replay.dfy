/**
 The explicit replay of an event: its target processors are replayed one after the
 other, each in a turn of its own, with everybody else at work in between.
 */
module Replay {
  import opened Wrappers
  import opened JobStore
  import opened JobProtocol
  import opened JobInvariant
  import opened JobRuns
  import opened JobExecution
  import Registry

  // ---------- one job ----------

  ghost predicate IsReplaying(s: Sys, a: nat, pc: ReplayPc) {
    a in s.actors && s.actors[a] == Replayer(pc)
  }

  /** The replay is about to write its outcome, and the row is free. */
  ghost predicate ReplayWritesAt(s: Sys, a: nat, job: nat, ending: Ending) {
    IsReplaying(s, a, ReplayDone(job, ending.Success?)) && JobFree(s, job)
  }

  /** Completed after success, failed after a failure, and never to be retried. */
  predicate ReplayedTo(job: Job, ending: Ending) {
    job.status == (if ending.Success? then Completed else Failed) && job.nextRetryAt.None?
  }

  /** Replays a job: skipped while it is in progress; a failed replay stores no retry time. */
  method ReplayJob(table: JobTable, s: Sys, others: Others, ghost start: Sys, a: nat, job: nat, processor: string,
                   ending: Ending)
    returns (t: Sys, result: JobResult, ghost claim: Sys, ghost write: Sys)
    requires At(start, s, table, job, processor) && PlayFair(others, a) && IsReplaying(s, a, ReplayQueued(job))
    modifies table
    ensures At(start, t, table, job, processor) && a !in t.actors
    ensures LeadsTo(start, claim) && IsReplaying(claim, a, ReplayQueued(job))
    ensures match result
            case Refused => false
            case NotClaimed => JobFree(claim, job) && !ReplayClaimable(claim.db, job) && t == DoReplayClaim(claim, a)
            case Finished =>
              && JobFree(claim, job) && ReplayClaimable(claim.db, job) && LeadsTo(DoReplayClaim(claim, a), write)
              && !ending.Dies? && ReplayWritesAt(write, a, job, ending) && t == DoReplayWrite(write, a)
              && job in table.jobs && ReplayedTo(table.jobs[job], ending)
            case Interrupted =>
              || (!JobFree(claim, job) && t == Drop(claim, a))
              || (JobFree(claim, job) && ReplayClaimable(claim.db, job) && LeadsTo(DoReplayClaim(claim, a), write)
                  && StopsAt(write, a, job, ending) && t == Drop(write, a))
  {
    t := Pause(table, s, others, 0, start, a, job, processor);
    claim, write := t, t;
    if !JobFree(t, job) {
      t := StopWorking(table, t, start, a, job, processor);
      return t, Interrupted, claim, write;
    }
    Moves(start, t, ReplayClaims(a), job);
    var claimed := table.ResetAndClaimJobForReplay(job);
    t := Apply(t, ReplayClaims(a));
    if !claimed {
      return t, NotClaimed, claim, write;
    }
    ghost var running := t;
    StartHere(start, running, table, job, processor);
    t, result, write := RunReplay(table, t, others, running, a, job, processor, ending);
    Chain(start, running, t);
  }

  method RunReplay(table: JobTable, s: Sys, others: Others, ghost start: Sys, a: nat, job: nat, processor: string,
                   ending: Ending)
    returns (t: Sys, result: JobResult, ghost write: Sys)
    requires At(start, s, table, job, processor) && PlayFair(others, a) && IsReplaying(s, a, ReplayRunning(job))
    modifies table
    ensures At(start, t, table, job, processor) && a !in t.actors && LeadsTo(start, write)
    ensures match result
            case Finished =>
              && !ending.Dies? && ReplayWritesAt(write, a, job, ending) && t == DoReplayWrite(write, a)
              && job in table.jobs && ReplayedTo(table.jobs[job], ending)
            case Interrupted => StopsAt(write, a, job, ending) && t == Drop(write, a)
            case _ => false
  {
    t := Pause(table, s, others, 1, start, a, job, processor);
    write := t;
    if ending == Dies {
      t := StopWorking(table, t, start, a, job, processor);
      return t, Interrupted, write;
    }
    Moves(start, t, ReplayReturns(a, ending == Success), job);
    t := Apply(t, ReplayReturns(a, ending == Success));
    t := Pause(table, t, others, 2, start, a, job, processor);
    write := t;
    if !JobFree(t, job) {
      t := StopWorking(table, t, start, a, job, processor);
      return t, Interrupted, write;
    }
    t := WriteReplay(table, t, start, a, job, processor, ending);
    result := Finished;
  }

  method WriteReplay(table: JobTable, s: Sys, ghost start: Sys, a: nat, job: nat, processor: string, ending: Ending)
    returns (t: Sys)
    requires At(start, s, table, job, processor) && !ending.Dies? && ReplayWritesAt(s, a, job, ending)
    modifies table
    ensures At(start, t, table, job, processor) && a !in t.actors && t == DoReplayWrite(s, a)
    ensures job in table.jobs && ReplayedTo(table.jobs[job], ending)
  {
    Moves(start, s, ReplayWrites(a), job);
    HeldRowExists(s, a, job);
    table.UpdateJobStatus(job, if ending == Success then Completed else Failed, None, None, None, Keep);
    t := Apply(s, ReplayWrites(a));
  }

  // ---------- the turn of a processor ----------

  /**
   The states before the replay of one processor, when it knows its job, when it claims it,
   when it writes the outcome or stops, and after it.
   */
  datatype ReplayTurn = ReplayTurn(job: nat, ending: Ending, before: Sys, begun: Sys, claim: Sys, write: Sys,
                                   after: Sys,
                                   result: JobResult)

  /** The job of the event and the processor, looked up or created. */
  ghost predicate Begins(a: nat, eventId: nat, name: string, job: nat, before: Sys, begun: Sys) {
    var queued := Replayer(ReplayQueued(job));
    && a !in before.actors && job in begun.db.jobs
    && begun.db.jobs[job].eventId == eventId && begun.db.jobs[job].processor == name
    && if job in before.db.jobs then begun == SetActor(before, a, queued)
       else
         && eventId in before.db.events && !HasJob(before.db.jobs, eventId, name)
         && begun == SetActor(before, a, queued).(db := Insert(before.db, eventId, name))
  }

  /** Claimed, and the processor ran up to the moment `write`. */
  ghost predicate ReplayRan(a: nat, u: ReplayTurn) {
    IsReplaying(u.claim, a, ReplayQueued(u.job)) && JobFree(u.claim, u.job) && ReplayClaimable(u.claim.db, u.job)
    && LeadsTo(DoReplayClaim(u.claim, a), u.write)
  }

  /**
   What a result means. Finished: claimed with a fresh count, run, and written back without a retry
   time. Not claimed: in progress, or gone. Interrupted: its row was locked, or the
   process died.
   */
  ghost predicate IsReplayTurn(a: nat, eventId: nat, name: string, u: ReplayTurn) {
    && Begins(a, eventId, name, u.job, u.before, u.begun) && LeadsTo(u.begun, u.claim)
    && IsReplaying(u.claim, a, ReplayQueued(u.job))
    && match u.result
       case Refused => false
       case NotClaimed =>
         JobFree(u.claim, u.job) && !ReplayClaimable(u.claim.db, u.job) && u.after == DoReplayClaim(u.claim, a)
       case Finished =>
         && ReplayRan(a, u) && !u.ending.Dies? && ReplayWritesAt(u.write, a, u.job, u.ending)
         && u.after == DoReplayWrite(u.write, a) && u.job in u.after.db.jobs
             && ReplayedTo(u.after.db.jobs[u.job], u.ending)
       case Interrupted =>
         || (!JobFree(u.claim, u.job) && u.after == Drop(u.claim, a))
         || (ReplayRan(a, u) && StopsAt(u.write, a, u.job, u.ending) && u.after == Drop(u.write, a))
  }

  /** The processors to replay: the named one, if it is eligible, or all eligible ones, if there are any. */
  function ReplayTargets(registered: seq<Registry.Config>, event: Registry.Event,
                         filter: Option<string>): Result<seq<string>> {
    match filter
    case Some(name) =>
      if Registry.RequireProcessor(registered, name, event).None? then Ok([name]) else Err("not eligible")
    case None =>
      var eligible := Registry.ProcessorsForEvent(registered, event);
      if |eligible| == 0 then Err("no eligible processors") else Ok(eligible)
  }

  /** A named replay is accepted when the first entry of that name matches, a general one when any entry does. */
  lemma TargetsMean(registered: seq<Registry.Config>, event: Registry.Event, filter: Option<string>)
    requires forall i :: 0 <= i < |registered| ==> registered[i].enabled
    ensures var targets := ReplayTargets(registered, event, filter);
            match filter
            case Some(name) =>
              (targets.Ok? <==> Registry.FirstMatches(registered, name, event))
                  && (targets.Ok? ==> targets.value == [name])
            case None =>
              && (targets.Ok? <==> exists c :: c in registered && Registry.MatchesEvent(c, event))
              && (targets.Ok? ==>
                    forall name :: name in targets.value <==> Registry.SomeMatches(registered, name, event))
  {
    match filter
    case Some(name) => Registry.RequiredIffFirstMatches(registered, name, event);
    case None =>
      forall name ensures name in Registry.ProcessorsForEvent(registered, event)
                          <==> Registry.SomeMatches(registered, name, event)
      {
        Registry.ListedIffSomeMatches(registered, name, event);
      }
      var eligible := Registry.ProcessorsForEvent(registered, event);
      if |eligible| > 0 {
        assert eligible[0] in eligible;
        var i :| 0 <= i < |registered| && registered[i].name == eligible[0]
            && Registry.MatchesEvent(registered[i], event);
        assert registered[i] in registered;
      }
      forall c | c in registered && Registry.MatchesEvent(c, event) ensures c.name in eligible {
        var i :| 0 <= i < |registered| && registered[i] == c;
      }
  }

  /** What became of one target: its creation waits for a lock that is not given up, or it has its turn. */
  datatype Record = Waits | Replayed(turn: ReplayTurn)

  ghost predicate IsRecord(a: nat, eventId: nat, name: string, ending: Ending, s: Sys, r: Record, t: Sys,
                           result: JobResult) {
    match r
    case Waits => t == s && !EventFree(s, eventId) && !HasJob(s.db.jobs, eventId, name) && result.Interrupted?
    case Replayed(u) =>
      IsReplayTurn(a, eventId, name, u) && u.before == s && u.after == t && u.ending == ending && u.result == result
  }

  /** Looks up or creates the job of one processor and replays it; a job cannot be created for an event that is gone. */
  method ReplayProcessor(table: JobTable, s: Sys, others: Others, ghost start: Sys, a: nat, eventId: nat,
                         name: string, ending: Ending)
    returns (t: Sys, result: JobResult, failed: bool, ghost record: Record)
    requires Between(start, s, table, a) && PlayFair(others, a)
    modifies table
    ensures Between(start, t, table, a)
    ensures if failed then t == s && eventId !in s.db.events && !HasJob(s.db.jobs, eventId, name)
            else IsRecord(a, eventId, name, ending, s, record, t, result)
  {
    var begin;
    t, begin := BeginReplay(table, s, start, a, eventId, name);
    record := Waits;
    if !begin.Begun? {
      return s, Interrupted, begin.Gone?, record;
    }
    failed := false;
    ghost var begun := t;
    ghost var claim, write;
    StartHere(start, begun, table, begin.job, name);
    t, result, claim, write := ReplayJob(table, t, others, begun, a, begin.job, name, ending);
    Chain(start, begun, t);
    record := Replayed(ReplayTurn(begin.job, ending, s, begun, claim, write, t, result));
  }

  /** The event is gone, or a lock on it is not given up, or the job is known. */
  datatype Begin = Gone | Waiting | Begun(job: nat)

  method BeginReplay(table: JobTable, s: Sys, ghost start: Sys, a: nat, eventId: nat, name: string)
    returns (t: Sys, begin: Begin)
    requires Between(start, s, table, a)
    modifies table
    ensures match begin
            case Gone => t == s && eventId !in s.db.events && !HasJob(s.db.jobs, eventId, name)
            case Waiting => t == s && !EventFree(s, eventId) && !HasJob(s.db.jobs, eventId, name)
            case Begun(job) =>
              At(start, t, table, job, name) && IsReplaying(t, a, ReplayQueued(job))
              && Begins(a, eventId, name, job, s, t)
    ensures !begin.Begun? ==> Between(start, s, table, a)
  {
    t := s;
    var job: nat, step;
    if HasJob(table.jobs, eventId, name) {
      job :| job in table.jobs && table.jobs[job].eventId == eventId && table.jobs[job].processor == name;
      step := ReplayPick(a, job);
      assert WellFormed(s.db);
    } else {
      if eventId !in table.events {
        return t, Gone;
      }
      if !EventFree(s, eventId) {
        return t, Waiting;
      }
      job, step := table.nextJob, ReplayCreate(a, eventId, name);
      assert job !in s.db.jobs;
      var _ := table.CreateJob(eventId, name);
    }
    StepBetween(start, s, step);
    t, begin := Apply(s, step), Begun(job);
  }

  lemma StepBetween(start: Sys, s: Sys, step: Step)
    requires LeadsTo(start, s) && Inv(s) && Enabled(s, step)
    ensures LeadsTo(start, Apply(s, step)) && Inv(Apply(s, step)) && Apply(s, step).policies == s.policies
  {
    OneStep(s, step);
    Chain(start, s, Apply(s, step));
    StepKeepsInv(s, step);
    PoliciesAreFixed(s, step);
  }

  /** One target after the other: `states[i]` is the state before target `i`. */
  ghost predicate AllReplayed(a: nat, eventId: nat, names: seq<string>, endings: string -> Ending,
                              states: seq<Sys>, records: seq<Record>, results: seq<JobResult>)
  {
    |records| == |results| && |records| <= |names| && |states| == |records| + 1
    && forall i :: 0 <= i < |records| ==>
                     IsRecord(a, eventId, names[i], endings(names[i]), states[i], records[i], states[i + 1], results[i])
  }

  lemma OneMoreRecord(a: nat, eventId: nat, names: seq<string>, endings: string -> Ending,
                      states: seq<Sys>, records: seq<Record>, results: seq<JobResult>, r: Record, t: Sys,
                          result: JobResult)
    requires AllReplayed(a, eventId, names, endings, states, records, results) && |records| < |names|
    requires var name := names[|records|];
             IsRecord(a, eventId, name, endings(name), states[|states| - 1], r, t, result)
    ensures AllReplayed(a, eventId, names, endings, states + [t], records + [r], results + [result])
  {
    var states', records', results' := states + [t], records + [r], results + [result];
    forall i | 0 <= i < |records'|
      ensures IsRecord(a, eventId, names[i], endings(names[i]), states'[i], records'[i], states'[i + 1], results'[i])
    {
      if i < |records| {
        assert IsRecord(a, eventId, names[i], endings(names[i]), states[i], records[i], states[i + 1], results[i]);
      }
    }
  }

  /**
   A rejected replay leaves everything as it is. An accepted one replays its processors in
   order, each in its turn, up to the first that finds the event gone.
   */
  method ReplayEvent(table: JobTable, s: Sys, others: Others, ghost start: Sys, a: nat,
                     registered: seq<Registry.Config>, eventId: nat,
                     filter: Option<string>, endings: string -> Ending)
    returns (t: Sys, outcome: Result<seq<JobResult>>, ghost states: seq<Sys>, ghost records: seq<Record>,
             ghost results: seq<JobResult>)
    requires Between(start, s, table, a) && PlayFair(others, a)
    modifies table
    ensures Between(start, t, table, a) && |states| > 0 && states[0] == s && states[|states| - 1] == t
    ensures eventId !in s.db.events || ReplayTargets(registered, EventOf(s.db.events[eventId]), filter).Err? ==>
              outcome.Err? && t == s
    ensures eventId in s.db.events && ReplayTargets(registered, EventOf(s.db.events[eventId]), filter).Ok? ==>
              var names := ReplayTargets(registered, EventOf(s.db.events[eventId]), filter).value;
              && AllReplayed(a, eventId, names, endings, states, records, results)
              && (if outcome.Ok? then outcome.value == results && |results| == |names| else eventId !in t.db.events)
  {
    t, states, records, results := s, [s], [], [];
    if eventId !in table.events {
      return t, Err("event not found"), states, records, results;
    }
    var targets := ReplayTargets(registered, EventOf(table.events[eventId]), filter);
    if targets.Err? {
      return t, Err(targets.message), states, records, results;
    }
    var names, done := targets.value, [];
    for i := 0 to |names|
      invariant Between(start, t, table, a) && |done| == i && done == results
      invariant |states| > 0 && states[0] == s && states[|states| - 1] == t
      invariant AllReplayed(a, eventId, names, endings, states, records, results)
    {
      var result, failed;
      ghost var record;
      t, result, failed, record := ReplayProcessor(table, t, others, start, a, eventId, names[i], endings(names[i]));
      if failed {
        return t, Err("event vanished"), states, records, results;
      }
      OneMoreRecord(a, eventId, names, endings, states, records, results, record, t, result);
      states, records, results := states + [t], records + [record], results + [result];
      done := done + [result];
    }
    outcome := Ok(done);
  }
}
