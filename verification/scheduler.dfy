/**
 The scheduler's two loops: an event is dispatched and its new jobs are executed, and
 the retry sweep executes the due jobs of a scan. Each job has its turn.
 */
module Scheduler {
  import opened Wrappers
  import opened JobStore
  import opened JobProtocol
  import opened JobInvariant
  import opened JobRuns
  import opened JobExecution
  import Registry

  // ---------- turns in a row ----------

  /** One turn after the other, with any steps of the others in between, from `s` to `t`. */
  ghost predicate InTurn(a: nat, s: Sys, turns: seq<Turn>, t: Sys)
    decreases |turns|
  {
    if |turns| == 0 then LeadsTo(s, t)
    else
      var front, last := turns[..|turns| - 1], turns[|turns| - 1];
      InTurn(a, s, front, last.before) && IsTurn(a, last) && LeadsTo(last.after, t)
  }

  lemma OneMoreTurn(a: nat, s: Sys, turns: seq<Turn>, turn: Turn)
    requires InTurn(a, s, turns, turn.before) && IsTurn(a, turn)
    ensures InTurn(a, s, turns + [turn], turn.after)
  {
    Stay(turn.after);
    assert (turns + [turn])[..|turns|] == turns;
  }

  /** One job of a batch; the start of its run is the state it is called in. */
  method ExecuteNext(table: JobTable, s: Sys, others: Others, ghost start: Sys, a: nat, job: nat, processor: string,
                     refusal: Option<string>, ending: Ending)
    returns (t: Sys, result: JobResult, ghost turn: Turn)
    requires Between(start, s, table, a) && BelongsTo(s, job, processor) && PlayFair(others, a)
    modifies table
    ensures Between(start, t, table, a) && LeadsTo(s, t)
    ensures IsTurn(a, turn) && turn == Turn(job, processor, refusal, ending, s, turn.claim, turn.write, t, result)
    ensures Quiet(others) && refusal.None? && JobFree(s, job) && ClaimableAt(s, job) && !ending.Dies? ==>
              DoneQuietly(s, t, job, ending)
  {
    Stay(s);
    t, result, turn := ExecuteJob(table, s, others, s, a, job, processor, refusal, ending);
    Chain(start, s, t);
  }

  // ---------- the jobs of a dispatch ----------

  /** The ids of the jobs this dispatch has inserted, by processor. */
  function ByName(inserted: seq<(nat, string)>): map<string, nat> {
    if |inserted| == 0 then map[]
    else ByName(inserted[..|inserted| - 1])[inserted[|inserted| - 1].1 := inserted[|inserted| - 1].0]
  }

  ghost predicate AllBelong(s: Sys, jobs: map<string, nat>) {
    forall name :: name in jobs ==> BelongsTo(s, jobs[name], name)
  }

  ghost predicate IsNewJob(db: Db, after: Db, eventId: nat, id: nat, name: string) {
    id !in db.jobs && id in after.jobs && id < after.nextJob && after.jobs[id] == NewJob(eventId, name)
  }

  /** What the insert returns are new pending jobs of this event, under the names they were inserted for. */
  lemma {:induction false} InsertedAreNew(db: Db, eventId: nat, names: seq<string>)
    requires WellFormed(db) && eventId in db.events
    ensures forall i :: 0 <= i < |Inserted(db, eventId, names)| ==>
              IsNewJob(db, InsertAll(db, eventId, names), eventId, Inserted(db, eventId, names)[i].0,
                       Inserted(db, eventId, names)[i].1)
    decreases |names|
  {
    if |names| > 0 {
      var before, last := names[..|names| - 1], names[|names| - 1];
      InsertedAreNew(db, eventId, before);
      InsertAllExtends(db, eventId, before);
      var mid, front := InsertAll(db, eventId, before), Inserted(db, eventId, before);
      var after, all := Insert(mid, eventId, last), Inserted(db, eventId, names);
      forall i | 0 <= i < |all| ensures IsNewJob(db, after, eventId, all[i].0, all[i].1) {
        if i < |front| {
          assert all[i] == front[i];
          assert IsNewJob(db, mid, eventId, front[i].0, front[i].1);
        } else {
          assert all[i] == (mid.nextJob, last);
        }
      }
    }
  }

  /** Every listed processor that had no job yet gets one in the returned rows. */
  lemma {:induction false} InsertedAreAll(db: Db, eventId: nat, names: seq<string>, name: string)
    requires WellFormed(db) && eventId in db.events && name in names
    requires forall id :: id in db.jobs ==> !(db.jobs[id].eventId == eventId && db.jobs[id].processor == name)
    ensures Executed(Inserted(db, eventId, names), name)
    decreases |names|
  {
    var before, last := names[..|names| - 1], names[|names| - 1];
    var front, all := Inserted(db, eventId, before), Inserted(db, eventId, names);
    if name in before {
      InsertedAreAll(db, eventId, before, name);
      var i :| 0 <= i < |front| && front[i].1 == name;
      assert all[i] == front[i];
    } else {
      assert name == last by { assert names == before + [last]; }
      InsertAllExtends(db, eventId, before);
      assert all[|front|].1 == name;
    }
  }

  lemma InsertedBelong(s: Sys, t: Sys, eventId: nat, names: seq<string>)
    requires WellFormed(s.db) && eventId in s.db.events
    requires t.db.jobs == InsertAll(s.db, eventId, names).jobs
             && t.db.nextJob == InsertAll(s.db, eventId, names).nextJob
    ensures AllBelong(t, ByName(Inserted(s.db, eventId, names)))
  {
    var inserted := Inserted(s.db, eventId, names);
    InsertedAreNew(s.db, eventId, names);
    forall i | 0 <= i < |inserted| ensures BelongsTo(t, inserted[i].0, inserted[i].1) {
      assert IsNewJob(s.db, InsertAll(s.db, eventId, names), eventId, inserted[i].0, inserted[i].1);
    }
    ByNameBelongs(t, inserted);
  }

  lemma {:induction false} ByNameBelongs(t: Sys, inserted: seq<(nat, string)>)
    requires forall i :: 0 <= i < |inserted| ==> BelongsTo(t, inserted[i].0, inserted[i].1)
    ensures AllBelong(t, ByName(inserted))
  {
    if |inserted| > 0 { ByNameBelongs(t, inserted[..|inserted| - 1]); }
  }

  ghost predicate Once(executed: seq<(nat, string)>) {
    forall i, j :: 0 <= i < j < |executed| ==> executed[i].1 != executed[j].1
  }

  ghost predicate NoneRefused(turns: seq<Turn>) {
    forall i :: 0 <= i < |turns| ==> turns[i].refusal.None? && !turns[i].result.Refused?
  }

  /** The refusal of a listed processor: none, as long as names are unique. */
  lemma ListedIsEligible(registered: seq<Registry.Config>, name: string, event: Registry.Event)
    requires forall i :: 0 <= i < |registered| ==> registered[i].enabled
    requires name in Registry.ProcessorsForEvent(registered, event)
    ensures Registry.UniqueNames(registered) ==> RefusalText(Registry.RequireProcessor(registered, name, event)).None?
  {
    if Registry.UniqueNames(registered) { Registry.PathsAgreeOnRegistered(registered, name, event); }
  }

  /** Every inserted job is either still there or executed, once. */
  ghost predicate Accounted(inserted: map<string, nat>, left: map<string, nat>, executed: seq<(nat, string)>) {
    && (forall name :: name in left ==> name in inserted && left[name] == inserted[name])
    && Once(executed)
    && (forall j :: 0 <= j < |executed| ==> IsTaken(inserted, left, executed[j]))
    && (forall name :: name in inserted && name !in left ==> Executed(executed, name))
  }

  /** In the end every inserted job of a listed processor was taken, and nothing else. */
  lemma AccountedFor(inserted: map<string, nat>, left: map<string, nat>, executed: seq<(nat, string)>,
                     names: seq<string>)
    requires Accounted(inserted, left, executed) && GoneUpTo(left, names, |names|)
    ensures forall i :: 0 <= i < |executed| ==> IsTaken(inserted, map[], executed[i])
    ensures forall name :: name in inserted && name in names ==> Executed(executed, name)
  {
    forall i | 0 <= i < |executed| ensures IsTaken(inserted, map[], executed[i]) {
      assert IsTaken(inserted, left, executed[i]);
    }
  }

  ghost predicate GoneUpTo(left: map<string, nat>, names: seq<string>, n: nat)
    requires n <= |names|
  {
    forall j :: 0 <= j < n ==> names[j] !in left
  }

  lemma NextIsGone(left: map<string, nat>, names: seq<string>, i: nat)
    requires i < |names| && GoneUpTo(left, names, i)
    ensures GoneUpTo(left - {names[i]}, names, i + 1)
    ensures names[i] !in left ==> GoneUpTo(left, names, i + 1)
  {
  }

  lemma NothingTaken(inserted: map<string, nat>)
    ensures Accounted(inserted, inserted, [])
  {
  }

  ghost predicate IsTaken(inserted: map<string, nat>, left: map<string, nat>, row: (nat, string)) {
    row.1 in inserted && row.1 !in left && row.0 == inserted[row.1]
  }

  ghost predicate Executed(executed: seq<(nat, string)>, name: string) {
    exists i :: 0 <= i < |executed| && executed[i].1 == name
  }

  lemma TakeOne(inserted: map<string, nat>, left: map<string, nat>, executed: seq<(nat, string)>, name: string)
    requires Accounted(inserted, left, executed) && name in left
    ensures Accounted(inserted, left - {name}, executed + [(left[name], name)])
  {
    var left', executed' := left - {name}, executed + [(left[name], name)];
    forall j | 0 <= j < |executed'| ensures IsTaken(inserted, left', executed'[j]) {
      if j < |executed| { assert IsTaken(inserted, left, executed[j]); }
    }
    forall n | n in inserted && n !in left' ensures Executed(executed', n) {
      if n == name {
        assert executed'[|executed|].1 == n;
      } else {
        var i :| 0 <= i < |executed| && executed[i].1 == n;
        assert executed'[i].1 == n;
      }
    }
    forall i, j | 0 <= i < j < |executed'| ensures executed'[i].1 != executed'[j].1 {
      if j == |executed| { assert IsTaken(inserted, left, executed[i]); }
    }
  }

  /** The turn of an inserted job. */
  predicate TurnOfRow(u: Turn, row: (nat, string), registered: seq<Registry.Config>, event: Registry.Event,
                      ending: Ending) {
    u.job == row.0 && u.processor == row.1 && u.ending == ending
    && u.refusal == RefusalText(Registry.RequireProcessor(registered, row.1, event))
  }

  /** Every executed row had its turn, in order. */
  ghost predicate Recorded(a: nat, s: Sys, executed: seq<(nat, string)>, turns: seq<Turn>, t: Sys,
                           registered: seq<Registry.Config>, event: Registry.Event, endings: string -> Ending)
  {
    |turns| == |executed| && InTurn(a, s, turns, t)
    && forall i :: 0 <= i < |turns| ==> TurnOfRow(turns[i], executed[i], registered, event, endings(executed[i].1))
  }

  lemma RecordOne(a: nat, s: Sys, executed: seq<(nat, string)>, turns: seq<Turn>, row: (nat, string), turn: Turn,
                  registered: seq<Registry.Config>, event: Registry.Event, endings: string -> Ending)
    requires Recorded(a, s, executed, turns, turn.before, registered, event, endings) && IsTurn(a, turn)
    requires TurnOfRow(turn, row, registered, event, endings(row.1))
    ensures Recorded(a, s, executed + [row], turns + [turn], turn.after, registered, event, endings)
  {
    OneMoreTurn(a, s, turns, turn);
  }

  ghost predicate NoCleanups(s: Sys) {
    forall b :: b in s.actors ==> !s.actors[b].Cleaner?
  }

  ghost predicate IsFresh(s: Sys, job: nat, processor: string) {
    job in s.db.jobs && s.db.jobs[job].status == Pending && s.db.jobs[job].attempts == 0
    && s.db.jobs[job].processor == processor
  }

  /** One attempt, and the outcome of its ending. */
  ghost predicate RanOnce(s: Sys, job: nat, ending: Ending) {
    job in s.db.jobs && s.db.jobs[job].attempts == 1 && OutcomeOf(s.db.jobs[job].status, ending)
  }

  /** With nobody else at work: what is left is as it was inserted, and what was executed ran once. */
  ghost predicate Calm(s: Sys, left: map<string, nat>, executed: seq<(nat, string)>, endings: string -> Ending) {
    NoCleanups(s) && (forall name :: name in left ==> IsFresh(s, left[name], name))
    && forall i :: 0 <= i < |executed| ==> RanOnce(s, executed[i].0, endings(executed[i].1))
  }

  lemma CalmTurn(s: Sys, t: Sys, left: map<string, nat>, executed: seq<(nat, string)>, endings: string -> Ending,
                 name: string)
    requires Calm(s, left, executed, endings) && name in left && DoneQuietly(s, t, left[name], endings(name))
    ensures Calm(t, left - {name}, executed + [(left[name], name)], endings)
  {
    var job, executed' := left[name], executed + [(left[name], name)];
    assert IsFresh(s, job, name);
    forall n | n in left && n != name ensures IsFresh(t, left[n], n) { assert IsFresh(s, left[n], n); }
    forall i | 0 <= i < |executed'| ensures RanOnce(t, executed'[i].0, endings(executed'[i].1)) {
      if i < |executed| { assert RanOnce(s, executed[i].0, endings(executed[i].1)); }
    }
  }

  lemma CalmIsFree(s: Sys, left: map<string, nat>, executed: seq<(nat, string)>, endings: string -> Ending,
                   name: string)
    requires Calm(s, left, executed, endings) && name in left
    ensures JobFree(s, left[name]) && ClaimableAt(s, left[name])
  {
    assert IsFresh(s, left[name], name);
  }

  method ExecuteNamed(table: JobTable, s: Sys, others: Others, ghost start: Sys, a: nat,
                      registered: seq<Registry.Config>,
                      event: Registry.Event, newJobs: map<string, nat>, name: string, ending: Ending)
    returns (t: Sys, ghost turn: Turn)
    requires Between(start, s, table, a) && PlayFair(others, a) && AllBelong(s, newJobs) && name in newJobs
    requires forall i :: 0 <= i < |registered| ==> registered[i].enabled
    requires name in Registry.ProcessorsForEvent(registered, event)
    modifies table
    ensures Between(start, t, table, a) && AllBelong(t, newJobs)
    ensures IsTurn(a, turn) && turn.before == s && turn.after == t
    ensures TurnOfRow(turn, (newJobs[name], name), registered, event, ending)
    ensures Registry.UniqueNames(registered) ==> turn.refusal.None? && !turn.result.Refused?
    ensures Quiet(others) && Registry.UniqueNames(registered) && !ending.Dies?
            && JobFree(s, newJobs[name]) && ClaimableAt(s, newJobs[name])
            ==> DoneQuietly(s, t, newJobs[name], ending)
  {
    ListedIsEligible(registered, name, event);
    var refusal := RefusalText(Registry.RequireProcessor(registered, name, event));
    var result;
    t, result, turn := ExecuteNext(table, s, others, start, a, newJobs[name], name, refusal, ending);
    AllBelongForever(s, t, newJobs);
  }

  /** Nothing disturbs the dispatcher: the others are quiet, names are unique, no process dies. */
  ghost predicate Undisturbed(others: Others, registered: seq<Registry.Config>, endings: string -> Ending) {
    Quiet(others) && Registry.UniqueNames(registered) && forall name :: !endings(name).Dies?
  }

  /**
   Takes each processor's job out of the newly inserted ones and executes it. Every
   executed row has its turn, and undisturbed each of them runs once to its outcome.
   */
  method ExecuteInserted(table: JobTable, s: Sys, others: Others, ghost start: Sys, a: nat,
                         registered: seq<Registry.Config>,
                         event: Registry.Event, inserted: map<string, nat>, endings: string -> Ending)
    returns (t: Sys, executed: seq<(nat, string)>, ghost turns: seq<Turn>)
    requires Between(start, s, table, a) && PlayFair(others, a) && AllBelong(s, inserted)
    requires forall i :: 0 <= i < |registered| ==> registered[i].enabled
    modifies table
    ensures Between(start, t, table, a)
    ensures Once(executed) && forall i :: 0 <= i < |executed| ==> IsTaken(inserted, map[], executed[i])
    ensures forall name :: name in inserted && name in Registry.ProcessorsForEvent(registered, event) ==>
              Executed(executed, name)
    ensures Recorded(a, s, executed, turns, t, registered, event, endings)
    ensures Registry.UniqueNames(registered) ==> NoneRefused(turns)
    ensures Undisturbed(others, registered, endings) && Calm(s, inserted, [], endings) ==>
              forall i :: 0 <= i < |executed| ==> RanOnce(t, executed[i].0, endings(executed[i].1))
  {
    t, executed, turns := s, [], [];
    Stay(s);
    NothingTaken(inserted);
    ghost var calm := Undisturbed(others, registered, endings) && Calm(s, inserted, [], endings);
    var names, newJobs := Registry.ProcessorsForEvent(registered, event), inserted;
    for i := 0 to |names|
      invariant Between(start, t, table, a) && AllBelong(t, newJobs)
      invariant Accounted(inserted, newJobs, executed)
      invariant GoneUpTo(newJobs, names, i)
      invariant Recorded(a, s, executed, turns, t, registered, event, endings)
      invariant Registry.UniqueNames(registered) ==> NoneRefused(turns)
      invariant calm ==> Calm(t, newJobs, executed, endings)
    {
      NextIsGone(newJobs, names, i);
      if names[i] in newJobs {
        TakeOne(inserted, newJobs, executed, names[i]);
        t, executed, turns := ExecuteOne(table, t, others, start, a, registered, event, newJobs, names[i], endings,
                                         s, executed, turns);
        newJobs := newJobs - {names[i]};
      }
    }
    AccountedFor(inserted, newJobs, executed, names);
  }

  /** The turn of one inserted job, on record. */
  method ExecuteOne(table: JobTable, s: Sys, others: Others, ghost start: Sys, a: nat, registered: seq<Registry.Config>,
                    event: Registry.Event, newJobs: map<string, nat>, name: string, endings: string -> Ending,
                    ghost first: Sys, before: seq<(nat, string)>, ghost turns: seq<Turn>)
    returns (t: Sys, executed: seq<(nat, string)>, ghost turns': seq<Turn>)
    requires Between(start, s, table, a) && PlayFair(others, a) && AllBelong(s, newJobs) && name in newJobs
    requires forall i :: 0 <= i < |registered| ==> registered[i].enabled
    requires name in Registry.ProcessorsForEvent(registered, event)
    requires Recorded(a, first, before, turns, s, registered, event, endings)
    modifies table
    ensures Between(start, t, table, a) && AllBelong(t, newJobs - {name})
            && executed == before + [(newJobs[name], name)]
    ensures Recorded(a, first, executed, turns', t, registered, event, endings)
    ensures Registry.UniqueNames(registered) && NoneRefused(turns) ==> NoneRefused(turns')
    ensures Undisturbed(others, registered, endings) ==>
              Calm(s, newJobs, before, endings) ==> Calm(t, newJobs - {name}, executed, endings)
  {
    ghost var turn;
    t, turn := ExecuteNamed(table, s, others, start, a, registered, event, newJobs, name, endings(name));
    executed, turns' := before + [(newJobs[name], name)], turns + [turn];
    RecordOne(a, first, before, turns, (newJobs[name], name), turn, registered, event, endings);
    if Undisturbed(others, registered, endings) && Calm(s, newJobs, before, endings) {
      CalmIsFree(s, newJobs, before, endings, name);
      CalmTurn(s, t, newJobs, before, endings, name);
    }
  }

  /**
   One event: the whole dispatch is registered at once, then exactly the newly
   inserted jobs are executed, each once, each in its turn. With unique names no freshly
   dispatched job is refused as ineligible, and undisturbed each of them ends with
   one attempt and the outcome of its ending.
   */
  method ProcessEvent(table: JobTable, s: Sys, others: Others, ghost start: Sys, a: nat,
                      registered: seq<Registry.Config>,
                      eventId: nat, event: Registry.Event, endings: string -> Ending)
    returns (t: Sys, executed: seq<(nat, string)>, ghost turns: seq<Turn>)
    requires Between(start, s, table, a) && PlayFair(others, a)
    requires forall i :: 0 <= i < |registered| ==> registered[i].enabled
    modifies table
    ensures Between(start, t, table, a)
    ensures !EventFree(s, eventId) ==> t == s
    ensures !EventFree(s, eventId) || !Dispatchable(s.db, eventId) ==> executed == []
    ensures EventFree(s, eventId) ==>
              var names := Registry.ProcessorsForEvent(registered, event);
              Recorded(a, Apply(s, DispatchEvent(eventId, names)), executed, turns, t, registered, event, endings)
    ensures Once(executed) && forall i :: 0 <= i < |executed| ==>
                                            IsInserted(s.db, eventId, Registry.ProcessorsForEvent(registered, event),
                                                       executed[i])
    ensures EventFree(s, eventId) && Dispatchable(s.db, eventId) ==>
              forall row :: row in Inserted(s.db, eventId, Registry.ProcessorsForEvent(registered, event)) ==>
                              row in executed
    ensures EventFree(s, eventId) && Dispatchable(s.db, eventId) ==>
              forall name ::
                name in Registry.ProcessorsForEvent(registered, event) && !HasJob(s.db.jobs, eventId, name) ==>
                  Executed(executed, name)
    ensures Registry.UniqueNames(registered) ==> NoneRefused(turns)
    ensures Undisturbed(others, registered, endings) && NoCleanups(s) ==>
              forall i :: 0 <= i < |executed| ==> RanOnce(t, executed[i].0, endings(executed[i].1))
  {
    if !EventFree(s, eventId) {
      return s, [], [];
    }
    var names := Registry.ProcessorsForEvent(registered, event);
    var inserted := table.RegisterEventDispatch(eventId, names, s.now);
    t := Apply(s, DispatchEvent(eventId, names));
    StartDispatch(start, s, eventId, names);
    if NoCleanups(s) { DispatchIsCalm(s, eventId, names, endings); }
    t, executed, turns := ExecuteInserted(table, t, others, start, a, registered, event, ByName(inserted), endings);
    forall i | 0 <= i < |executed| ensures IsInserted(s.db, eventId, names, executed[i]) {
      ByNameFrom(inserted, executed[i].1);
    }
    assert |executed| > 0 ==> IsInserted(s.db, eventId, names, executed[0]);
    if Dispatchable(s.db, eventId) {
      AllInsertedExecuted(s.db, eventId, names, executed);
      forall name | name in names && !HasJob(s.db.jobs, eventId, name) ensures Executed(executed, name) {
        NewJobsExecuted(s.db, eventId, names, executed, name);
      }
    }
  }

  /** The rows of a dispatch are pending and unused. */
  lemma DispatchIsCalm(s: Sys, eventId: nat, names: seq<string>, endings: string -> Ending)
    requires Inv(s) && NoCleanups(s) && Enabled(s, DispatchEvent(eventId, names))
    ensures Calm(Apply(s, DispatchEvent(eventId, names)),
                 ByName(if Dispatchable(s.db, eventId) then Inserted(s.db, eventId, names) else []), [], endings)
  {
    if Dispatchable(s.db, eventId) {
      var t, inserted := Apply(s, DispatchEvent(eventId, names)), Inserted(s.db, eventId, names);
      InsertedAreNew(s.db, eventId, names);
      forall name | name in ByName(inserted) ensures IsFresh(t, ByName(inserted)[name], name) {
        ByNameFrom(inserted, name);
        var i :| 0 <= i < |inserted| && inserted[i] == (ByName(inserted)[name], name);
        assert IsNewJob(s.db, InsertAll(s.db, eventId, names), eventId, inserted[i].0, inserted[i].1);
      }
    }
  }

  /** One of the rows that this dispatch has inserted. */
  predicate IsInserted(db: Db, eventId: nat, names: seq<string>, row: (nat, string)) {
    Dispatchable(db, eventId) && row in Inserted(db, eventId, names)
  }

  /** A dispatch inserts at most one row for each listed processor. */
  ghost predicate OnePerName(inserted: seq<(nat, string)>, names: seq<string>) {
    (forall i :: 0 <= i < |inserted| ==> inserted[i].1 in names) &&
    (forall i, j :: 0 <= i < j < |inserted| ==> inserted[i].1 != inserted[j].1)
  }

  lemma {:induction false} InsertedOncePerName(db: Db, eventId: nat, names: seq<string>)
    requires WellFormed(db) && eventId in db.events
    ensures OnePerName(Inserted(db, eventId, names), names)
    decreases |names|
  {
    if |names| > 0 {
      var before, last := names[..|names| - 1], names[|names| - 1];
      var mid, front := InsertAll(db, eventId, before), Inserted(db, eventId, before);
      InsertedOncePerName(db, eventId, before);
      InsertedAreNew(db, eventId, before);
      assert names == before + [last];
      forall i | 0 <= i < |front| && !HasJob(mid.jobs, eventId, last) ensures front[i].1 != last {
        assert IsNewJob(db, mid, eventId, front[i].0, front[i].1);
      }
    }
  }

  lemma {:induction false} ByNameHas(inserted: seq<(nat, string)>, names: seq<string>, i: nat)
    requires OnePerName(inserted, names) && i < |inserted|
    ensures inserted[i].1 in ByName(inserted) && ByName(inserted)[inserted[i].1] == inserted[i].0
  {
    if i < |inserted| - 1 { ByNameHas(inserted[..|inserted| - 1], names, i); }
  }

  lemma AllInsertedExecuted(db: Db, eventId: nat, names: seq<string>, executed: seq<(nat, string)>)
    requires WellFormed(db) && eventId in db.events
    requires forall i :: 0 <= i < |executed| ==> IsTaken(ByName(Inserted(db, eventId, names)), map[], executed[i])
    requires forall name :: name in ByName(Inserted(db, eventId, names)) && name in names ==> Executed(executed, name)
    ensures forall row :: row in Inserted(db, eventId, names) ==> row in executed
  {
    var inserted := Inserted(db, eventId, names);
    InsertedOncePerName(db, eventId, names);
    forall row | row in inserted ensures row in executed {
      var i :| 0 <= i < |inserted| && inserted[i] == row;
      ByNameHas(inserted, names, i);
      var j :| 0 <= j < |executed| && executed[j].1 == row.1;
      assert IsTaken(ByName(inserted), map[], executed[j]);
      assert executed[j] == row;
    }
  }

  lemma NewJobsExecuted(db: Db, eventId: nat, names: seq<string>, executed: seq<(nat, string)>, name: string)
    requires WellFormed(db) && eventId in db.events && name in names && !HasJob(db.jobs, eventId, name)
    requires forall row :: row in Inserted(db, eventId, names) ==> row in executed
    ensures Executed(executed, name)
  {
    InsertedAreAll(db, eventId, names, name);
    var inserted := Inserted(db, eventId, names);
    var i :| 0 <= i < |inserted| && inserted[i].1 == name;
    assert inserted[i] in executed;
  }

  lemma {:induction false} ByNameFrom(inserted: seq<(nat, string)>, name: string)
    ensures name in ByName(inserted) ==> (ByName(inserted)[name], name) in inserted
  {
    if |inserted| > 0 {
      ByNameFrom(inserted[..|inserted| - 1], name);
      assert inserted == inserted[..|inserted| - 1] + [inserted[|inserted| - 1]];
    }
  }

  lemma StartDispatch(start: Sys, s: Sys, eventId: nat, names: seq<string>)
    requires LeadsTo(start, s) && Inv(s) && Enabled(s, DispatchEvent(eventId, names))
    ensures var t := Apply(s, DispatchEvent(eventId, names));
            && LeadsTo(start, t) && Inv(t)
            && AllBelong(t, ByName(if Dispatchable(s.db, eventId) then Inserted(s.db, eventId, names) else []))
  {
    var step := DispatchEvent(eventId, names);
    OneStep(s, step);
    Chain(start, s, Apply(s, step));
    StepKeepsInv(s, step);
    if Dispatchable(s.db, eventId) { InsertedBelong(s, Apply(s, step), eventId, names); }
  }

  lemma AllBelongForever(s: Sys, t: Sys, jobs: map<string, nat>)
    requires Inv(s) && LeadsTo(s, t) && AllBelong(s, jobs)
    ensures AllBelong(t, jobs)
  {
    forall name | name in jobs ensures BelongsTo(t, jobs[name], name) { BelongsForever(s, t, jobs[name], name); }
  }

  // ---------- the retry sweep ----------

  /** A row of the sweep's scan, as it was read. */
  datatype Due = Due(job: nat, eventId: nat, processor: string)

  ghost predicate DueBelong(s: Sys, due: seq<Due>) {
    forall i :: 0 <= i < |due| ==> BelongsTo(s, due[i].job, due[i].processor)
  }

  lemma ScanBelongs(s: Sys, due: seq<Due>)
    requires WellFormed(s.db)
    requires forall i :: 0 <= i < |due| ==>
                           due[i].job in s.db.jobs && s.db.jobs[due[i].job].processor == due[i].processor
    ensures DueBelong(s, due)
  {
  }

  /** A row of the scan when its turn comes: its event can be loaded from what is in the tables then. */
  predicate HasEvent(d: Due, seen: Sys, loads: bool) {
    loads && d.eventId in seen.db.events
  }

  /** The positions of the rows whose events can be loaded at their turn, in scan order. */
  function Kept(due: seq<Due>, seen: seq<Sys>, loads: nat -> bool): seq<nat>
    requires |seen| == |due|
  {
    if |due| == 0 then []
    else
      var n := |due| - 1;
      Kept(due[..n], seen[..n], loads) + if HasEvent(due[n], seen[n], loads(n)) then [n] else []
  }

  lemma KeptNext(due: seq<Due>, i: nat, seen: seq<Sys>, next: Sys, loads: nat -> bool)
    requires i < |due| && |seen| == i
    ensures Kept(due[..i + 1], seen + [next], loads) ==
            Kept(due[..i], seen, loads) + if HasEvent(due[i], next, loads(i)) then [i] else []
  {
    assert due[..i + 1][..i] == due[..i] && (seen + [next])[..i] == seen;
  }

  /** Exactly the rows whose event was still there, and could be loaded, have a turn, in scan order. */
  lemma {:induction false} KeptMeans(due: seq<Due>, seen: seq<Sys>, loads: nat -> bool)
    requires |seen| == |due|
    ensures var kept := Kept(due, seen, loads);
            && (forall i: nat :: i in kept <==> i < |due| && loads(i) && due[i].eventId in seen[i].db.events)
            && (forall i, j :: 0 <= i < j < |kept| ==> kept[i] < kept[j])
  {
    if |due| > 0 {
      var n := |due| - 1;
      var front, kept := Kept(due[..n], seen[..n], loads), Kept(due, seen, loads);
      KeptMeans(due[..n], seen[..n], loads);
      assert forall j :: 0 <= j < |front| ==> front[j] in front;
      assert forall i: nat :: i in kept <==> i in front || (i == n && HasEvent(due[n], seen[n], loads(n)));
    }
  }

  /** The state in which row `i` was reached; after the last row, the end. */
  function ReachedAt(seen: seq<Sys>, i: nat, end: Sys): Sys {
    if i < |seen| then seen[i] else end
  }

  /** A row without a turn changes nothing. */
  ghost predicate SkipsAreNothing(s: Sys, seen: seq<Sys>, kept: seq<nat>, t: Sys) {
    ReachedAt(seen, 0, t) == s
    && forall i: nat :: i < |seen| && i !in kept ==> ReachedAt(seen, i, t) == ReachedAt(seen, i + 1, t)
  }

  lemma SkipOrTurn(s: Sys, seen: seq<Sys>, kept: seq<nat>, t: Sys, u: Sys, turn: bool)
    requires SkipsAreNothing(s, seen, kept, t) && (turn || u == t)
    ensures SkipsAreNothing(s, seen + [t], if turn then kept + [|seen|] else kept, u)
  {
    var seen', kept' := seen + [t], if turn then kept + [|seen|] else kept;
    forall i: nat | i < |seen'| && i !in kept' ensures ReachedAt(seen', i, u) == ReachedAt(seen', i + 1, u) {
      assert i !in kept;
      if i < |seen| { assert ReachedAt(seen, i, t) == ReachedAt(seen, i + 1, t); }
    }
    assert ReachedAt(seen', 0, u) == ReachedAt(seen, 0, t);
  }

  /** The turn of the row at position `k`, in the state in which it was reached. */
  ghost predicate SweptAt(u: Turn, due: seq<Due>, seen: seq<Sys>, k: nat, registered: seq<Registry.Config>,
                          endings: nat -> Ending)
  {
    k < |due| && k < |seen| && u.job == due[k].job && u.processor == due[k].processor && u.ending == endings(k)
    && u.before == seen[k] && due[k].eventId in seen[k].db.events
    && u.refusal ==
       RefusalText(Registry.RequireProcessor(registered, due[k].processor, EventOf(seen[k].db.events[due[k].eventId])))
  }

  ghost predicate Swept(a: nat, s: Sys, due: seq<Due>, seen: seq<Sys>, kept: seq<nat>, turns: seq<Turn>, t: Sys,
                        registered: seq<Registry.Config>, endings: nat -> Ending)
  {
    |turns| == |kept| && InTurn(a, s, turns, t)
    && forall i :: 0 <= i < |turns| ==> SweptAt(turns[i], due, seen, kept[i], registered, endings)
  }

  lemma SweptStays(a: nat, s: Sys, due: seq<Due>, seen: seq<Sys>, next: Sys, kept: seq<nat>, turns: seq<Turn>, t: Sys,
                   registered: seq<Registry.Config>, endings: nat -> Ending)
    requires Swept(a, s, due, seen, kept, turns, t, registered, endings)
    ensures Swept(a, s, due, seen + [next], kept, turns, t, registered, endings)
  {
    forall i | 0 <= i < |turns| ensures SweptAt(turns[i], due, seen + [next], kept[i], registered, endings) {
      assert SweptAt(turns[i], due, seen, kept[i], registered, endings);
    }
  }

  /**
   The rows are executed one by one in scan order, each once and each in its turn,
   however stale the scan has become meanwhile; exactly those whose event cannot be
   loaded then are left out.
   */
  method RetrySweep(table: JobTable, s: Sys, others: Others, ghost start: Sys, a: nat,
                    registered: seq<Registry.Config>, due: seq<Due>,
                    loads: nat -> bool, endings: nat -> Ending)
    returns (t: Sys, kept: seq<nat>, ghost turns: seq<Turn>, ghost seen: seq<Sys>)
    requires Between(start, s, table, a) && PlayFair(others, a) && |due| <= 50
    requires forall i :: 0 <= i < |due| ==> due[i].job in table.jobs && Claimable(table.jobs[due[i].job], s.now)
                                            && table.jobs[due[i].job].eventId == due[i].eventId
                                            && table.jobs[due[i].job].processor == due[i].processor
    modifies table
    ensures Between(start, t, table, a) && |seen| == |due|
    ensures kept == Kept(due, seen, loads) && Swept(a, s, due, seen, kept, turns, t, registered, endings)
    ensures SkipsAreNothing(s, seen, kept, t)
  {
    t, kept, turns, seen := s, [], [], [];
    Stay(s);
    ScanBelongs(s, due);
    for i := 0 to |due|
      invariant Between(start, t, table, a) && DueBelong(t, due) && |seen| == i
      invariant kept == Kept(due[..i], seen, loads) && Swept(a, s, due, seen, kept, turns, t, registered, endings)
      invariant SkipsAreNothing(s, seen, kept, t)
    {
      ghost var reached, earlier, turned := t, seen, loads(i) && due[i].eventId in table.events;
      ghost var keptBefore := kept;
      KeptNext(due, i, seen, t, loads);
      SweptStays(a, s, due, seen, t, kept, turns, t, registered, endings);
      seen := seen + [t];
      if loads(i) && due[i].eventId in table.events {
        t, turns := SweepRow(table, t, others, start, a, registered, due, i, endings, s, seen, kept, turns);
        kept := kept + [i];
      }
      SkipOrTurn(s, earlier, keptBefore, reached, t, turned);
    }
    assert due[..|due|] == due;
  }

  /** The turn of one row of the scan, on record. */
  method SweepRow(table: JobTable, s: Sys, others: Others, ghost start: Sys, a: nat, registered: seq<Registry.Config>,
                  due: seq<Due>, k: nat, endings: nat -> Ending,
                  ghost first: Sys, ghost seen: seq<Sys>, ghost kept: seq<nat>, ghost before: seq<Turn>)
    returns (t: Sys, ghost turns: seq<Turn>)
    requires Between(start, s, table, a) && PlayFair(others, a) && DueBelong(s, due)
    requires k < |due| && due[k].eventId in table.events && |seen| == k + 1 && seen[k] == s
    requires Swept(a, first, due, seen, kept, before, s, registered, endings)
    modifies table
    ensures Between(start, t, table, a) && DueBelong(t, due)
    ensures Swept(a, first, due, seen, kept + [k], turns, t, registered, endings)
  {
    var d := due[k];
    var refusal := RefusalText(Registry.RequireProcessor(registered, d.processor, EventOf(table.events[d.eventId])));
    var result;
    ghost var turn;
    t, result, turn := ExecuteNext(table, s, others, start, a, d.job, d.processor, refusal, endings(k));
    OneMoreTurn(a, first, before, turn);
    turns := before + [turn];
    assert SweptAt(turn, due, seen, k, registered, endings);
    forall j | 0 <= j < |due| ensures BelongsTo(t, due[j].job, due[j].processor) {
      BelongsForever(s, t, due[j].job, due[j].processor);
    }
  }
}
