/** Conservation and crash safety over all runs of mailtx from empty tables. */
module LedgerRuns {
  import opened Wrappers
  import opened TransferStore
  import opened TransferLedger
  import opened LedgerConservation

  // ---------- conservation ----------

  /** The account matcher named the configured account. */
  predicate Resolved(c: Config, e: Email) {
    var known := FindFireflyId(c.accounts, e.accountId);
    known.Some? ==> known.value == e.fireflyId
  }

  /** Every email is handled once, and no run stops between an accepted post and its delete. */
  ghost predicate Orderly(c: Config, s: Sys, step: Step)
    requires Enabled(c, s, step)
  {
    match step
    case Handle(e, now, at, answer) =>
      Resolved(c, e) && (IsReplay(c, s, e, at, answer) || (Fresh(s, e) && (at.Some? ==> answer.Accepts?)))
    case Flush(answer) => answer.AcceptsButFails? ==> s.phase.todo[0].externalId.Some?
    case Stop => StopsCleanly(s.phase)
    case _ => true
  }

  ghost predicate RowsFromRules(c: Config, t: Table) {
    forall i :: 0 <= i < |t.rows| ==> FromRule(c, t.rows[i].ruleId, t.rows[i].source, t.rows[i].destination)
  }

  /** Without colons in source account ids, and with the configured accounts, every email fits. */
  lemma ConfiguredAccountsFit(c: Config, s: Sys, e: Email, now: int, at: Option<nat>, answer: Answer)
    requires ColonFree(c) && RowsFromRules(c, s.table) && Resolved(c, e) && Enabled(c, s, Handle(e, now, at, answer))
    ensures Fits(c, s, e, at)
  {
    MatchNamesOwnAccount(c, e.accountId, e.leg, e.narration);
    MatchIsFromRule(c, e.accountId, e.leg, e.narration);
    if Route(c, e).Some? && at.Some? {
      var m, row := Route(c, e).value, s.table.rows[at.value];
      RuleIdNamesAccounts(c, m.ruleId, m.source, m.destination, row.source, row.destination);
    }
  }

  ghost predicate Good(c: Config, s: Sys) {
    Inv(c, s) && Conserves(s) && RowsFromRules(c, s.table)
  }

  lemma RowsStayFromRules(c: Config, s: Sys, step: Step)
    requires RowsFromRules(c, s.table) && Enabled(c, s, step)
    ensures RowsFromRules(c, Apply(c, s, step).table)
  {
    var after := Apply(c, s, step).table;
    match step
    case Handle(e, _, _, _) => MatchIsFromRule(c, e.accountId, e.leg, e.narration);
    case DropFlushed => DeletedAreFromRules(c, s.table, s.phase.row.id);
    case DropCoalesced => DeletedAreFromRules(c, s.table, s.phase.row.id);
    case _ =>
  }

  lemma DeletedAreFromRules(c: Config, t: Table, id: nat)
    requires RowsFromRules(c, t)
    ensures RowsFromRules(c, Delete(t, id))
  {
    DeleteMeans(t.rows, id);
    var rest := WithoutId(t.rows, id);
    forall i | 0 <= i < |rest| ensures FromRule(c, rest[i].ruleId, rest[i].source, rest[i].destination) {
      assert rest[i] in rest;
      var k :| 0 <= k < |t.rows| && t.rows[k] == rest[i];
    }
  }

  lemma StepConserves(c: Config, s: Sys, step: Step)
    requires ColonFree(c) && Good(c, s) && Enabled(c, s, step) && Orderly(c, s, step)
    ensures Good(c, Apply(c, s, step))
  {
    RowsStayFromRules(c, s, step);
    match step
    case Begin(now, todo) => BeginKeeps(c, s, now, todo);
    case Flush(answer) =>
      FlushKeepsInv(c, s, answer);
      forall acct ensures Total(DoFlush(s, answer), acct) == Owed(s.handled, acct) {
        FlushConserves(c, s, answer, acct);
      }
    case DropFlushed => DropKeepsInv(c, s, step);
    case DropCoalesced => DropKeepsInv(c, s, step);
    case Handle(e, now, at, answer) =>
      HandleKeepsInv(c, s, e, now, at, answer);
      if IsReplay(c, s, e, at, answer) {
        ReplayConserves(c, s, e, now, at, answer);
      } else {
        FreshConserves(c, s, e, now, at, answer);
      }
    case Stop => StopConservesIff(c, s);
  }

  lemma FreshConserves(c: Config, s: Sys, e: Email, now: int, at: Option<nat>, answer: Answer)
    requires ColonFree(c) && Good(c, s) && Enabled(c, s, Handle(e, now, at, answer)) && Resolved(c, e) && Fresh(s, e)
    requires at.Some? ==> answer.Accepts?
    ensures Conserves(Apply(c, s, Handle(e, now, at, answer)))
  {
    ConfiguredAccountsFit(c, s, e, now, at, answer);
    HandleConservesIff(c, s, e, now, at);
    var s' := Apply(c, s, Handle(e, now, at, answer));
    if Route(c, e).None? {
      forall acct ensures Total(s', acct) == Owed(s'.handled, acct) {
        PostConserves(c, s, e, now, answer, acct);
      }
    } else {
      assert s' == Apply(c, s, Handle(e, now, at, Accepts));
    }
  }

  lemma BeginKeeps(c: Config, s: Sys, now: int, todo: seq<Row>)
    requires Inv(c, s) && Conserves(s) && Enabled(c, s, Begin(now, todo))
    ensures Inv(c, Apply(c, s, Begin(now, todo))) && Conserves(Apply(c, s, Begin(now, todo)))
  {
    var s' := Apply(c, s, Begin(now, todo));
    ExpiredIsTodo(s.table, now - c.window, todo);
    forall acct ensures Total(s', acct) == Owed(s'.handled, acct) { assert Total(s, acct) == Owed(s.handled, acct); }
  }

  ghost predicate OrderlyRun(c: Config, s: Sys, steps: seq<Step>)
    requires ValidRun(c, s, steps)
    decreases |steps|
  {
    |steps| > 0 ==> Orderly(c, s, steps[0]) && OrderlyRun(c, Apply(c, s, steps[0]), steps[1..])
  }

  lemma {:induction false} RunConserves(c: Config, s: Sys, steps: seq<Step>)
    requires ColonFree(c) && Good(c, s) && ValidRun(c, s, steps) && OrderlyRun(c, s, steps)
    ensures Good(c, Exec(c, s, steps))
    decreases |steps|
  {
    if |steps| > 0 {
      StepConserves(c, s, steps[0]);
      RunConserves(c, Apply(c, s, steps[0]), steps[1..]);
    }
  }

  /**
   At every moment of every such run the posted effects and the pending legs of
   each asset account add up to the effects of the emails handled so far.
   */
  lemma LedgerConserves(c: Config, steps: seq<Step>, acct: string)
    requires ColonFree(c) && ValidRun(c, NEW, steps) && OrderlyRun(c, NEW, steps)
    ensures Total(Exec(c, NEW, steps), acct) == Owed(Exec(c, NEW, steps).handled, acct)
  {
    RunConserves(c, NEW, steps);
  }

  /**
   The ledger never holds two transactions under one external id, whatever stops, replays and lost
   answers a run has.
   */
  lemma OneTransactionPerId(c: Config, steps: seq<Step>, i: nat, j: nat)
    requires ValidRun(c, NEW, steps) && i < j < |Exec(c, NEW, steps).ledger|
    ensures var ledger := Exec(c, NEW, steps).ledger;
            ledger[i].externalId.Some? ==> ledger[i].externalId != ledger[j].externalId
    ensures Keyed(Exec(c, NEW, steps).table)
  {
    RunIsSafe(c, NEW, steps);
  }

  // ---------- where the assumption on account ids is needed ----------

  ghost predicate OrderlyReaches(c: Config, s: Sys, t: Sys) {
    exists steps :: ValidRun(c, s, steps) && OrderlyRun(c, s, steps) && Exec(c, s, steps) == t
  }

  lemma ReachesItself(c: Config, s: Sys)
    ensures OrderlyReaches(c, s, s)
  {
    assert ValidRun(c, s, []) && OrderlyRun(c, s, []) && Exec(c, s, []) == s;
  }

  lemma FirstStep(c: Config, s: Sys, step: Step, t: Sys)
    requires Enabled(c, s, step) && Orderly(c, s, step) && OrderlyReaches(c, Apply(c, s, step), t)
    ensures OrderlyReaches(c, s, t)
  {
    var s' := Apply(c, s, step);
    var steps :| ValidRun(c, s', steps) && OrderlyRun(c, s', steps) && Exec(c, s', steps) == t;
    assert ([step] + steps)[1..] == steps;
    assert ValidRun(c, s, [step] + steps) && OrderlyRun(c, s, [step] + steps) && Exec(c, s, [step] + steps) == t;
  }

  /** Accounts `a` and `b:c` form the same rule id as `a:b` and `c`. */
  function Colliding(): Config {
    Config([Account("a", "1"), Account("b:c", "2"), Account("a:b", "3"), Account("c", "4")],
           [Rule("a", "b:c", [], []), Rule("a:b", "c", [], [])], 172800)
  }

  lemma CollidingRoutes()
    ensures Route(Colliding(), Email("x", "a", "1", Withdrawal, 100, "")) ==
            Some(RuleMatch("a:b:c", Withdrawal, "1", "2"))
    ensures Route(Colliding(), Email("y", "c", "4", Deposit, 100, "")) == Some(RuleMatch("a:b:c", Deposit, "3", "4"))
  {
    var c := Colliding();
    var r0, r1 := c.rules[0], c.rules[1];
    assert RuleId(r0) == "a:b:c" && RuleId(r1) == "a:b:c";
    assert Fires(r0, "a", Withdrawal, "") && !Fires(r0, "c", Deposit, "") && Fires(r1, "c", Deposit, "");
    assert c.rules[1..] == [r1];
    assert FirstToFire(c.rules, "a", Withdrawal, "") == 0;
    assert FirstToFire(c.rules, "c", Deposit, "") == 1;
    var accounts := c.accounts;
    assert accounts[1..][1..][1..] == [Account("c", "4")];
    assert accounts[1..][1..] == [Account("a:b", "3"), Account("c", "4")];
    assert accounts[1..] == [Account("b:c", "2"), Account("a:b", "3"), Account("c", "4")];
    assert FindFireflyId(accounts, "a") == Some("1") && FindFireflyId(accounts, "b:c") == Some("2");
    assert FindFireflyId(accounts[1..][1..], "c") == Some("4");
    assert FindFireflyId(accounts[1..][1..], "a:b") == Some("3");
    assert FindFireflyId(accounts, "c") == Some("4") && FindFireflyId(accounts, "a:b") == Some("3");
  }

  const FIRST: Email := Email("x", "a", "1", Withdrawal, 100, "")
  const SECOND: Email := Email("y", "c", "4", Deposit, 100, "")
  const STORED: Row := Row(0, "a:b:c", Withdrawal, 100, "1", "2", 0, Some("x"))

  const AFTER_FIRST: Sys := Sys(Table([STORED], 1), [], [FIRST], 0, Idle)
  const AFTER_SECOND: Sys :=
    Sys(Table([STORED], 1), [Posted(Some("y"), Some("3"), Some("4"), 100)], [FIRST, SECOND], 0,
        CoalescePosted(STORED, "y"))

  lemma NothingHandled()
    ensures HandledIds(NEW.handled) == {} && LedgerIds(NEW.ledger) == {}
    ensures HandledIds([FIRST]) == {"x"}
  {
    assert forall x :: x !in HandledIds(NEW.handled);
    assert forall x :: x !in LedgerIds(NEW.ledger);
    HandledGrow([], FIRST);
    assert [] + [FIRST] == [FIRST];
  }

  lemma CollidingFirst()
    ensures var c, begun, step := Colliding(), NEW.(phase := Flushing([])), Handle(FIRST, 0, None, Accepts);
            Enabled(c, begun, step) && Orderly(c, begun, step) && Apply(c, begun, step) == AFTER_FIRST
  {
    CollidingRoutes();
    NothingHandled();
    MatchNamesOwnAccount(Colliding(), "a", Withdrawal, "");
    assert NEW.table.rows + [STORED] == [STORED];
    assert NEW.handled + [FIRST] == [FIRST];
  }

  lemma CollidingSecond()
    ensures var c, begun, step := Colliding(), AFTER_FIRST.(phase := Flushing([])), Handle(SECOND, 0, Some(0), Accepts);
            Enabled(c, begun, step) && Orderly(c, begun, step) && Apply(c, begun, step) == AFTER_SECOND
  {
    CollidingRoutes();
    NothingHandled();
    MatchNamesOwnAccount(Colliding(), "c", Deposit, "");
    var posted := Posted(Some("y"), Some("3"), Some("4"), 100);
    assert AFTER_FIRST.ledger + [posted] == [posted];
    assert AFTER_FIRST.handled + [SECOND] == [FIRST, SECOND];
  }

  lemma CollidingTotals()
    ensures Total(AFTER_SECOND, "3") == -100 && Owed(AFTER_SECOND.handled, "3") == 0
  {
    var posted, t := Posted(Some("y"), Some("3"), Some("4"), 100), AFTER_SECOND;
    BalanceGrows([], posted, "3");
    assert [] + [posted] == t.ledger;
    PendingGrows([], STORED, LedgerIds(t.ledger), Some(0), "3");
    assert [] + [STORED] == t.table.rows;
    OwedGrows([], FIRST, "3");
    OwedGrows([FIRST], SECOND, "3");
    assert [] + [FIRST] == [FIRST] && [FIRST] + [SECOND] == t.handled;
  }

  /**
   With such account ids an orderly run coalesces two unrelated legs: money is
   taken from an account that no email mentions.
   */
  lemma CollidingIdsLoseMoney()
    ensures exists t :: OrderlyReaches(Colliding(), NEW, t) && !Conserves(t)
  {
    var c, t := Colliding(), AFTER_SECOND;
    ReachesItself(c, t);
    CollidingSecond();
    FirstStep(c, AFTER_FIRST.(phase := Flushing([])), Handle(SECOND, 0, Some(0), Accepts), t);
    assert ExpiredList(AFTER_FIRST.table, 0 - c.window, []);
    FirstStep(c, AFTER_FIRST, Begin(0, []), t);
    CollidingFirst();
    FirstStep(c, NEW.(phase := Flushing([])), Handle(FIRST, 0, None, Accepts), t);
    FirstStep(c, NEW, Begin(0, []), t);
    CollidingTotals();
  }
}
