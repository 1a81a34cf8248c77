/**
 One invocation of mailtx on its store and endpoint: flush what expired, then post,
 store or coalesce the transaction of the email. The invocation may be cut off
 after any number of effects; whatever it did is a run of the transfer ledger.
 */
module MailtxRun {
  import opened Wrappers
  import opened TransferStore
  import opened TransferLedger
  import opened LedgerConservation
  import opened LedgerRuns

  ghost predicate Mirrors(s: Sys, store: PendingStore, endpoint: Endpoint)
    reads store, endpoint
  {
    s.table == store.Contents() && s.ledger == endpoint.ledger
  }

  lemma OneMore(c: Config, s: Sys, steps: seq<Step>, step: Step)
    requires ValidRun(c, s, steps) && Enabled(c, Exec(c, s, steps), step)
    ensures ValidRun(c, s, steps + [step]) && Exec(c, s, steps + [step]) == Apply(c, Exec(c, s, steps), step)
    decreases |steps|
  {
    var more := steps + [step];
    if |steps| == 0 {
      assert more == [step] && more[1..] == [];
    } else {
      assert more[1..] == steps[1..] + [step];
      OneMore(c, Apply(c, s, steps[0]), steps[1..], step);
    }
  }

  /** The steps so far lead from `s` to `t`, and the next one extends them. */
  ghost predicate LeadsTo(c: Config, s: Sys, t: Sys) {
    exists steps :: ValidRun(c, s, steps) && Exec(c, s, steps) == t
  }

  lemma Stay(c: Config, s: Sys)
    ensures LeadsTo(c, s, s)
  {
    assert ValidRun(c, s, []) && Exec(c, s, []) == s;
  }

  lemma Go(c: Config, s: Sys, t: Sys, step: Step)
    requires LeadsTo(c, s, t) && Enabled(c, t, step)
    ensures LeadsTo(c, s, Apply(c, t, step))
  {
    var steps :| ValidRun(c, s, steps) && Exec(c, s, steps) == t;
    OneMore(c, s, steps, step);
  }

  lemma LeadsToSafe(c: Config, s: Sys, t: Sys)
    requires LeadsTo(c, s, t) && Safe(s)
    ensures Safe(t)
  {
    var steps :| ValidRun(c, s, steps) && Exec(c, s, steps) == t;
    RunIsSafe(c, s, steps);
  }

  // ---------- the flush ----------

  /** The row left the table: its post was accepted. */
  ghost predicate Flushed(expired: seq<Row>, i: nat, answers: nat -> Answer, r: Row) {
    exists k :: 0 <= k < i && k < |expired| && expired[k] == r && answers(k).Accepts?
  }

  /**
   After `i` expired rows: exactly the accepted ones are gone, and every post that was not refused
   is in the ledger.
   */
  ghost predicate FlushedTo(before: seq<Row>, expired: seq<Row>, i: nat, answers: nat -> Answer,
                            rows: seq<Row>, ledger: seq<Posted>)
  {
    (forall r :: r in rows <==> r in before && !Flushed(expired, i, answers, r)) &&
    forall k :: 0 <= k < i && k < |expired| && !answers(k).Rejects? ==> PostedAlone(ledger, expired[k])
  }

  lemma FlushOneMore(before: seq<Row>, expired: seq<Row>, i: nat, answers: nat -> Answer,
                     rows: seq<Row>, ledger: seq<Posted>, rows': seq<Row>, ledger': seq<Posted>)
    requires i < |expired| && FlushedTo(before, expired, i, answers, rows, ledger)
    requires forall r :: r in rows' <==> r in rows && !(answers(i).Accepts? && r == expired[i])
    requires ledger <= ledger' && LedgerIds(ledger) <= LedgerIds(ledger')
    requires !answers(i).Rejects? ==> PostedAlone(ledger', expired[i])
    ensures FlushedTo(before, expired, i + 1, answers, rows', ledger')
  {
    forall r ensures Flushed(expired, i + 1, answers, r) <==>
                     Flushed(expired, i, answers, r) || (answers(i).Accepts? && r == expired[i])
    {
      if Flushed(expired, i, answers, r) {
        var k :| 0 <= k < i && k < |expired| && expired[k] == r && answers(k).Accepts?;
        assert k < i + 1;
      }
      if answers(i).Accepts? && r == expired[i] { assert i < i + 1; }
    }
    forall k | 0 <= k < i + 1 && !answers(k).Rejects? ensures PostedAlone(ledger', expired[k]) {
      if k < i { assert PostedAlone(ledger, expired[k]); }
    }
  }

  /** What the post of an expired row leaves in the ledger. */
  lemma PostedRow(ledger: seq<Posted>, row: Row, answer: Answer)
    requires OnePerId(ledger)
    ensures var (ledger', ok) := Post(ledger, RowTx(row), answer);
            && ledger <= ledger' && LedgerIds(ledger) <= LedgerIds(ledger') && (ok <==> answer.Accepts?)
            && (!answer.Rejects? ==> PostedAlone(ledger', row))
  {
    PostIsSafe(ledger, RowTx(row), answer);
    if !answer.Rejects? && !Known(ledger, row.externalId) {
      var posted := Payload(RowTx(row)).value;
      LedgerIdsGrow(ledger, posted);
      assert (ledger + [posted])[|ledger|] == posted;
    }
  }

  /** A lost answer to a flush is harmless for rows with an external id. */
  ghost predicate AnswersFit(rows: seq<Row>, answers: nat -> Answer) {
    (forall k :: answers(k).AcceptsButFails? ==> forall r :: r in rows ==> r.externalId.Some?)
  }

  /**
   Posts the expired legs and deletes those that were accepted; `t` is the ledger's view
   of where this ended. A flush that is not cut off has deleted exactly the rows whose
   posts were accepted, and it conserves the ledger.
   */
  method FlushExpired(c: Config, store: PendingStore, endpoint: Endpoint, now: int, answers: nat -> Answer,
                      budget: nat, ghost s: Sys)
    returns (left: nat, cutOff: bool, ghost t: Sys, ghost expired: seq<Row>)
    requires Safe(s) && s.phase.Idle? && now >= s.clock && Mirrors(s, store, endpoint) && store.window == c.window
    modifies store, endpoint
    ensures Mirrors(t, store, endpoint) && LeadsTo(c, s, t) && t.clock == now && t.handled == s.handled
    ensures forall r :: r in expired <==> r in old(store.rows) && r.insertedAt < now - c.window
    ensures |expired| <= |old(store.rows)|
    ensures !cutOff ==> t.phase == Flushing([])
    ensures !cutOff ==> FlushedTo(old(store.rows), expired, |expired|, answers, store.rows, endpoint.ledger)
    ensures budget >= 2 * |expired| ==> !cutOff && left + 2 * |expired| >= budget
    ensures ColonFree(c) && Good(c, s) && AnswersFit(old(store.rows), answers) ==> Good(c, t)
  {
    expired := [];
    var rows := store.DrainExpired(now);
    expired := rows;
    t := Apply(c, s, Begin(now, rows));
    Stay(c, s);
    Go(c, s, s, Begin(now, rows));
    StepIsSafe(c, s, Begin(now, rows));
    ghost var good := ColonFree(c) && Good(c, s) && AnswersFit(old(store.rows), answers);
    if good { StepConserves(c, s, Begin(now, rows)); }
    left, cutOff := budget, false;
    var i := 0;
    assert rows[0..] == rows;
    while i < |rows|
      invariant 0 <= i <= |rows| && t.phase == Flushing(rows[i..]) && Safe(t)
      invariant Mirrors(t, store, endpoint) && LeadsTo(c, s, t) && t.clock == now && t.handled == s.handled
      invariant FlushedTo(old(store.rows), rows, i, answers, store.rows, endpoint.ledger)
      invariant budget <= left + 2 * i && (good ==> Good(c, t))
    {
      if left == 0 {
        return left, true, t, expired;
      }
      assert rows[i] in rows && rows[i..][1..] == rows[i + 1..];
      cutOff, left, t := FlushRow(c, store, endpoint, rows, i, answers, left, s, t, old(store.rows), good);
      if cutOff {
        return left, cutOff, t, expired;
      }
      i := i + 1;
    }
  }

  /** One expired row: post, and delete if accepted. */
  method FlushRow(c: Config, store: PendingStore, endpoint: Endpoint, rows: seq<Row>, i: nat, answers: nat -> Answer,
                  budget: nat, ghost first: Sys, ghost s: Sys, ghost before: seq<Row>, ghost good: bool)
    returns (cutOff: bool, left: nat, ghost t: Sys)
    requires i < |rows| && budget > 0 && s.phase == Flushing(rows[i..]) && Safe(s) && Mirrors(s, store, endpoint)
    requires LeadsTo(c, first, s) && FlushedTo(before, rows, i, answers, store.rows, endpoint.ledger)
    requires good ==> ColonFree(c) && Good(c, s) && AnswersFit(before, answers) && rows[i] in before
    modifies store, endpoint
    ensures Mirrors(t, store, endpoint) && LeadsTo(c, first, t) && t.clock == s.clock && t.handled == s.handled
            && Safe(t)
    ensures !cutOff ==> t.phase == Flushing(rows[i + 1..]) && budget <= left + 2
    ensures !cutOff ==> FlushedTo(before, rows, i + 1, answers, store.rows, endpoint.ledger)
    ensures cutOff ==> budget < 2
    ensures good ==> Good(c, t)
  {
    var row := rows[i];
    assert rows[i..][0] == row && rows[i..][1..] == rows[i + 1..];
    Go(c, first, s, Flush(answers(i)));
    StepIsSafe(c, s, Flush(answers(i)));
    if good { StepConserves(c, s, Flush(answers(i))); }
    t := Apply(c, s, Flush(answers(i)));
    PostedRow(endpoint.ledger, row, answers(i));
    ghost var ledger, stored := endpoint.ledger, store.rows;
    var accepted := endpoint.PostTransaction(
      Tx(if row.leg == Withdrawal then WithdrawalTx else DepositTx,
         if row.leg == Withdrawal then row.source else row.destination,
         None, row.amount, row.externalId), answers(i));
    left, cutOff := budget - 1, false;
    if accepted {
      if left == 0 {
        return true, left, t;
      }
      ghost var u := t;
      DeleteTakesRow(u.table, row);
      store.DeleteRow(row.id);
      Go(c, first, u, DropFlushed);
      StepIsSafe(c, u, DropFlushed);
      if good { StepConserves(c, u, DropFlushed); }
      t := Apply(c, u, DropFlushed);
      left := left - 1;
    }
    FlushOneMore(before, rows, i, answers, stored, ledger, store.rows, endpoint.ledger);
  }

  /** Deleting a stored row by its id removes that row. */
  lemma DeleteTakesRow(t: Table, row: Row)
    requires Keyed(t) && row in t.rows
    ensures forall r :: r in t.rows && r.id == row.id ==> r == row
  {
    forall r | r in t.rows && r.id == row.id ensures r == row { SameIdSameRow(t, r, row); }
  }

  // ---------- the email ----------

  /** What the email's transaction becomes. */
  datatype Outcome = TransactionPosted | LegStored | LegAlreadyStored | TransferCoalesced | PostFailed | CutOff

  /** What each outcome leaves in the table: only a coalesced leg goes, and only a first leg is added. */
  ghost predicate TableAfter(result: Outcome, before: Table, after: Table, at: Option<nat>, m: Option<RuleMatch>,
                             e: Email, now: int)
  {
    match result
    case LegStored =>
      && m.Some? && at.None?
      && after.rows ==
         before.rows + [Row(before.nextId, m.value.ruleId, e.leg, e.amount, m.value.source, m.value.destination, now,
                            Some(e.externalId))]
    case TransferCoalesced =>
      && m.Some? && at.Some? && at.value < |before.rows|
      && before.rows[at.value].ruleId == m.value.ruleId && before.rows[at.value].leg != e.leg
      && before.rows[at.value].amount == e.amount
      && (Keyed(before) ==> after.rows == before.rows[..at.value] + before.rows[at.value + 1..])
    case _ => after == before
  }

  /**
   Post, store or coalesce. Unless it is cut off, handling a fresh, fitting email conserves
   the ledger, with the one exception of a lost answer to a transfer.
   */
  method HandleEmail(c: Config, store: PendingStore, endpoint: Endpoint, e: Email, now: int, answer: Answer,
                     budget: nat, ghost s: Sys)
    returns (result: Outcome, ghost t: Sys, ghost at: Option<nat>)
    requires s.phase == Flushing([]) && now >= s.clock && Mirrors(s, store, endpoint) && store.window == c.window
    modifies store, endpoint
    ensures Mirrors(t, store, endpoint) && LeadsTo(c, s, t)
    ensures !result.CutOff? ==> t.phase.Idle? && TableAfter(result, s.table, t.table, at, Route(c, e), e, now)
    ensures result.CutOff? ==> budget < 2 && t.table == s.table
    ensures result.TransactionPosted? || result.TransferCoalesced? ==> Known(endpoint.ledger, Some(e.externalId))
    ensures result.LegStored? || result.LegAlreadyStored? ==> Stores(store.Contents(), e.externalId)
    ensures result.TransactionPosted? ==> Route(c, e).None?
    ensures result.LegStored? || result.LegAlreadyStored? || result.TransferCoalesced? ==> Route(c, e).Some?
    ensures result.PostFailed? ==> !answer.Accepts?
    ensures budget >= 2 && Route(c, e).None? ==> (result.TransactionPosted? <==> answer.Accepts?)
    ensures budget >= 2 && Route(c, e).Some? && at.Some? ==> (result.TransferCoalesced? <==> answer.Accepts?)
    ensures budget >= 2 && Route(c, e).Some? && at.None? ==>
              (result.LegStored? <==> !Stores(s.table, e.externalId)) && (result.LegStored? || result.LegAlreadyStored?)
    ensures if budget == 0 then result.CutOff? else Enabled(c, s, Handle(e, now, at, answer))
    ensures !result.CutOff? && Inv(c, s) && Conserves(s) && Fresh(s, e) && Fits(c, s, e, at) ==>
              (Conserves(t) <==> !LosesTransfer(e, at, answer))
  {
    t, at := s, None;
    Stay(c, s);
    if budget == 0 {
      return CutOff, t, at;
    }
    var route := DetectTransferRule(c, e.accountId, e.leg, e.narration);
    if route.None? {
      result, t := PostOwn(c, store, endpoint, e, now, answer, s);
      return;
    }
    result, t, at := HandleLeg(c, store, endpoint, e, now, answer, budget, route.value, s);
  }

  /** A leg: coalesced with its stored counterpart, or stored itself. */
  method HandleLeg(c: Config, store: PendingStore, endpoint: Endpoint, e: Email, now: int, answer: Answer, budget: nat,
                   m: RuleMatch, ghost s: Sys)
    returns (result: Outcome, ghost t: Sys, ghost at: Option<nat>)
    requires s.phase == Flushing([]) && now >= s.clock && Mirrors(s, store, endpoint) && store.window == c.window
    requires budget > 0 && Route(c, e) == Some(m)
    modifies store, endpoint
    ensures Mirrors(t, store, endpoint) && LeadsTo(c, s, t) && Enabled(c, s, Handle(e, now, at, answer))
    ensures !result.CutOff? ==> t.phase.Idle? && TableAfter(result, s.table, t.table, at, Some(m), e, now)
    ensures result.CutOff? ==> budget < 2 && t.table == s.table
    ensures !result.TransactionPosted? && (result.TransferCoalesced? ==> Known(endpoint.ledger, Some(e.externalId)))
    ensures result.LegStored? || result.LegAlreadyStored? ==> Stores(store.Contents(), e.externalId)
    ensures result.PostFailed? ==> !answer.Accepts?
    ensures budget >= 2 && at.Some? ==> (result.TransferCoalesced? <==> answer.Accepts?)
    ensures at.None? ==> result == if Stores(s.table, e.externalId) then LegAlreadyStored else LegStored
    ensures !result.CutOff? && Inv(c, s) && Conserves(s) && Fresh(s, e) && Fits(c, s, e, at) ==>
              (Conserves(t) <==> !LosesTransfer(e, at, answer))
  {
    at := None;
    var found, position :=
        store.FindMatch(m.ruleId, if e.leg == Withdrawal then Deposit else Withdrawal, e.amount, now);
    if found.Some? {
      at := Some(position);
      result, t := Coalesce(c, store, endpoint, e, now, answer, budget, m, found.value, position, s);
      return;
    }
    result, t := StoreLeg(c, store, endpoint, e, now, answer, m, s);
  }

  /** What the machine does with an email that stands alone. */
  ghost predicate HandledAlone(c: Config, s: Sys, t: Sys, e: Email, now: int, answer: Answer) {
    && Enabled(c, s, Handle(e, now, None, answer)) && t == Apply(c, s, Handle(e, now, None, answer)) && t.phase.Idle?
    && (Inv(c, s) && Conserves(s) && Fresh(s, e) && Fits(c, s, e, None) ==>
          (Conserves(t) <==> !LosesTransfer(e, None, answer)))
  }

  /** No rule applies: the email's own transaction is posted. */
  method PostOwn(c: Config, store: PendingStore, endpoint: Endpoint, e: Email, now: int, answer: Answer, ghost s: Sys)
    returns (result: Outcome, ghost t: Sys)
    requires s.phase == Flushing([]) && now >= s.clock && Mirrors(s, store, endpoint) && Route(c, e).None?
    modifies endpoint
    ensures Mirrors(t, store, endpoint) && LeadsTo(c, s, t) && HandledAlone(c, s, t, e, now, answer)
    ensures t.table == s.table && result == if answer.Accepts? then TransactionPosted else PostFailed
    ensures result.TransactionPosted? ==> Known(endpoint.ledger, Some(e.externalId))
  {
    Stay(c, s);
    Go(c, s, s, Handle(e, now, None, answer));
    Conserved(c, s, e, now, None, answer);
    t := Apply(c, s, Handle(e, now, None, answer));
    PostedIsKnown(endpoint.ledger, EmailTx(e), answer);
    var accepted := endpoint.PostTransaction(
      Tx(if e.leg == Withdrawal then WithdrawalTx else DepositTx, e.fireflyId, None, e.amount, Some(e.externalId)),
      answer);
    result := if accepted then TransactionPosted else PostFailed;
  }

  /** The first of two legs waits in the table. */
  method StoreLeg(c: Config, store: PendingStore, endpoint: Endpoint, e: Email, now: int, answer: Answer, m: RuleMatch,
                  ghost s: Sys)
    returns (result: Outcome, ghost t: Sys)
    requires s.phase == Flushing([]) && now >= s.clock && Mirrors(s, store, endpoint) && store.window == c.window
    requires Route(c, e) == Some(m) && Enabled(c, s, Handle(e, now, None, answer))
    modifies store
    ensures Mirrors(t, store, endpoint) && LeadsTo(c, s, t) && HandledAlone(c, s, t, e, now, answer)
    ensures result == if Stores(s.table, e.externalId) then LegAlreadyStored else LegStored
    ensures TableAfter(result, s.table, t.table, None, Some(m), e, now) && Stores(store.Contents(), e.externalId)
  {
    Stay(c, s);
    Go(c, s, s, Handle(e, now, None, answer));
    Conserved(c, s, e, now, None, answer);
    t := Apply(c, s, Handle(e, now, None, answer));
    var inserted := store.InsertLeg(m.ruleId, e.leg, e.amount, m.source, m.destination, now, Some(e.externalId));
    result := if inserted then LegStored else LegAlreadyStored;
    if inserted { assert store.rows[|s.table.rows|].externalId == Some(e.externalId); }
  }

  lemma Conserved(c: Config, s: Sys, e: Email, now: int, at: Option<nat>, answer: Answer)
    requires Enabled(c, s, Handle(e, now, at, answer))
    ensures Inv(c, s) && Conserves(s) && Fresh(s, e) && Fits(c, s, e, at) ==>
              var t := Apply(c, s, Handle(e, now, at, answer));
              Inv(c, t) && (Conserves(t) <==> !LosesTransfer(e, at, answer))
  {
    if Inv(c, s) && Conserves(s) && Fresh(s, e) && Fits(c, s, e, at) {
      FittingEmailConservesIff(c, s, e, now, at, answer);
    }
  }

  /** Both legs are in: the transfer is posted, and the stored leg deleted. */
  method Coalesce(c: Config, store: PendingStore, endpoint: Endpoint, e: Email, now: int, answer: Answer,
                  budget: nat, m: RuleMatch, id: nat, ghost at: nat, ghost s: Sys)
    returns (result: Outcome, ghost t: Sys)
    requires s.phase == Flushing([]) && now >= s.clock && Mirrors(s, store, endpoint) && store.window == c.window
    requires budget > 0 && Route(c, e) == Some(m)
    requires OldestMatch(s.table, at, m.ruleId, Opposite(e.leg), e.amount, now - c.window) && s.table.rows[at].id == id
    modifies store, endpoint
    ensures Mirrors(t, store, endpoint) && LeadsTo(c, s, t)
    ensures result.TransferCoalesced? || result.PostFailed? || result.CutOff?
    ensures !result.CutOff? ==> t.phase.Idle? && TableAfter(result, s.table, t.table, Some(at), Some(m), e, now)
    ensures result.CutOff? ==> budget < 2 && t.table == s.table
    ensures result.TransferCoalesced? ==> Known(endpoint.ledger, Some(e.externalId))
    ensures !result.CutOff? ==> (result.TransferCoalesced? <==> answer.Accepts?)
    ensures !result.CutOff? && Inv(c, s) && Conserves(s) && Fresh(s, e) && Fits(c, s, e, Some(at)) ==>
              (Conserves(t) <==> !LosesTransfer(e, Some(at), answer))
  {
    Stay(c, s);
    Go(c, s, s, Handle(e, now, Some(at), answer));
    Conserved(c, s, e, now, Some(at), answer);
    t := Apply(c, s, Handle(e, now, Some(at), answer));
    PostedIsKnown(endpoint.ledger, TransferOf(m, e), answer);
    var accepted := endpoint.PostTransaction(
      Tx(TransferTx, m.source, Some(m.destination), e.amount, Some(e.externalId)), answer);
    if !accepted {
      return PostFailed, t;
    }
    if budget == 1 {
      return CutOff, t;
    }
    ghost var posted := t;
    if Keyed(s.table) { DeleteRemovesOne(s.table.rows, at); }
    DropConserves(c, s, posted);
    t := DropLeg(c, store, endpoint, id, posted);
    result := TransferCoalesced;
  }

  lemma DropConserves(c: Config, s: Sys, posted: Sys)
    requires LeadsTo(c, s, posted) && posted.phase.CoalescePosted?
    ensures var t := Apply(c, posted, DropCoalesced);
            LeadsTo(c, s, t) && (Inv(c, posted) ==> (Conserves(t) <==> Conserves(posted)))
  {
    Go(c, s, posted, DropCoalesced);
    if Inv(c, posted) {
      DropKeepsInv(c, posted, DropCoalesced);
      var t := Apply(c, posted, DropCoalesced);
      forall acct
        ensures Total(t, acct) == Owed(t.handled, acct) <==> Total(posted, acct) == Owed(posted.handled, acct)
      {
      }
    }
  }

  method DropLeg(c: Config, store: PendingStore, endpoint: Endpoint, id: nat, ghost s: Sys) returns (ghost t: Sys)
    requires Mirrors(s, store, endpoint) && s.phase.CoalescePosted? && s.phase.row.id == id
    modifies store
    ensures Mirrors(t, store, endpoint) && t == Apply(c, s, DropCoalesced)
    ensures t.phase.Idle? && t.table.rows == WithoutId(s.table.rows, id) && t.ledger == s.ledger
  {
    store.DeleteRow(id);
    t := Apply(c, s, DropCoalesced);
  }

  lemma PostedIsKnown(ledger: seq<Posted>, tx: Tx, answer: Answer)
    requires tx.externalId.Some?
    ensures var (ledger', ok) := Post(ledger, tx, answer); ok ==> Known(ledger', tx.externalId)
  {
    var (ledger', ok) := Post(ledger, tx, answer);
    if ledger' != ledger { LedgerIdsGrow(ledger, Payload(tx).value); }
  }

  // ---------- the whole invocation ----------

  /**
   Flush before everything else, then the email, if it holds a transaction. From a
   safe state with nobody else at work, the invocation is a run of the ledger, so
   everything proved of runs holds of it, cut off or not. An invocation that is not cut
   off conserves the ledger, unless the answer to a transfer is lost.
   */
  method Run(c: Config, store: PendingStore, endpoint: Endpoint, flushedAt: int, answers: nat -> Answer,
             email: Option<Email>, handledAt: int, answer: Answer, budget: nat, ghost s: Sys)
    returns (result: Option<Outcome>, ghost t: Sys, ghost at: Option<nat>)
    requires Safe(s) && s.phase.Idle? && s.clock <= flushedAt <= handledAt
    requires Mirrors(s, store, endpoint) && store.window == c.window
    modifies store, endpoint
    ensures Mirrors(t, store, endpoint) && LeadsTo(c, s, t) && t.phase.Idle? && Safe(t)
    ensures result.Some? && (result.value.TransactionPosted? || result.value.TransferCoalesced?) ==>
              email.Some? && Known(endpoint.ledger, Some(email.value.externalId))
    ensures budget >= 2 * |old(store.rows)| + 2 ==> result != Some(CutOff) && (result.None? <==> email.None?)
    ensures ColonFree(c) && Good(c, s) && AnswersFit(old(store.rows), answers) && result != Some(CutOff)
            && (email.Some? ==> Fresh(s, email.value) && Resolved(c, email.value))
            ==> (Conserves(t) <==> email.None? || !LosesTransfer(email.value, at, answer))
  {
    var left, cutOff;
    ghost var expired;
    result, at := None, None;
    left, cutOff, t, expired := FlushExpired(c, store, endpoint, flushedAt, answers, budget, s);
    ghost var middle := t;
    if cutOff || email.None? {
      t := StopHere(c, s, middle);
      return (if cutOff then Some(CutOff) else None), t, at;
    }
    var outcome;
    outcome, t, at := HandleEmail(c, store, endpoint, email.value, handledAt, answer, left, middle);
    ghost var handled := t;
    Chain(c, s, middle, handled);
    if ColonFree(c) && Good(c, middle) && Resolved(c, email.value) && left > 0 {
      ConfiguredAccountsFit(c, middle, email.value, handledAt, at, answer);
    }
    t := StopHere(c, s, handled);
    result := Some(outcome);
  }

  /** The process ends. */
  ghost method StopHere(c: Config, s: Sys, t: Sys) returns (u: Sys)
    requires Safe(s) && LeadsTo(c, s, t)
    ensures LeadsTo(c, s, u) && Safe(u) && u == t.(phase := Idle)
    ensures t.phase.Idle? || t.phase == Flushing([]) ==> (Conserves(u) <==> Conserves(t))
  {
    Go(c, s, t, Stop);
    u := Apply(c, t, Stop);
    LeadsToSafe(c, s, u);
    if t.phase.Idle? || t.phase == Flushing([]) {
      forall acct ensures Total(u, acct) == Total(t, acct) {}
    }
  }

  lemma Chain(c: Config, s: Sys, t: Sys, u: Sys)
    requires LeadsTo(c, s, t) && LeadsTo(c, t, u)
    ensures LeadsTo(c, s, u)
  {
    var first :| ValidRun(c, s, first) && Exec(c, s, first) == t;
    var second :| ValidRun(c, t, second) && Exec(c, t, second) == u;
    Concat(c, s, first, second);
  }

  lemma {:induction false} Concat(c: Config, s: Sys, first: seq<Step>, second: seq<Step>)
    requires ValidRun(c, s, first) && ValidRun(c, Exec(c, s, first), second)
    ensures ValidRun(c, s, first + second) && Exec(c, s, first + second) == Exec(c, Exec(c, s, first), second)
    decreases |first|
  {
    var all := first + second;
    if |first| == 0 {
      assert all == second;
    } else {
      assert all[1..] == first[1..] + second;
      Concat(c, Apply(c, s, first[0]), first[1..], second);
    }
  }
}
