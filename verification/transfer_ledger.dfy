/**
 Runs of mailtx over the pending legs and the remote ledger: flush expired legs,
 then post, store or coalesce the transaction of one email. Every post and every
 delete is a step of its own, and a run may stop between any two.
 */
module TransferLedger {
  import opened Wrappers
  import opened TransferStore

  // ---------- the endpoint ----------

  datatype Kind = WithdrawalTx | DepositTx | TransferTx

  datatype Tx = Tx(kind: Kind, asset: string, destination: Option<string>, amount: nat, externalId: Option<string>)

  /** A transaction of the ledger; accounts that are not ours are left out. */
  datatype Posted = Posted(externalId: Option<string>, source: Option<string>, destination: Option<string>, amount: nat)

  function Payload(tx: Tx): Option<Posted> {
    match tx.kind
    case WithdrawalTx => Some(Posted(tx.externalId, Some(tx.asset), None, tx.amount))
    case DepositTx => Some(Posted(tx.externalId, None, Some(tx.asset), tx.amount))
    case TransferTx =>
      if tx.destination.None? then None
      else Some(Posted(tx.externalId, Some(tx.asset), tx.destination, tx.amount))
  }

  function LedgerIds(ledger: seq<Posted>): set<string> {
    set i | 0 <= i < |ledger| && ledger[i].externalId.Some? :: ledger[i].externalId.value
  }

  predicate Known(ledger: seq<Posted>, externalId: Option<string>) {
    externalId.Some? && externalId.value in LedgerIds(ledger)
  }

  /** How the endpoint answers: a post may also be accepted while its answer gets lost. */
  datatype Answer = Accepts | Rejects | AcceptsButFails

  /** Check, then post. A transaction that exists counts as posted. */
  function Post(ledger: seq<Posted>, tx: Tx, answer: Answer): (seq<Posted>, bool) {
    if answer.Rejects? then (ledger, false)
    else if Known(ledger, tx.externalId) then (ledger, answer.Accepts?)
    else
      match Payload(tx)
      case None => (ledger, false)
      case Some(posted) => (ledger + [posted], answer.Accepts?)
  }

  class Endpoint {
    var ledger: seq<Posted>

    constructor (start: seq<Posted>)
      ensures ledger == start
    {
      ledger := start;
    }

    method PostTransaction(tx: Tx, answer: Answer) returns (ok: bool)
      modifies this
      ensures (ledger, ok) == Post(old(ledger), tx, answer)
    {
      if answer == Rejects {
        return false;
      }
      if tx.externalId.Some? && tx.externalId.value in LedgerIds(ledger) {
        return answer == Accepts;
      }
      var payload := Payload(tx);
      if payload.None? {
        return false;
      }
      ledger := ledger + [payload.value];
      ok := answer == Accepts;
    }
  }

  // ---------- runs as steps ----------

  /** The transaction found in an email; `accountId` and `fireflyId` are what the account matcher resolved. */
  datatype Email = Email(externalId: string, accountId: string, fireflyId: string, leg: Leg, amount: nat,
                         narration: string)

  datatype Phase =
    | Idle
    | Flushing(todo: seq<Row>)
    | FlushPosted(row: Row, rest: seq<Row>)         // accepted, row still to be deleted
    | CoalescePosted(row: Row, partner: string)     // accepted under the partner's id, row still to be deleted

  /** `handled` are the emails whose effect has been taken over, into the ledger or into the table. */
  datatype Sys = Sys(table: Table, ledger: seq<Posted>, handled: seq<Email>, clock: int, phase: Phase)

  datatype Step =
    | Begin(now: int, todo: seq<Row>)
    | Flush(answer: Answer)
    | DropFlushed
    | Handle(email: Email, now: int, at: Option<nat>, answer: Answer)
    | DropCoalesced
    | Stop

  function KindOf(leg: Leg): Kind {
    if leg.Withdrawal? then WithdrawalTx else DepositTx
  }

  function RowAccount(row: Row): string {
    if row.leg.Withdrawal? then row.source else row.destination
  }

  function RowTx(row: Row): Tx {
    Tx(KindOf(row.leg), RowAccount(row), None, row.amount, row.externalId)
  }

  function EmailTx(e: Email): Tx {
    Tx(KindOf(e.leg), e.fireflyId, None, e.amount, Some(e.externalId))
  }

  function TransferOf(m: RuleMatch, e: Email): Tx {
    Tx(TransferTx, m.source, Some(m.destination), e.amount, Some(e.externalId))
  }

  function Route(c: Config, e: Email): Option<RuleMatch> {
    DetectTransferRule(c, e.accountId, e.leg, e.narration)
  }

  function NewRow(t: Table, m: RuleMatch, e: Email, now: int): Row {
    Row(t.nextId, m.ruleId, e.leg, e.amount, m.source, m.destination, now, Some(e.externalId))
  }

  ghost predicate Enabled(c: Config, s: Sys, step: Step) {
    match step
    case Begin(now, todo) => s.phase.Idle? && now >= s.clock && ExpiredList(s.table, now - c.window, todo)
    case Flush(_) => s.phase.Flushing? && |s.phase.todo| > 0
    case DropFlushed => s.phase.FlushPosted?
    case Handle(e, now, at, _) =>
      s.phase.Flushing? && |s.phase.todo| == 0 && now >= s.clock &&
      (match Route(c, e)
       case None => at.None?
       case Some(m) =>
         if at.Some? then OldestMatch(s.table, at.value, m.ruleId, Opposite(e.leg), e.amount, now - c.window)
         else NoMatch(s.table, m.ruleId, Opposite(e.leg), e.amount, now - c.window))
    case DropCoalesced => s.phase.CoalescePosted?
    case Stop => true
  }

  function HandledIds(handled: seq<Email>): set<string> {
    set i | 0 <= i < |handled| :: handled[i].externalId
  }

  function WithHandled(handled: seq<Email>, e: Email): seq<Email> {
    if e.externalId in HandledIds(handled) then handled else handled + [e]
  }

  function DoFlush(s: Sys, answer: Answer): Sys
    requires s.phase.Flushing? && |s.phase.todo| > 0
  {
    var row, rest := s.phase.todo[0], s.phase.todo[1..];
    var (ledger, ok) := Post(s.ledger, RowTx(row), answer);
    s.(ledger := ledger, phase := if ok then FlushPosted(row, rest) else Flushing(rest))
  }

  function DoPost(s: Sys, e: Email, now: int, answer: Answer): Sys {
    var (ledger, _) := Post(s.ledger, EmailTx(e), answer);
    var handled := if ledger != s.ledger then WithHandled(s.handled, e) else s.handled;
    s.(ledger := ledger, handled := handled, clock := now, phase := Idle)
  }

  function DoStore(s: Sys, m: RuleMatch, e: Email, now: int): Sys {
    var table := Insert(s.table, NewRow(s.table, m, e, now));
    var handled := if table != s.table then WithHandled(s.handled, e) else s.handled;
    s.(table := table, handled := handled, clock := now, phase := Idle)
  }

  function DoCoalesce(s: Sys, m: RuleMatch, e: Email, now: int, row: Row, answer: Answer): Sys {
    var (ledger, ok) := Post(s.ledger, TransferOf(m, e), answer);
    s.(ledger := ledger, handled := if ledger != s.ledger then WithHandled(s.handled, e) else s.handled, clock := now,
    phase := if ok then CoalescePosted(row, e.externalId) else Idle)
  }

  ghost function Apply(c: Config, s: Sys, step: Step): Sys
    requires Enabled(c, s, step)
  {
    match step
    case Begin(now, todo) => s.(clock := now, phase := Flushing(todo))
    case Flush(answer) => DoFlush(s, answer)
    case DropFlushed => s.(table := Delete(s.table, s.phase.row.id), phase := Flushing(s.phase.rest))
    case Handle(e, now, at, answer) =>
      (match Route(c, e)
       case None => DoPost(s, e, now, answer)
       case Some(m) => if at.Some? then DoCoalesce(s, m, e, now, s.table.rows[at.value], answer)
           else DoStore(s, m, e, now))
    case DropCoalesced => s.(table := Delete(s.table, s.phase.row.id), phase := Idle)
    case Stop => s.(phase := Idle)
  }

  // ---------- crash safety: every run ----------

  ghost predicate OnePerId(ledger: seq<Posted>) {
    forall i, j :: 0 <= i < j < |ledger| && ledger[i].externalId.Some? ==> ledger[i].externalId != ledger[j].externalId
  }

  /** A post was accepted for the leg on its own: under its id, or, for a leg without one, as it stands. */
  ghost predicate PostedAlone(ledger: seq<Posted>, row: Row) {
    if row.externalId.Some? then Known(ledger, row.externalId) else Payload(RowTx(row)).value in ledger
  }

  /** Rows of the table, each at most once. */
  ghost predicate Todo(t: Table, todo: seq<Row>) {
    (forall i :: 0 <= i < |todo| ==> todo[i] in t.rows) &&
    (forall i, j :: 0 <= i < j < |todo| ==> todo[i].id != todo[j].id)
  }

  ghost predicate Safe(s: Sys) {
    && Keyed(s.table) && OnePerId(s.ledger)
    && match s.phase
       case Idle => true
       case Flushing(todo) => Todo(s.table, todo)
       case FlushPosted(row, rest) => Todo(s.table, [row] + rest) && PostedAlone(s.ledger, row)
       case CoalescePosted(row, partner) => row in s.table.rows && partner in LedgerIds(s.ledger)
  }

  lemma ExpiredIsTodo(t: Table, cutoff: int, todo: seq<Row>)
    requires Keyed(t) && ExpiredList(t, cutoff, todo)
    ensures Todo(t, todo) && forall i :: 0 <= i < |todo| ==> todo[i].insertedAt < cutoff
  {
    assert forall i :: 0 <= i < |todo| ==> todo[i] in todo;
    forall i, j | 0 <= i < j < |todo| ensures todo[i].id != todo[j].id {
      assert InOrder(todo[i], todo[j]);
      SameIdSameRow(t, todo[i], todo[j]);
    }
  }

  lemma SameIdSameRow(t: Table, a: Row, b: Row)
    requires Keyed(t) && a in t.rows && b in t.rows
    ensures a.id == b.id ==> a == b
  {
    var i :| 0 <= i < |t.rows| && t.rows[i] == a;
    var j :| 0 <= j < |t.rows| && t.rows[j] == b;
  }

  lemma DropKeepsTodo(t: Table, row: Row, rest: seq<Row>)
    requires Todo(t, [row] + rest)
    ensures Todo(Delete(t, row.id), rest)
  {
    DeleteMeans(t.rows, row.id);
    var all := [row] + rest;
    forall i | 0 <= i < |rest| ensures rest[i] in t.rows && rest[i].id != row.id {
      assert rest[i] == all[i + 1] && all[0] == row;
    }
    forall i, j | 0 <= i < j < |rest| ensures rest[i].id != rest[j].id {
      assert all[i + 1].id != all[j + 1].id;
    }
  }

  lemma LedgerIdsGrow(ledger: seq<Posted>, posted: Posted)
    ensures LedgerIds(ledger + [posted]) ==
            LedgerIds(ledger) + if posted.externalId.Some? then {posted.externalId.value} else {}
  {
    var after := ledger + [posted];
    forall x ensures x in LedgerIds(after) <==> x in LedgerIds(ledger) || posted.externalId == Some(x) {
      if x in LedgerIds(ledger) {
        var i :| 0 <= i < |ledger| && ledger[i].externalId == Some(x);
        assert after[i] == ledger[i];
      }
      assert after[|ledger|] == posted;
    }
  }

  lemma PostIsSafe(ledger: seq<Posted>, tx: Tx, answer: Answer)
    requires OnePerId(ledger)
    ensures var (ledger', ok) := Post(ledger, tx, answer);
            && OnePerId(ledger') && ledger <= ledger' && LedgerIds(ledger) <= LedgerIds(ledger')
            && (ok ==> if tx.externalId.Some? then Known(ledger', tx.externalId)
                else Payload(tx).Some? && Payload(tx).value in ledger')
  {
    var (ledger', ok) := Post(ledger, tx, answer);
    if ledger' != ledger {
      var posted := Payload(tx).value;
      LedgerIdsGrow(ledger, posted);
      forall i | 0 <= i < |ledger| && ledger[i].externalId.Some? ensures ledger[i].externalId != posted.externalId {
        assert ledger[i].externalId.value in LedgerIds(ledger);
      }
      assert ledger'[|ledger|] == posted;
    }
  }

  lemma StepIsSafe(c: Config, s: Sys, step: Step)
    requires Safe(s) && Enabled(c, s, step)
    ensures Safe(Apply(c, s, step))
  {
    match step
    case Begin(now, todo) => ExpiredIsTodo(s.table, now - c.window, todo);
    case Flush(answer) =>
      PostIsSafe(s.ledger, RowTx(s.phase.todo[0]), answer);
      assert s.phase.todo == [s.phase.todo[0]] + s.phase.todo[1..];
    case DropFlushed =>
      DeleteKeepsKeys(s.table.rows, s.phase.row.id, s.table.nextId);
      DropKeepsTodo(s.table, s.phase.row, s.phase.rest);
    case DropCoalesced => DeleteKeepsKeys(s.table.rows, s.phase.row.id, s.table.nextId);
    case Handle(e, now, at, answer) =>
      match Route(c, e) {
        case None => PostIsSafe(s.ledger, EmailTx(e), answer);
        case Some(m) =>
          PostIsSafe(s.ledger, TransferOf(m, e), answer);
          InsertKeepsKeys(s.table, NewRow(s.table, m, e, now));
      }
    case Stop =>
  }

  /** A pending leg only leaves the table after a post was accepted under its own or its partner's id. */
  lemma RowsLeaveOnlyPosted(c: Config, s: Sys, step: Step, row: Row)
    requires Safe(s) && Enabled(c, s, step) && row in s.table.rows && row !in Apply(c, s, step).table.rows
    ensures (s.phase.FlushPosted? && row == s.phase.row && PostedAlone(s.ledger, row)) ||
            (s.phase.CoalescePosted? && row == s.phase.row && s.phase.partner in LedgerIds(s.ledger))
  {
    match step
    case DropFlushed =>
      DeleteMeans(s.table.rows, s.phase.row.id);
      assert ([s.phase.row] + s.phase.rest)[0] in s.table.rows;
      SameIdSameRow(s.table, row, s.phase.row);
    case DropCoalesced =>
      DeleteMeans(s.table.rows, s.phase.row.id);
      SameIdSameRow(s.table, row, s.phase.row);
    case Handle(e, now, at, _) =>
    case _ =>
  }

  ghost predicate ValidRun(c: Config, s: Sys, steps: seq<Step>)
    decreases |steps|
  {
    |steps| > 0 ==> Enabled(c, s, steps[0]) && ValidRun(c, Apply(c, s, steps[0]), steps[1..])
  }

  ghost function Exec(c: Config, s: Sys, steps: seq<Step>): Sys
    requires ValidRun(c, s, steps)
    decreases |steps|
  {
    if |steps| == 0 then s else Exec(c, Apply(c, s, steps[0]), steps[1..])
  }

  const NEW: Sys := Sys(Table([], 0), [], [], 0, Idle)

  /** Over any runs, stopped anywhere: one transaction per external id, distinct pending external ids. */
  lemma {:induction false} RunIsSafe(c: Config, s: Sys, steps: seq<Step>)
    requires Safe(s) && ValidRun(c, s, steps)
    ensures Safe(Exec(c, s, steps))
    decreases |steps|
  {
    if |steps| > 0 {
      StepIsSafe(c, s, steps[0]);
      RunIsSafe(c, Apply(c, s, steps[0]), steps[1..]);
    }
  }
}
