/**
 What a step of mailtx does to the money: the effects posted to the ledger and
 those that pending legs still owe, against the effects of the handled emails.
 */
module LedgerConservation {
  import opened Wrappers
  import opened TransferStore
  import opened TransferLedger

  // ---------- effects ----------

  function Side(account: Option<string>, acct: string, amount: int): int {
    if account == Some(acct) then amount else 0
  }

  function Effect(p: Posted, acct: string): int {
    Side(p.destination, acct, p.amount) - Side(p.source, acct, p.amount)
  }

  function Signed(leg: Leg, amount: int): int {
    if leg.Deposit? then amount else -amount
  }

  function EmailEffect(e: Email, acct: string): int {
    Side(Some(e.fireflyId), acct, Signed(e.leg, e.amount))
  }

  function RowEffect(row: Row, acct: string): int {
    Side(Some(RowAccount(row)), acct, Signed(row.leg, row.amount))
  }

  function Balance(ledger: seq<Posted>, acct: string): int {
    if |ledger| == 0 then 0 else Balance(ledger[..|ledger| - 1], acct) + Effect(ledger[|ledger| - 1], acct)
  }

  function Owed(handled: seq<Email>, acct: string): int {
    if |handled| == 0 then 0 else Owed(handled[..|handled| - 1], acct) + EmailEffect(handled[|handled| - 1], acct)
  }

  /** A pending row counts unless the ledger holds its id, or it has just been posted and waits for its delete. */
  predicate Counted(row: Row, ids: set<string>, posted: Option<nat>) {
    posted != Some(row.id) && !(row.externalId.Some? && row.externalId.value in ids)
  }

  function Pending(rows: seq<Row>, ids: set<string>, posted: Option<nat>, acct: string): int {
    if |rows| == 0 then 0
    else
      var last := rows[|rows| - 1];
      Pending(rows[..|rows| - 1], ids, posted, acct) + if Counted(last, ids, posted) then RowEffect(last, acct) else 0
  }

  function AwaitsDelete(phase: Phase): Option<nat> {
    match phase
    case FlushPosted(row, _) => Some(row.id)
    case CoalescePosted(row, _) => Some(row.id)
    case _ => None
  }

  function Total(s: Sys, acct: string): int {
    Balance(s.ledger, acct) + Pending(s.table.rows, LedgerIds(s.ledger), AwaitsDelete(s.phase), acct)
  }

  /** For every asset account, posted effects plus pending effects equal the sum of all handled emails' effects. */
  ghost predicate Conserves(s: Sys) {
    forall acct :: Total(s, acct) == Owed(s.handled, acct)
  }

  lemma {:induction false} PendingSame(rows: seq<Row>, ids: set<string>, posted: Option<nat>, ids': set<string>,
                                       posted': Option<nat>, acct: string)
    requires forall i :: 0 <= i < |rows| ==> Counted(rows[i], ids, posted) == Counted(rows[i], ids', posted')
    ensures Pending(rows, ids, posted, acct) == Pending(rows, ids', posted', acct)
  {
    if |rows| > 0 {
      PendingSame(rows[..|rows| - 1], ids, posted, ids', posted', acct);
    }
  }

  /** One row stops counting, all others stay. */
  lemma {:induction false} PendingLoses(rows: seq<Row>, k: nat, ids: set<string>, posted: Option<nat>,
                                        ids': set<string>, posted': Option<nat>, acct: string)
    requires k < |rows| && Counted(rows[k], ids, posted) && !Counted(rows[k], ids', posted')
    requires forall i :: 0 <= i < |rows| && i != k ==> Counted(rows[i], ids, posted) == Counted(rows[i], ids', posted')
    ensures Pending(rows, ids', posted', acct) == Pending(rows, ids, posted, acct) - RowEffect(rows[k], acct)
  {
    var front := rows[..|rows| - 1];
    if k < |front| {
      assert front[k] == rows[k];
      PendingLoses(front, k, ids, posted, ids', posted', acct);
      assert Counted(rows[|rows| - 1], ids, posted) == Counted(rows[|rows| - 1], ids', posted');
    } else {
      PendingSame(front, ids, posted, ids', posted', acct);
    }
  }

  /** Deleting the row that waited for it changes nothing. */
  lemma {:induction false} PendingDrops(rows: seq<Row>, ids: set<string>, id: nat, acct: string)
    ensures Pending(WithoutId(rows, id), ids, None, acct) == Pending(rows, ids, Some(id), acct)
  {
    if |rows| > 0 {
      var front, last := rows[..|rows| - 1], rows[|rows| - 1];
      PendingDrops(front, ids, id, acct);
      if last.id != id {
        assert (WithoutId(front, id) + [last])[..|WithoutId(front, id)|] == WithoutId(front, id);
      } else {
        assert WithoutId(front, id) + [] == WithoutId(front, id);
      }
    }
  }

  lemma BalanceGrows(ledger: seq<Posted>, p: Posted, acct: string)
    ensures Balance(ledger + [p], acct) == Balance(ledger, acct) + Effect(p, acct)
  {
    assert (ledger + [p])[..|ledger|] == ledger;
  }

  lemma OwedGrows(handled: seq<Email>, e: Email, acct: string)
    ensures Owed(handled + [e], acct) == Owed(handled, acct) + EmailEffect(e, acct)
  {
    assert (handled + [e])[..|handled|] == handled;
  }

  lemma PendingGrows(rows: seq<Row>, row: Row, ids: set<string>, posted: Option<nat>, acct: string)
    ensures Pending(rows + [row], ids, posted, acct) ==
            Pending(rows, ids, posted, acct) + if Counted(row, ids, posted) then RowEffect(row, acct) else 0
  {
    assert (rows + [row])[..|rows|] == rows;
  }

  // ---------- the invariant behind conservation ----------

  ghost predicate Expired(c: Config, s: Sys, row: Row) {
    row.insertedAt < s.clock - c.window
  }

  /** Ids are taken over with their emails, and a row whose own id was posted is past the window. */
  ghost predicate Inv(c: Config, s: Sys) {
    && Safe(s)
    && LedgerIds(s.ledger) <= HandledIds(s.handled)
    && (forall i :: 0 <= i < |s.table.rows| && s.table.rows[i].externalId.Some? ==>
          s.table.rows[i].externalId.value in HandledIds(s.handled))
    && (forall i :: 0 <= i < |s.table.rows| && Known(s.ledger, s.table.rows[i].externalId) ==>
        Expired(c, s, s.table.rows[i]))
    && (match s.phase
        case Flushing(todo) => forall i :: 0 <= i < |todo| ==> Expired(c, s, todo[i])
        case FlushPosted(row, rest) => Expired(c, s, row) && forall i :: 0 <= i < |rest| ==> Expired(c, s, rest[i])
        case CoalescePosted(row, _) => !Known(s.ledger, row.externalId)
        case Idle => true)
  }

  ghost predicate Fresh(s: Sys, e: Email) {
    e.externalId !in HandledIds(s.handled)
  }

  function OnSide(m: RuleMatch, leg: Leg): string {
    if leg.Withdrawal? then m.source else m.destination
  }

  /** The leg is stored for the account that the email was resolved to. */
  predicate LegFits(m: RuleMatch, e: Email) {
    e.amount == 0 || OnSide(m, e.leg) == e.fireflyId
  }

  /** The transfer moves the money between the accounts of the stored leg and of the email. */
  predicate TransferFits(m: RuleMatch, e: Email, row: Row) {
    e.amount == 0
    || (OnSide(m, row.leg) == RowAccount(row) && OnSide(m, e.leg) == e.fireflyId)
    || (m.source == m.destination && RowAccount(row) == e.fireflyId)
  }

  /** What a handled email asks of the configuration. */
  ghost predicate Fits(c: Config, s: Sys, e: Email, at: Option<nat>) {
    var m := Route(c, e);
    m.Some? ==>
      if at.Some? then at.value < |s.table.rows| && TransferFits(m.value, e, s.table.rows[at.value])
      else LegFits(m.value, e)
  }

  /** Stopping here loses no delete of a posted leg that would count twice. */
  predicate StopsCleanly(phase: Phase) {
    match phase
    case CoalescePosted(row, _) => row.amount == 0
    case FlushPosted(row, _) => row.externalId.Some? || row.amount == 0
    case _ => true
  }

  lemma PostGrows(ledger: seq<Posted>, tx: Tx, answer: Answer, acct: string)
    requires Payload(tx).Some?
    ensures var (ledger', ok) := Post(ledger, tx, answer);
            ledger' != ledger ==>
              && !Known(ledger, tx.externalId) && ok == answer.Accepts?
              && LedgerIds(ledger') == LedgerIds(ledger) + (if tx.externalId.Some? then {tx.externalId.value} else {})
              && Balance(ledger', acct) == Balance(ledger, acct) + Effect(Payload(tx).value, acct)
  {
    LedgerIdsGrow(ledger, Payload(tx).value);
    BalanceGrows(ledger, Payload(tx).value, acct);
  }

  lemma IndexOf(t: Table, row: Row) returns (k: nat)
    requires row in t.rows && Keyed(t)
    ensures k < |t.rows| && t.rows[k] == row
    ensures forall i :: 0 <= i < |t.rows| && i != k ==> t.rows[i].id != row.id && !SameExternalId(t.rows[i], row)
  {
    k :| k < |t.rows| && t.rows[k] == row;
    forall i | 0 <= i < |t.rows| && i != k ensures t.rows[i].id != row.id && !SameExternalId(t.rows[i], row) {
      if i < k { assert !SameExternalId(t.rows[i], t.rows[k]); } else { assert !SameExternalId(t.rows[k], t.rows[i]); }
    }
  }

  lemma FlushConserves(c: Config, s: Sys, answer: Answer, acct: string)
    requires Inv(c, s) && Enabled(c, s, Flush(answer))
    requires answer.AcceptsButFails? ==> s.phase.todo[0].externalId.Some?
    ensures Total(DoFlush(s, answer), acct) == Total(s, acct)
  {
    var row, rows := s.phase.todo[0], s.table.rows;
    var s' := DoFlush(s, answer);
    var k := IndexOf(s.table, row);
    PostGrows(s.ledger, RowTx(row), answer, acct);
    if s'.ledger != s.ledger {
      PendingLoses(rows, k, LedgerIds(s.ledger), None, LedgerIds(s'.ledger), AwaitsDelete(s'.phase), acct);
    } else if s'.phase.FlushPosted? {
      PendingSame(rows, LedgerIds(s.ledger), None, LedgerIds(s'.ledger), AwaitsDelete(s'.phase), acct);
    }
  }

  lemma FlushKeepsInv(c: Config, s: Sys, answer: Answer)
    requires Inv(c, s) && Enabled(c, s, Flush(answer))
    ensures Inv(c, DoFlush(s, answer))
  {
    var row := s.phase.todo[0];
    StepIsSafe(c, s, Flush(answer));
    var k := IndexOf(s.table, row);
    PostGrows(s.ledger, RowTx(row), answer, "");
  }

  lemma DropKeepsInv(c: Config, s: Sys, step: Step)
    requires Inv(c, s) && Enabled(c, s, step) && (step.DropFlushed? || step.DropCoalesced?)
    ensures Inv(c, Apply(c, s, step))
    ensures forall acct :: Total(Apply(c, s, step), acct) == Total(s, acct)
  {
    StepIsSafe(c, s, step);
    var after := Apply(c, s, step);
    DeleteMeans(s.table.rows, s.phase.row.id);
    forall acct ensures Total(after, acct) == Total(s, acct) {
      PendingDrops(s.table.rows, LedgerIds(s.ledger), s.phase.row.id, acct);
    }
    forall i | 0 <= i < |after.table.rows| ensures after.table.rows[i] in s.table.rows {
      assert after.table.rows[i] in after.table.rows;
    }
  }

  lemma HandledGrow(handled: seq<Email>, e: Email)
    requires e.externalId !in HandledIds(handled)
    ensures WithHandled(handled, e) == handled + [e]
    ensures HandledIds(handled + [e]) == HandledIds(handled) + {e.externalId}
  {
    var after := handled + [e];
    forall x ensures x in HandledIds(after) <==> x in HandledIds(handled) || x == e.externalId {
      if x in HandledIds(handled) {
        var i :| 0 <= i < |handled| && handled[i].externalId == x;
        assert after[i] == handled[i];
      }
      assert after[|handled|] == e;
    }
  }

  /** No row counts differently when the id of a fresh email enters the ledger. */
  lemma FreshIdSparesRows(c: Config, s: Sys, e: Email, posted: Option<nat>, acct: string)
    requires Inv(c, s) && Fresh(s, e)
    ensures Pending(s.table.rows, LedgerIds(s.ledger) + {e.externalId}, posted, acct) ==
            Pending(s.table.rows, LedgerIds(s.ledger), posted, acct)
  {
    PendingSame(s.table.rows, LedgerIds(s.ledger), posted, LedgerIds(s.ledger) + {e.externalId}, posted, acct);
  }

  /** A regular post takes the email's effect over into the ledger. */
  lemma PostConserves(c: Config, s: Sys, e: Email, now: int, answer: Answer, acct: string)
    requires Inv(c, s) && s.phase.Flushing? && (Fresh(s, e) || answer.Rejects? || Known(s.ledger, Some(e.externalId)))
    ensures var s' := DoPost(s, e, now, answer);
            Total(s', acct) - Owed(s'.handled, acct) == Total(s, acct) - Owed(s.handled, acct)
  {
    PostGrows(s.ledger, EmailTx(e), answer, acct);
    if DoPost(s, e, now, answer).ledger != s.ledger {
      FreshIdSparesRows(c, s, e, None, acct);
      HandledGrow(s.handled, e);
      OwedGrows(s.handled, e, acct);
    }
  }

  lemma StoreGrows(c: Config, s: Sys, m: RuleMatch, e: Email, now: int, acct: string)
    requires Inv(c, s) && s.phase.Flushing? && Fresh(s, e)
    ensures var s' := DoStore(s, m, e, now);
            Total(s', acct) - Owed(s'.handled, acct) ==
            Total(s, acct) - Owed(s.handled, acct) + RowEffect(NewRow(s.table, m, e, now), acct) - EmailEffect(e, acct)
  {
    var row := NewRow(s.table, m, e, now);
    assert !Stores(s.table, e.externalId);
    assert Insert(s.table, row) != s.table;
    HandledGrow(s.handled, e);
    OwedGrows(s.handled, e, acct);
    PendingGrows(s.table.rows, row, LedgerIds(s.ledger), None, acct);
    assert e.externalId !in LedgerIds(s.ledger);
  }

  /** A transfer replaces the counted leg of its row. */
  lemma CoalesceGrows(c: Config, s: Sys, m: RuleMatch, e: Email, now: int, row: Row, acct: string)
    requires Inv(c, s) && s.phase.Flushing? && Fresh(s, e) && now >= s.clock
    requires row in s.table.rows && row.insertedAt >= now - c.window
    ensures var s' := DoCoalesce(s, m, e, now, row, Accepts);
            && s'.phase == CoalescePosted(row, e.externalId)
            && Total(s', acct) - Owed(s'.handled, acct) ==
               Total(s, acct) - Owed(s.handled, acct)
               + Effect(Payload(TransferOf(m, e)).value, acct) - RowEffect(row, acct) - EmailEffect(e, acct)
  {
    var s' := DoCoalesce(s, m, e, now, row, Accepts);
    var k := IndexOf(s.table, row);
    assert !Known(s.ledger, row.externalId);
    assert !Known(s.ledger, Some(e.externalId));
    PostGrows(s.ledger, TransferOf(m, e), Accepts, acct);
    HandledGrow(s.handled, e);
    OwedGrows(s.handled, e, acct);
    FreshIdSparesRows(c, s, e, None, acct);
    PendingLoses(s.table.rows, k, LedgerIds(s'.ledger), None, LedgerIds(s'.ledger), Some(row.id), acct);
  }

  /** The exact condition under which a stored leg stands for its email. */
  lemma LegEffects(t: Table, m: RuleMatch, e: Email, now: int)
    ensures (forall acct :: RowEffect(NewRow(t, m, e, now), acct) == EmailEffect(e, acct)) <==> LegFits(m, e)
  {
    var row := NewRow(t, m, e, now);
    assert RowAccount(row) == OnSide(m, e.leg);
    if !LegFits(m, e) {
      assert RowEffect(row, e.fireflyId) != EmailEffect(e, e.fireflyId);
    }
  }

  /** The exact condition under which a transfer stands for its two legs. */
  lemma TransferEffects(m: RuleMatch, e: Email, row: Row)
    requires row.leg == Opposite(e.leg) && row.amount == e.amount
    ensures (forall acct ::
               Effect(Payload(TransferOf(m, e)).value, acct) == RowEffect(row, acct) + EmailEffect(e, acct))
            <==> TransferFits(m, e, row)
  {
    var p := Payload(TransferOf(m, e)).value;
    if !TransferFits(m, e, row) {
      assert Effect(p, m.source) != RowEffect(row, m.source) + EmailEffect(e, m.source)
             || Effect(p, m.destination) != RowEffect(row, m.destination) + EmailEffect(e, m.destination)
             || Effect(p, e.fireflyId) != RowEffect(row, e.fireflyId) + EmailEffect(e, e.fireflyId)
             || Effect(p, RowAccount(row)) != RowEffect(row, RowAccount(row)) + EmailEffect(e, RowAccount(row));
    }
  }

  // ---------- exactly when a step conserves ----------

  lemma HandleKeepsInv(c: Config, s: Sys, e: Email, now: int, at: Option<nat>, answer: Answer)
    requires Inv(c, s) && Enabled(c, s, Handle(e, now, at, answer)) && (Fresh(s, e) || IsReplay(c, s, e, at, answer))
    ensures Inv(c, Apply(c, s, Handle(e, now, at, answer)))
  {
    StepIsSafe(c, s, Handle(e, now, at, answer));
    match Route(c, e)
    case None => PostKeepsInv(c, s, EmailTx(e), e, now, answer);
    case Some(m) =>
      if at.Some? {
        var row := s.table.rows[at.value];
        assert !Known(s.ledger, row.externalId);
        PostKeepsInv(c, s, TransferOf(m, e), e, now, answer);
      } else if Fresh(s, e) {
        HandledGrow(s.handled, e);
      }
  }

  /** A post under the id of a fresh or already posted email keeps the ids and the rows in order. */
  lemma PostKeepsInv(c: Config, s: Sys, tx: Tx, e: Email, now: int, answer: Answer)
    requires Inv(c, s) && now >= s.clock && Payload(tx).Some? && tx.externalId == Some(e.externalId)
    requires Fresh(s, e) || answer.Rejects? || Known(s.ledger, tx.externalId)
    ensures var (ledger, _) := Post(s.ledger, tx, answer);
            var handled := if ledger != s.ledger then WithHandled(s.handled, e) else s.handled;
            && LedgerIds(ledger) <= HandledIds(handled) && HandledIds(s.handled) <= HandledIds(handled)
            && forall i :: 0 <= i < |s.table.rows| && Known(ledger, s.table.rows[i].externalId) ==>
                Known(s.ledger, s.table.rows[i].externalId)
  {
    PostGrows(s.ledger, tx, answer, "");
    if Fresh(s, e) { HandledGrow(s.handled, e); }
  }

  /** A repetition that changes nothing: refused, already in the ledger, or still stored and waiting. */
  ghost predicate IsReplay(c: Config, s: Sys, e: Email, at: Option<nat>, answer: Answer) {
    match Route(c, e)
    case None => answer.Rejects? || Known(s.ledger, Some(e.externalId))
    case Some(m) => if at.Some? then answer.Rejects? else Stores(s.table, e.externalId)
  }

  /**
   Handling a fresh email whose post is accepted keeps the ledger conserved if and
   only if the rule's accounts fit the email and the stored leg.
   */
  lemma HandleConservesIff(c: Config, s: Sys, e: Email, now: int, at: Option<nat>)
    requires Inv(c, s) && Conserves(s) && Enabled(c, s, Handle(e, now, at, Accepts)) && Fresh(s, e)
    ensures Conserves(Apply(c, s, Handle(e, now, at, Accepts))) <==> Fits(c, s, e, at)
  {
    var s' := Apply(c, s, Handle(e, now, at, Accepts));
    match Route(c, e)
    case None =>
      forall acct ensures Total(s', acct) == Owed(s'.handled, acct) { PostConserves(c, s, e, now, Accepts, acct); }
    case Some(m) =>
      if at.Some? {
        var row := s.table.rows[at.value];
        forall acct ensures Total(s', acct) == Owed(s'.handled, acct) <==>
                            Effect(Payload(TransferOf(m, e)).value, acct) == RowEffect(row, acct)
                                + EmailEffect(e, acct) {
          CoalesceGrows(c, s, m, e, now, row, acct);
        }
        TransferEffects(m, e, row);
      } else {
        forall acct ensures Total(s', acct) == Owed(s'.handled, acct) <==>
                            RowEffect(NewRow(s.table, m, e, now), acct) == EmailEffect(e, acct) {
          StoreGrows(c, s, m, e, now, acct);
        }
        LegEffects(s.table, m, e, now);
      }
  }

  /** A transfer between any two accounts has the effect of a single leg only when it moves nothing. */
  lemma TransferIsNoLeg(m: RuleMatch, e: Email, row: Row)
    requires row.amount == e.amount
    ensures (forall acct :: Effect(Payload(TransferOf(m, e)).value, acct) == RowEffect(row, acct)) <==> e.amount == 0
  {
    var p := Payload(TransferOf(m, e)).value;
    if e.amount != 0 {
      assert Effect(p, m.source) != RowEffect(row, m.source)
          || Effect(p, m.destination) != RowEffect(row, m.destination)
             || Effect(p, RowAccount(row)) != RowEffect(row, RowAccount(row));
    }
  }

  /** The answer to an accepted transfer gets lost, so the stored leg is not deleted. */
  predicate LosesTransfer(e: Email, at: Option<nat>, answer: Answer) {
    answer.AcceptsButFails? && at.Some? && e.amount > 0
  }

  /** A leg of the email itself, whatever the rule says. */
  function OwnLeg(e: Email): Row {
    Row(0, "", e.leg, e.amount, e.fireflyId, e.fireflyId, 0, None)
  }

  /** A transfer whose answer is lost conserves exactly when it moves nothing. */
  lemma LostTransferConservesIff(c: Config, s: Sys, m: RuleMatch, e: Email, now: int, row: Row)
    requires Inv(c, s) && Conserves(s) && s.phase.Flushing? && Fresh(s, e)
    ensures Conserves(DoCoalesce(s, m, e, now, row, AcceptsButFails)) <==> e.amount == 0
  {
    var s' := DoCoalesce(s, m, e, now, row, AcceptsButFails);
    assert !Known(s.ledger, Some(e.externalId));
    forall acct ensures Total(s', acct) == Owed(s'.handled, acct) <==>
                        Effect(Payload(TransferOf(m, e)).value, acct) == RowEffect(OwnLeg(e), acct) {
      PostGrows(s.ledger, TransferOf(m, e), AcceptsButFails, acct);
      HandledGrow(s.handled, e);
      OwedGrows(s.handled, e, acct);
      FreshIdSparesRows(c, s, e, None, acct);
      assert Total(s, acct) == Owed(s.handled, acct);
    }
    TransferIsNoLeg(m, e, OwnLeg(e));
  }

  /**
   Handling a fresh, fitting email conserves the ledger for every answer of the
   endpoint, with one exception: the lost answer to a transfer that moves money.
   */
  lemma FittingEmailConservesIff(c: Config, s: Sys, e: Email, now: int, at: Option<nat>, answer: Answer)
    requires Inv(c, s) && Conserves(s) && Enabled(c, s, Handle(e, now, at, answer)) && Fresh(s, e) && Fits(c, s, e, at)
    ensures var t := Apply(c, s, Handle(e, now, at, answer));
            Inv(c, t) && (Conserves(t) <==> !LosesTransfer(e, at, answer))
  {
    var t := Apply(c, s, Handle(e, now, at, answer));
    HandleKeepsInv(c, s, e, now, at, answer);
    match Route(c, e)
    case None =>
      forall acct ensures Total(t, acct) == Owed(t.handled, acct) {
        PostConserves(c, s, e, now, answer, acct);
        assert Total(s, acct) == Owed(s.handled, acct);
      }
    case Some(m) =>
      if at.Some? && answer.AcceptsButFails? {
        LostTransferConservesIff(c, s, m, e, now, s.table.rows[at.value]);
      } else if at.Some? && answer.Rejects? {
        ReplayConserves(c, s, e, now, at, answer);
      } else {
        HandleConservesIff(c, s, e, now, at);
        assert t == Apply(c, s, Handle(e, now, at, Accepts));
      }
  }

  lemma ReplayConserves(c: Config, s: Sys, e: Email, now: int, at: Option<nat>, answer: Answer)
    requires Inv(c, s) && Conserves(s) && Enabled(c, s, Handle(e, now, at, answer)) && IsReplay(c, s, e, at, answer)
    ensures Conserves(Apply(c, s, Handle(e, now, at, answer)))
  {
    var s' := Apply(c, s, Handle(e, now, at, answer));
    assert s'.ledger == s.ledger && s'.table == s.table && s'.handled == s.handled;
    forall acct ensures Total(s', acct) == Owed(s'.handled, acct) { assert Total(s, acct) == Owed(s.handled, acct); }
  }

  /** A stop keeps the ledger conserved if and only if it does not fall between an accepted post and its delete. */
  lemma StopConservesIff(c: Config, s: Sys)
    requires Inv(c, s) && Conserves(s)
    ensures Conserves(Apply(c, s, Stop)) <==> StopsCleanly(s.phase)
    ensures Inv(c, Apply(c, s, Stop))
  {
    var s' := Apply(c, s, Stop);
    if s.phase.FlushPosted? || s.phase.CoalescePosted? {
      var row := s.phase.row;
      assert s.phase.FlushPosted? ==> ([row] + s.phase.rest)[0] in s.table.rows;
      var k := IndexOf(s.table, row);
      forall acct
        ensures Total(s', acct) == Total(s, acct) + if Known(s.ledger, row.externalId) then 0 else RowEffect(row, acct)
      {
        if Known(s.ledger, row.externalId) {
          PendingSame(s.table.rows, LedgerIds(s.ledger), None, LedgerIds(s.ledger), Some(row.id), acct);
        } else {
          PendingLoses(s.table.rows, k, LedgerIds(s.ledger), None, LedgerIds(s.ledger), Some(row.id), acct);
        }
      }
      var acct := RowAccount(row);
      assert Total(s, acct) == Owed(s.handled, acct);
    } else {
      forall acct ensures Total(s', acct) == Total(s, acct) {}
    }
  }

  /**
   A stop between an accepted transfer and its delete is repaired when the same
   email is handled again while the stored leg is still the one that is found.
   */
  lemma RetryRepairsCoalesce(c: Config, s: Sys, e: Email, now: int, at: nat)
    requires Inv(c, s) && Conserves(s) && s.phase.CoalescePosted? && s.phase.partner == e.externalId
    requires at < |s.table.rows| && s.table.rows[at] == s.phase.row
    requires Enabled(c, s.(phase := Flushing([])), Handle(e, now, Some(at), Accepts))
    ensures var t := Apply(c, s.(phase := Flushing([])), Handle(e, now, Some(at), Accepts));
            t.phase == s.phase && Conserves(t) && Conserves(Apply(c, t, DropCoalesced))
  {
    var t := Apply(c, s.(phase := Flushing([])), Handle(e, now, Some(at), Accepts));
    assert t == s.(clock := now);
    forall acct ensures Total(t, acct) == Owed(t.handled, acct) { assert Total(s, acct) == Owed(s.handled, acct); }
    forall acct ensures Total(Apply(c, t, DropCoalesced), acct) == Owed(t.handled, acct) {
      PendingDrops(t.table.rows, LedgerIds(t.ledger), t.phase.row.id, acct);
    }
  }
}
