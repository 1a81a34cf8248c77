/**
 Handling an email again after its effect has been taken over: exactly when that
 leaves the ledger conserved, and the stored leg that comes back.
 */
module LedgerRepeats {
  import opened Wrappers
  import opened TransferStore
  import opened TransferLedger
  import opened LedgerConservation

  /** The row that is stored under an external id. */
  predicate IsOwnRow(t: Table, i: int, externalId: string) {
    0 <= i < |t.rows| && t.rows[i].externalId == Some(externalId)
  }

  /** A stored leg has the effect of the email. */
  predicate SameEffect(row: Row, e: Email) {
    (row.amount == 0 && e.amount == 0) || (RowAccount(row) == e.fireflyId && row.leg == e.leg && row.amount == e.amount)
  }

  /** A transfer stands for two stored legs. */
  predicate JoinsRows(m: RuleMatch, e: Email, row: Row, own: Row) {
    (e.amount == 0 && own.amount == 0)
    || (own.leg == e.leg && own.amount == e.amount && TransferFits(m, e.(fireflyId := RowAccount(own)), row))
  }

  /**
   What a repetition needs. Without a rule: the post is known, or it replaces the
   stored leg of the email. With a rule: the leg is still stored or its id is known,
   or the transfer replaces the matched leg and the email's own.
   */
  ghost predicate RepeatFits(c: Config, s: Sys, e: Email, at: Option<nat>) {
    var known := Known(s.ledger, Some(e.externalId));
    match Route(c, e)
    case None =>
      known || ((forall i :: IsOwnRow(s.table, i, e.externalId) ==> SameEffect(s.table.rows[i], e))
                && (Stores(s.table, e.externalId) || e.amount == 0))
    case Some(m) =>
      if at.None? then known || Stores(s.table, e.externalId) || e.amount == 0
      else
        at.value < |s.table.rows| &&
        if known || !HasOther(s.table, at.value, e.externalId) then e.amount == 0
        else forall i :: IsOwnRow(s.table, i, e.externalId) ==> JoinsRows(m, e, s.table.rows[at.value], s.table.rows[i])
  }

  /** Another row than `k` is stored under the id. */
  ghost predicate HasOther(t: Table, k: nat, externalId: string) {
    exists i :: i != k && IsOwnRow(t, i, externalId)
  }

  lemma OwnRowIsUnique(t: Table, i: int, j: int, externalId: string)
    requires Keyed(t) && IsOwnRow(t, i, externalId) && IsOwnRow(t, j, externalId)
    ensures i == j
  {
    assert SameExternalId(t.rows[i], t.rows[j]) && SameExternalId(t.rows[j], t.rows[i]);
  }

  /** What pending rows lose when an id enters the ledger. */
  lemma PendingWithoutOwn(s: Sys, e: Email, posted: Option<nat>, i: int, acct: string)
    requires Safe(s) && IsOwnRow(s.table, i, e.externalId) && !Known(s.ledger, Some(e.externalId))
             && posted != Some(s.table.rows[i].id)
    ensures Pending(s.table.rows, LedgerIds(s.ledger) + {e.externalId}, posted, acct) ==
            Pending(s.table.rows, LedgerIds(s.ledger), posted, acct) - RowEffect(s.table.rows[i], acct)
  {
    var rows, ids := s.table.rows, LedgerIds(s.ledger);
    forall j | 0 <= j < |rows| && j != i
      ensures Counted(rows[j], ids, posted) == Counted(rows[j], ids + {e.externalId}, posted)
    {
      if IsOwnRow(s.table, j, e.externalId) { OwnRowIsUnique(s.table, i, j, e.externalId); }
    }
    PendingLoses(rows, i, ids, posted, ids + {e.externalId}, posted, acct);
  }

  lemma PendingWithoutAny(s: Sys, e: Email, posted: Option<nat>, acct: string)
    requires forall i :: IsOwnRow(s.table, i, e.externalId) ==> posted == Some(s.table.rows[i].id)
    ensures Pending(s.table.rows, LedgerIds(s.ledger) + {e.externalId}, posted, acct) ==
            Pending(s.table.rows, LedgerIds(s.ledger), posted, acct)
  {
    forall i | 0 <= i < |s.table.rows| && s.table.rows[i].externalId == Some(e.externalId)
      ensures posted == Some(s.table.rows[i].id)
    {
      assert IsOwnRow(s.table, i, e.externalId);
    }
    PendingSame(s.table.rows, LedgerIds(s.ledger), posted, LedgerIds(s.ledger) + {e.externalId}, posted, acct);
  }

  // ---------- a repeated post ----------

  lemma SameEffectIff(row: Row, e: Email)
    ensures (forall acct :: RowEffect(row, acct) == EmailEffect(e, acct)) <==> SameEffect(row, e)
  {
    if !SameEffect(row, e) {
      assert RowEffect(row, e.fireflyId) != EmailEffect(e, e.fireflyId)
             || RowEffect(row, RowAccount(row)) != EmailEffect(e, RowAccount(row));
    }
  }

  lemma RepeatedPost(c: Config, s: Sys, e: Email, now: int)
    requires Inv(c, s) && Conserves(s) && s.phase.Flushing? && !Fresh(s, e) && !Known(s.ledger, Some(e.externalId))
    ensures Conserves(DoPost(s, e, now, Accepts)) <==>
            (forall i :: IsOwnRow(s.table, i, e.externalId) ==> SameEffect(s.table.rows[i], e))
            && (Stores(s.table, e.externalId) || e.amount == 0)
  {
    var s' := DoPost(s, e, now, Accepts);
    if Stores(s.table, e.externalId) {
      var i: nat :| i < |s.table.rows| && s.table.rows[i].externalId == Some(e.externalId);
      assert IsOwnRow(s.table, i, e.externalId);
      forall acct
        ensures Total(s', acct) == Owed(s'.handled, acct) <==> RowEffect(s.table.rows[i], acct) == EmailEffect(e, acct)
      {
        PostGrows(s.ledger, EmailTx(e), Accepts, acct);
        PendingWithoutOwn(s, e, None, i, acct);
        assert Total(s, acct) == Owed(s.handled, acct);
      }
      SameEffectIff(s.table.rows[i], e);
      forall j | IsOwnRow(s.table, j, e.externalId) ensures j == i { OwnRowIsUnique(s.table, i, j, e.externalId); }
    } else {
      forall acct ensures Total(s', acct) == Owed(s'.handled, acct) <==> EmailEffect(e, acct) == 0 {
        PostGrows(s.ledger, EmailTx(e), Accepts, acct);
        PendingWithoutAny(s, e, None, acct);
        assert Total(s, acct) == Owed(s.handled, acct);
      }
      assert EmailEffect(e, e.fireflyId) == Signed(e.leg, e.amount);
    }
  }

  // ---------- a repeated store ----------

  lemma RepeatedStore(c: Config, s: Sys, m: RuleMatch, e: Email, now: int)
    requires Inv(c, s) && Conserves(s) && s.phase.Flushing? && !Fresh(s, e)
    ensures Conserves(DoStore(s, m, e, now))
            <==> Known(s.ledger, Some(e.externalId)) || Stores(s.table, e.externalId) || e.amount == 0
  {
    var s', row := DoStore(s, m, e, now), NewRow(s.table, m, e, now);
    if Stores(s.table, e.externalId) {
      forall acct ensures Total(s', acct) == Owed(s'.handled, acct) { assert Total(s, acct) == Owed(s.handled, acct); }
    } else {
      forall acct
        ensures Total(s', acct) == Owed(s'.handled, acct)
                <==> Known(s.ledger, Some(e.externalId)) || RowEffect(row, acct) == 0
      {
        PendingGrows(s.table.rows, row, LedgerIds(s.ledger), None, acct);
        assert Total(s, acct) == Owed(s.handled, acct);
      }
      assert RowEffect(row, RowAccount(row)) == Signed(e.leg, e.amount);
    }
  }

  // ---------- a repeated transfer ----------

  lemma JoinedIff(m: RuleMatch, e: Email, row: Row, own: Row)
    requires row.leg == Opposite(e.leg) && row.amount == e.amount
    ensures (forall acct ::
               Effect(Payload(TransferOf(m, e)).value, acct) == RowEffect(row, acct) + RowEffect(own, acct))
            <==> JoinsRows(m, e, row, own)
  {
    var p := Payload(TransferOf(m, e)).value;
    if own.leg == e.leg && own.amount == e.amount {
      var twin := e.(fireflyId := RowAccount(own));
      assert forall acct :: RowEffect(own, acct) == EmailEffect(twin, acct);
      TransferEffects(m, twin, row);
      assert TransferOf(m, twin) == TransferOf(m, e);
    } else if !(e.amount == 0 && own.amount == 0) {
      assert Effect(p, m.source) != RowEffect(row, m.source) + RowEffect(own, m.source)
             || Effect(p, m.destination) != RowEffect(row, m.destination) + RowEffect(own, m.destination)
             || Effect(p, RowAccount(row)) != RowEffect(row, RowAccount(row)) + RowEffect(own, RowAccount(row))
             || Effect(p, RowAccount(own)) != RowEffect(row, RowAccount(own)) + RowEffect(own, RowAccount(own));
    }
  }

  /** The matched row stops counting when the transfer is accepted. */
  lemma MatchedRowUncounted(c: Config, s: Sys, k: nat, now: int, acct: string)
    requires Inv(c, s) && s.phase.Flushing? && k < |s.table.rows| && now >= s.clock
             && s.table.rows[k].insertedAt >= now - c.window
    ensures !Known(s.ledger, s.table.rows[k].externalId)
    ensures Pending(s.table.rows, LedgerIds(s.ledger), Some(s.table.rows[k].id), acct) ==
            Pending(s.table.rows, LedgerIds(s.ledger), None, acct) - RowEffect(s.table.rows[k], acct)
  {
    assert !Known(s.ledger, s.table.rows[k].externalId);
    PendingLoses(s.table.rows, k, LedgerIds(s.ledger), None, LedgerIds(s.ledger), Some(s.table.rows[k].id), acct);
  }

  lemma RepeatedKnownTransfer(c: Config, s: Sys, m: RuleMatch, e: Email, now: int, k: nat)
    requires Inv(c, s) && Conserves(s) && s.phase.Flushing? && Known(s.ledger, Some(e.externalId))
    requires k < |s.table.rows| && now >= s.clock && s.table.rows[k].insertedAt >= now - c.window
             && s.table.rows[k].amount == e.amount
    ensures Conserves(DoCoalesce(s, m, e, now, s.table.rows[k], Accepts)) <==> e.amount == 0
  {
    var row := s.table.rows[k];
    var s' := DoCoalesce(s, m, e, now, row, Accepts);
    forall acct ensures Total(s', acct) == Owed(s'.handled, acct) <==> RowEffect(row, acct) == 0 {
      MatchedRowUncounted(c, s, k, now, acct);
      assert Total(s, acct) == Owed(s.handled, acct);
    }
    assert RowEffect(row, RowAccount(row)) == Signed(row.leg, row.amount);
  }

  lemma RepeatedTransfer(c: Config, s: Sys, m: RuleMatch, e: Email, now: int, k: nat)
    requires Inv(c, s) && Conserves(s) && s.phase.Flushing? && !Fresh(s, e) && !Known(s.ledger, Some(e.externalId))
    requires k < |s.table.rows| && now >= s.clock && s.table.rows[k].insertedAt >= now - c.window
    requires s.table.rows[k].amount == e.amount && s.table.rows[k].leg == Opposite(e.leg)
    ensures Conserves(DoCoalesce(s, m, e, now, s.table.rows[k], Accepts)) <==>
            if !HasOther(s.table, k, e.externalId) then e.amount == 0
            else forall i :: IsOwnRow(s.table, i, e.externalId) ==> JoinsRows(m, e, s.table.rows[k], s.table.rows[i])
  {
    var row := s.table.rows[k];
    if HasOther(s.table, k, e.externalId) {
      var i :| i != k && IsOwnRow(s.table, i, e.externalId);
      forall acct { JoinedTotals(c, s, m, e, now, k, i, acct); }
      JoinedIff(m, e, row, s.table.rows[i]);
      forall j | IsOwnRow(s.table, j, e.externalId) ensures j == i { OwnRowIsUnique(s.table, i, j, e.externalId); }
    } else {
      forall acct { LoneTotals(c, s, m, e, now, k, acct); }
      TransferIsNoLeg(m, e, row);
    }
  }

  lemma JoinedTotals(c: Config, s: Sys, m: RuleMatch, e: Email, now: int, k: nat, i: int, acct: string)
    requires Inv(c, s) && Conserves(s) && s.phase.Flushing? && !Fresh(s, e) && !Known(s.ledger, Some(e.externalId))
    requires k < |s.table.rows| && now >= s.clock && s.table.rows[k].insertedAt >= now - c.window
    requires i != k && IsOwnRow(s.table, i, e.externalId)
    ensures var s' := DoCoalesce(s, m, e, now, s.table.rows[k], Accepts);
            Total(s', acct) == Owed(s'.handled, acct) <==>
            Effect(Payload(TransferOf(m, e)).value, acct) == RowEffect(s.table.rows[k], acct)
                + RowEffect(s.table.rows[i], acct)
  {
    PostGrows(s.ledger, TransferOf(m, e), Accepts, acct);
    MatchedRowUncounted(c, s, k, now, acct);
    PendingWithoutOwn(s, e, Some(s.table.rows[k].id), i, acct);
    assert Total(s, acct) == Owed(s.handled, acct);
  }

  lemma LoneTotals(c: Config, s: Sys, m: RuleMatch, e: Email, now: int, k: nat, acct: string)
    requires Inv(c, s) && Conserves(s) && s.phase.Flushing? && !Fresh(s, e) && !Known(s.ledger, Some(e.externalId))
    requires k < |s.table.rows| && now >= s.clock && s.table.rows[k].insertedAt >= now - c.window
    requires !HasOther(s.table, k, e.externalId)
    ensures var s' := DoCoalesce(s, m, e, now, s.table.rows[k], Accepts);
            Total(s', acct) == Owed(s'.handled, acct) <==>
            Effect(Payload(TransferOf(m, e)).value, acct) == RowEffect(s.table.rows[k], acct)
  {
    PostGrows(s.ledger, TransferOf(m, e), Accepts, acct);
    MatchedRowUncounted(c, s, k, now, acct);
    PendingWithoutAny(s, e, Some(s.table.rows[k].id), acct);
    assert Total(s, acct) == Owed(s.handled, acct);
  }

  // ---------- exactly when a repetition conserves ----------

  /** Handling an email again, with its post accepted, keeps the ledger conserved exactly when the repetition fits. */
  lemma RepeatConservesIff(c: Config, s: Sys, e: Email, now: int, at: Option<nat>)
    requires Inv(c, s) && Conserves(s) && Enabled(c, s, Handle(e, now, at, Accepts)) && !Fresh(s, e)
    ensures Conserves(Apply(c, s, Handle(e, now, at, Accepts))) <==> RepeatFits(c, s, e, at)
  {
    match Route(c, e)
    case None =>
      if Known(s.ledger, Some(e.externalId)) {
        forall acct ensures Total(DoPost(s, e, now, Accepts), acct) == Owed(s.handled, acct) {
          PostConserves(c, s, e, now, Accepts, acct);
        }
      } else {
        RepeatedPost(c, s, e, now);
      }
    case Some(m) =>
      if at.None? {
        RepeatedStore(c, s, m, e, now);
      } else if Known(s.ledger, Some(e.externalId)) {
        RepeatedKnownTransfer(c, s, m, e, now, at.value);
      } else {
        RepeatedTransfer(c, s, m, e, now, at.value);
      }
  }

  /** The email of a leg that was coalesced under its partner's id: neither stored nor in the ledger. */
  ghost predicate WasCoalesced(s: Sys, e: Email) {
    !Fresh(s, e) && !Stores(s.table, e.externalId) && !Known(s.ledger, Some(e.externalId))
  }

  /** Every coalesced leg ends like that: its row is deleted, and the transfer carries its partner's id. */
  lemma CoalescedIsForgotten(c: Config, s: Sys, e: Email)
    requires Inv(c, s) && s.phase.CoalescePosted? && s.phase.row.externalId == Some(e.externalId)
    ensures WasCoalesced(Apply(c, s, DropCoalesced), e)
  {
    var t, row := Apply(c, s, DropCoalesced), s.phase.row;
    DeleteMeans(s.table.rows, row.id);
    var k := IndexOf(s.table, row);
  }

  /** Handled again without a counterpart, such a leg is stored a second time and counts twice. */
  lemma CoalescedLegComesBack(c: Config, s: Sys, e: Email, now: int, answer: Answer)
    requires Inv(c, s) && Conserves(s) && WasCoalesced(s, e) && Route(c, e).Some? && e.amount > 0
    requires Enabled(c, s, Handle(e, now, None, answer))
    ensures var t := Apply(c, s, Handle(e, now, None, answer)); Stores(t.table, e.externalId) && !Conserves(t)
  {
    var m := Route(c, e).value;
    var t := Apply(c, s, Handle(e, now, None, answer));
    assert t.table.rows[|s.table.rows|] == NewRow(s.table, m, e, now);
    RepeatedStore(c, s, m, e, now);
  }
}
