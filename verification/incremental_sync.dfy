/**
 Incremental IMAP sync of one mailbox: scan the UIDs above the stored one, fetch
 in batches, insert each email together with its event, checkpoint after every
 batch. A run may stop at any effect.
 */
module IncrementalSync {
  import opened Wrappers
  import opened Ordered

  const FETCH_BATCH_SIZE: nat := 500

  /** What the server reports: the message UIDs and those found by the start-date search. */
  datatype Server = Server(validity: nat, uids: set<nat>, since: set<nat>)

  datatype Config = Config(startDate: bool, maxMessages: Option<nat>)

  datatype State = State(validity: nat, lastSeen: nat)

  /** The rows of one mailbox: stored UIDs, the UIDs of all events about them, the checkpoint. */
  datatype Db = Db(emails: set<nat>, events: multiset<nat>, state: Option<State>)

  // ---------- what a run sets out to do ----------

  /** The stored UID counts only within its UIDVALIDITY epoch. */
  function LastSeen(db: Db, validity: nat): nat {
    if db.state.Some? && db.state.value.validity == validity then db.state.value.lastSeen else 0
  }

  function Between(server: Server, low: nat, high: nat): set<nat> {
    set u | u in server.uids && low <= u <= high
  }

  function From(server: Server, low: nat): set<nat> {
    set u | u in server.uids && low <= u
  }

  function Retain(uids: seq<nat>, kept: set<nat>): seq<nat> {
    if |uids| == 0 then []
    else Retain(uids[..|uids| - 1], kept) + if uids[|uids| - 1] in kept then [uids[|uids| - 1]] else []
  }

  function Newest(uids: seq<nat>, max: Option<nat>): seq<nat> {
    if max.Some? && max.value < |uids| then uids[|uids| - max.value..] else uids
  }

  /** The UIDs to fetch: on a first sync the filtered, newest ones, otherwise all above the stored one. */
  function Plan(server: Server, config: Config, last: nat): seq<nat> {
    Narrowed(server, config, last, Sorted(From(server, last + 1)))
  }

  function Narrowed(server: Server, config: Config, last: nat, all: seq<nat>): seq<nat> {
    if last > 0 then all
    else Newest(if config.startDate then Retain(all, server.since) else all, config.maxMessages)
  }

  function BatchEnd(i: nat, n: nat): (j: nat)
    requires i < n
    ensures i < j <= n && j - i <= 500 && (j < n ==> j - i == 500)
  {
    if n - i <= FETCH_BATCH_SIZE then n else i + FETCH_BATCH_SIZE
  }

  /** All messages the batches from position `i` on ask for: whole ranges between the ends of a batch. */
  function Covered(server: Server, plan: seq<nat>, i: nat): set<nat>
    requires i <= |plan|
    decreases |plan| - i
  {
    if i == |plan| then {}
    else
      var j := BatchEnd(i, |plan|);
      Between(server, plan[i], plan[j - 1]) + Covered(server, plan, j)
  }

  /** The number of effects from batch position `i` on: a fetch, the messages, a checkpoint. */
  function Cost(server: Server, plan: seq<nat>, i: nat): nat
    requires i <= |plan|
    decreases |plan| - i
  {
    if i == |plan| then 0
    else
      var j := BatchEnd(i, |plan|);
      1 + |Between(server, plan[i], plan[j - 1])| + 1 + Cost(server, plan, j)
  }

  /** The effects of a whole run, from reading the checkpoint on. */
  function Needed(server: Server, config: Config, last: nat): nat {
    2 + if |From(server, last + 1)| == 0 then 1
        else (if last == 0 && config.startDate then 1 else 0) + Cost(server, Plan(server, config, last), 0)
  }

  // ---------- what a run does ----------

  /** Every email has exactly one event. */
  ghost predicate OneEventEach(db: Db) {
    db.events == multiset(db.emails)
  }

  /** A checkpoint passes no planned UID that is neither stored nor failed to insert. */
  ghost predicate CheckpointSound(plan: seq<nat>, emails: set<nat>, bad: set<nat>, lastSeen: nat) {
    forall k :: 0 <= k < |plan| && plan[k] <= lastSeen ==> plan[k] in emails || plan[k] in bad
  }

  /**
   One run from `before` to `after`. `bad` are the UIDs whose insert failed;
   `complete` says that nothing stopped the run.
   */
  ghost predicate Runs(server: Server, config: Config, bad: set<nat>, before: Db, after: Db, complete: bool) {
    var last := LastSeen(before, server.validity);
    var plan := Plan(server, config, last);
    var covered := Covered(server, plan, 0);
    && before.emails <= after.emails <= Stored(before.emails, covered, bad)
    && KeepsEvents(before, after)
    && (after.state == before.state ||
        (after.state.Some? && after.state.value.validity == server.validity
         && (after.state.value.lastSeen in plan || (plan == [] && after.state.value.lastSeen == last))
         && CheckpointSound(plan, after.emails, bad, after.state.value.lastSeen)))
    && (complete ==>
          && after.emails == Stored(before.emails, covered, bad)
          && after.state == if |From(server, last + 1)| == 0 then Some(State(server.validity, last))
                            else if plan == [] then before.state
                            else Some(State(server.validity, plan[|plan| - 1])))
  }

  // ---------- the mailbox in place ----------

  class Mailbox {
    var emails: set<nat>
    var events: multiset<nat>
    var state: Option<State>

    constructor (db: Db)
      ensures Contents() == db
    {
      emails, events, state := db.emails, db.events, db.state;
    }

    function Contents(): Db
      reads this
    {
      Db(emails, events, state)
    }

    /** Email and event in one transaction; an email that exists is left alone and gets no event. */
    method InsertEmailWithEvent(uid: nat) returns (inserted: bool)
      modifies `emails, `events
      ensures inserted <==> uid !in old(emails)
      ensures emails == old(emails) + {uid}
      ensures events == old(events) + if inserted then multiset{uid} else multiset{}
      ensures old(OneEventEach(Contents())) ==> OneEventEach(Contents())
    {
      inserted := uid !in emails;
      if inserted {
        emails := emails + {uid};
        events := events + multiset{uid};
      }
    }

    method UpsertState(validity: nat, lastSeen: nat)
      modifies `state
      ensures state == Some(State(validity, lastSeen))
    {
      state := Some(State(validity, lastSeen));
    }

    /** A failed insert is logged and swallowed: the message counts as not ingested. */
    method IngestMessage(uid: nat, bad: set<nat>) returns (n: nat)
      modifies `emails, `events
      ensures emails == Stored(old(emails), {uid}, bad)
      ensures |emails| == |old(emails)| + n
      ensures KeepsEvents(old(Contents()), Contents())
    {
      n := 0;
      if uid !in bad {
        var inserted := InsertEmailWithEvent(uid);
        assert {uid} - bad == {uid};
        if inserted {
          n := 1;
        }
      } else {
        assert {uid} - bad == {};
      }
    }

    /** The messages of one batch; stops when the budget of effects is used up. */
    method IngestBatch(messages: seq<nat>, bad: set<nat>, budget: nat, startMax: nat)
      returns (ingested: nat, left: nat, maxUid: nat, stopped: bool)
      requires Ascending(messages)
      modifies `emails, `events
      ensures stopped <==> budget < |messages|
      ensures !stopped ==> left == budget - |messages| && emails == Stored(old(emails), Members(messages), bad)
      ensures !stopped ==> |emails| == |old(emails)| + ingested
      ensures old(emails) <= emails <= Stored(old(emails), Members(messages), bad)
      ensures KeepsEvents(old(Contents()), Contents())
      ensures !stopped ==> maxUid == MaxOf(messages, startMax)
    {
      ingested, left, maxUid, stopped := 0, budget, startMax, false;
      var m := 0;
      while m < |messages|
        invariant 0 <= m <= |messages| && left == budget - m && !stopped
        invariant maxUid == MaxOf(messages[..m], startMax)
        invariant emails == Stored(old(emails), Members(messages[..m]), bad)
        invariant |emails| == |old(emails)| + ingested
        invariant KeepsEvents(old(Contents()), Contents())
      {
        if left == 0 {
          stopped := true;
          PrefixStored(messages, m, old(emails), bad);
          return;
        }
        var uid := messages[m];
        if uid > maxUid {
          maxUid := uid;
        }
        var n := IngestMessage(uid, bad);
        MoreMembers(messages, m, old(emails), bad);
        MaxGrows(messages, m, startMax);
        ingested, left, m := ingested + n, left - 1, m + 1;
      }
      assert messages[..m] == messages;
      PrefixStored(messages, m, old(emails), bad);
    }
  }

  function Stored(before: set<nat>, uids: set<nat>, bad: set<nat>): set<nat> {
    before + (uids - bad)
  }

  ghost predicate KeepsEvents(before: Db, after: Db) {
    before.events <= after.events && (OneEventEach(before) ==> OneEventEach(after))
  }

  /** The larger of the last of an ascending sequence and a start value. */
  function MaxOf(messages: seq<nat>, startMax: nat): nat {
    if |messages| > 0 && messages[|messages| - 1] > startMax then messages[|messages| - 1] else startMax
  }

  lemma MaxGrows(messages: seq<nat>, m: nat, startMax: nat)
    requires Ascending(messages) && m < |messages|
    ensures var max := MaxOf(messages[..m], startMax);
            MaxOf(messages[..m + 1], startMax) == if messages[m] > max then messages[m] else max
  {
  }

  lemma MoreMembers(s: seq<nat>, m: nat, before: set<nat>, bad: set<nat>)
    requires m < |s|
    ensures Stored(before, Members(s[..m + 1]), bad) == Stored(Stored(before, Members(s[..m]), bad), {s[m]}, bad)
  {
    assert s[..m + 1] == s[..m] + [s[m]];
  }

  lemma PrefixStored(s: seq<nat>, m: nat, before: set<nat>, bad: set<nat>)
    requires m <= |s|
    ensures before <= Stored(before, Members(s[..m]), bad) <= Stored(before, Members(s), bad)
  {
  }

  // ---------- the plan ----------

  ghost predicate IsPlan(server: Server, last: nat, plan: seq<nat>) {
    Ascending(plan) && forall k :: 0 <= k < |plan| ==> plan[k] in server.uids && plan[k] > last
  }

  lemma {:induction false} RetainKeepsOrder(uids: seq<nat>, kept: set<nat>)
    requires Ascending(uids)
    ensures Ascending(Retain(uids, kept)) && forall u :: u in Retain(uids, kept) <==> u in uids && u in kept
  {
    if |uids| > 0 {
      var front, last := uids[..|uids| - 1], uids[|uids| - 1];
      RetainKeepsOrder(front, kept);
      assert uids == front + [last];
      var r := Retain(front, kept);
      forall k | 0 <= k < |r| ensures r[k] < last {
        assert r[k] in front;
      }
    }
  }

  lemma FromIsPlan(server: Server, last: nat, uids: seq<nat>)
    requires Ascending(uids) && forall u :: u in uids ==> u in From(server, last + 1)
    ensures IsPlan(server, last, uids)
  {
    assert forall k :: 0 <= k < |uids| ==> uids[k] in uids;
  }

  lemma NewestIsPlan(server: Server, last: nat, uids: seq<nat>, max: Option<nat>)
    requires IsPlan(server, last, uids)
    ensures IsPlan(server, last, Newest(uids, max))
  {
    var skip := |uids| - |Newest(uids, max)|;
    assert forall k :: 0 <= k < |Newest(uids, max)| ==> Newest(uids, max)[k] == uids[skip + k];
  }

  lemma PlanIsAscending(server: Server, config: Config, last: nat)
    ensures IsPlan(server, last, Plan(server, config, last))
  {
    var all := Sorted(From(server, last + 1));
    RetainKeepsOrder(all, server.since);
    FromIsPlan(server, last, all);
    FromIsPlan(server, last, Retain(all, server.since));
    NewestIsPlan(server, last, all, config.maxMessages);
    NewestIsPlan(server, last, Retain(all, server.since), config.maxMessages);
  }

  // ---------- the batch loop ----------

  /** The state of a run before the batch at position `i`. */
  ghost predicate Loop(server: Server, plan: seq<nat>, bad: set<nat>, last: nat, before: Db, now: Db, i: nat,
                       maxUid: nat)
    requires i <= |plan|
  {
    && before.emails <= now.emails && KeepsEvents(before, now)
    && Stored(now.emails, Covered(server, plan, i), bad) == Stored(before.emails, Covered(server, plan, 0), bad)
    && (forall k :: 0 <= k < i ==> plan[k] in now.emails || plan[k] in bad)
    && maxUid == (if i == 0 then last else plan[i - 1])
    && now.state == (if i == 0 then before.state else Some(State(server.validity, maxUid)))
  }

  lemma StoredTwice(emails: set<nat>, a: set<nat>, b: set<nat>, bad: set<nat>)
    ensures Stored(Stored(emails, a, bad), b, bad) == Stored(emails, a + b, bad)
  {
  }

  /** A batch asks for every UID of its part of the plan. */
  lemma BatchAsks(server: Server, plan: seq<nat>, last: nat, i: nat)
    requires IsPlan(server, last, plan) && i < |plan|
    ensures var j := BatchEnd(i, |plan|);
            forall k :: i <= k < j ==> plan[k] in Between(server, plan[i], plan[j - 1])
  {
    var j := BatchEnd(i, |plan|);
    forall k | i <= k < j ensures plan[k] in Between(server, plan[i], plan[j - 1]) {
      assert i < k ==> plan[i] < plan[k];
      assert k < j - 1 ==> plan[k] < plan[j - 1];
    }
  }

  lemma SortedMembers(s: set<nat>)
    ensures Members(Sorted(s)) == s
  {
  }

  lemma LastOf(s: seq<nat>, x: nat)
    requires Ascending(s) && x in s && forall y :: y in s ==> y <= x
    ensures |s| > 0 && s[|s| - 1] == x
  {
    var k :| 0 <= k < |s| && s[k] == x;
    assert s[|s| - 1] in s;
  }

  lemma BatchKeepsLoop(server: Server, plan: seq<nat>, bad: set<nat>, last: nat, before: Db, now: Db, i: nat,
                       maxUid: nat, after: Db)
    requires IsPlan(server, last, plan) && i < |plan| && Loop(server, plan, bad, last, before, now, i, maxUid)
    requires KeepsEvents(now, after)
    requires after.emails == Stored(now.emails, Between(server, plan[i], plan[BatchEnd(i, |plan|) - 1]), bad)
    requires after.state == Some(State(server.validity, plan[BatchEnd(i, |plan|) - 1]))
    ensures var j := BatchEnd(i, |plan|); Loop(server, plan, bad, last, before, after, j, plan[j - 1])
  {
    var j := BatchEnd(i, |plan|);
    BatchAsks(server, plan, last, i);
    StoredTwice(now.emails, Between(server, plan[i], plan[j - 1]), Covered(server, plan, j), bad);
  }

  /** Stopping anywhere in or before the batch at `i` leaves a state that a run may leave. */
  lemma StoppedRuns(server: Server, config: Config, bad: set<nat>, before: Db, now: Db, after: Db, i: nat, maxUid: nat)
    requires var last := LastSeen(before, server.validity);
             var plan := Plan(server, config, last);
             i <= |plan| && IsPlan(server, last, plan) && Loop(server, plan, bad, last, before, now, i, maxUid)
    requires KeepsEvents(now, after) && after.state == now.state
    requires var plan := Plan(server, config, LastSeen(before, server.validity));
             now.emails <= after.emails <= Stored(now.emails, Covered(server, plan, i), bad)
    ensures Runs(server, config, bad, before, after, false)
  {
  }

  lemma FinishedRuns(server: Server, config: Config, bad: set<nat>, before: Db, now: Db, maxUid: nat)
    requires var last := LastSeen(before, server.validity);
             var plan := Plan(server, config, last);
             && |From(server, last + 1)| > 0 && IsPlan(server, last, plan)
             && Loop(server, plan, bad, last, before, now, |plan|, maxUid)
    ensures Runs(server, config, bad, before, now, true)
  {
    var plan := Plan(server, config, LastSeen(before, server.validity));
    assert Covered(server, plan, |plan|) == {};
    assert Stored(now.emails, {}, bad) == now.emails;
  }

  ghost predicate StoppedInBatch(server: Server, plan: seq<nat>, bad: set<nat>, now: Db, after: Db, i: nat)
    requires i <= |plan|
  {
    && KeepsEvents(now, after) && after.state == now.state
    && now.emails <= after.emails <= Stored(now.emails, Covered(server, plan, i), bad)
  }

  lemma BatchIsCovered(server: Server, plan: seq<nat>, bad: set<nat>, emails: set<nat>, i: nat)
    requires i < |plan|
    ensures emails <= Stored(emails, Between(server, plan[i], plan[BatchEnd(i, |plan|) - 1]), bad)
                   <= Stored(emails, Covered(server, plan, i), bad)
  {
  }

  /** The messages of a UID range, ascending. */
  method FetchRange(server: Server, low: nat, high: nat) returns (messages: seq<nat>)
    requires low <= high && high in server.uids
    ensures Ascending(messages) && Members(messages) == Between(server, low, high)
            && |messages| == |Between(server, low, high)|
    ensures forall startMax: nat :: startMax < high ==> MaxOf(messages, startMax) == high
  {
    messages := Sorted(Between(server, low, high));
    assert high in messages;
    LastOf(messages, high);
  }

  /** Fetch, ingest, checkpoint. */
  method SyncBatch(mailbox: Mailbox, server: Server, uids: seq<nat>, bad: set<nat>, i: nat, budget: nat, maxUid: nat,
                   ghost before: Db, ghost last: nat)
    returns (stopped: bool, left: nat, newMax: nat, ingested: nat)
    requires IsPlan(server, last, uids) && i < |uids|
             && Loop(server, uids, bad, last, before, mailbox.Contents(), i, maxUid)
    modifies mailbox
    ensures var j := BatchEnd(i, |uids|);
            var cost := 1 + |Between(server, uids[i], uids[j - 1])| + 1;
            && (stopped <==> budget < cost)
            && (!stopped ==> left == budget - cost && newMax == uids[j - 1]
                             && Loop(server, uids, bad, last, before, mailbox.Contents(), j, newMax))
    ensures stopped ==> StoppedInBatch(server, uids, bad, old(mailbox.Contents()), mailbox.Contents(), i)
    ensures !stopped ==> |mailbox.emails| == |old(mailbox.emails)| + ingested
  {
    var j := BatchEnd(i, |uids|);
    ghost var now := mailbox.Contents();
    BatchIsCovered(server, uids, bad, now.emails, i);
    stopped, left, newMax, ingested := true, 0, maxUid, 0;
    if budget == 0 {
      return;
    }
    var messages := FetchRange(server, uids[i], uids[j - 1]);
    ingested, left, newMax, stopped := mailbox.IngestBatch(messages, bad, budget - 1, maxUid);
    if stopped || left == 0 {
      stopped := true;
      return;
    }
    mailbox.UpsertState(server.validity, newMax);
    BatchKeepsLoop(server, uids, bad, last, before, now, i, maxUid, mailbox.Contents());
    left := left - 1;
  }

  /** All batches of a plan; `middle` is the state before the batch in which the run stopped, or the final one. */
  method SyncBatches(mailbox: Mailbox, server: Server, uids: seq<nat>, bad: set<nat>, last: nat, budget: nat)
    returns (complete: bool, ingested: nat, ghost i: nat, ghost maxUid: nat, ghost middle: Db)
    requires last == LastSeen(mailbox.Contents(), server.validity) && IsPlan(server, last, uids)
    modifies mailbox
    ensures i <= |uids| && Loop(server, uids, bad, last, old(mailbox.Contents()), middle, i, maxUid)
    ensures if complete then i == |uids| && middle == mailbox.Contents()
            else StoppedInBatch(server, uids, bad, middle, mailbox.Contents(), i)
    ensures complete <==> budget >= Cost(server, uids, 0)
    ensures complete ==> |mailbox.emails| == |old(mailbox.emails)| + ingested
  {
    ghost var before := mailbox.Contents();
    complete, ingested := false, 0;
    var newest, at, left := last, 0, budget;
    while at < |uids|
      invariant 0 <= at <= |uids|
      invariant Loop(server, uids, bad, last, before, mailbox.Contents(), at, newest)
      invariant budget - left == Cost(server, uids, 0) - Cost(server, uids, at)
      invariant |mailbox.emails| == |before.emails| + ingested
    {
      i, maxUid, middle := at, newest, mailbox.Contents();
      var stopped, rest, newMax, n := SyncBatch(mailbox, server, uids, bad, at, left, newest, before, last);
      if stopped {
        return;
      }
      left, newest, at, ingested := rest, newMax, BatchEnd(at, |uids|), ingested + n;
    }
    i, maxUid, middle := at, newest, mailbox.Contents();
    complete := true;
  }

  /** The UID scan and, on a first sync, the start-date search and the cap: None when there is nothing new. */
  method Discover(server: Server, config: Config, last: nat, budget: nat)
    returns (stopped: bool, left: nat, found: Option<seq<nat>>)
    ensures var search := if |From(server, last + 1)| > 0 && last == 0 && config.startDate then 1 else 0;
            && (stopped <==> budget < 1 + search)
            && (!stopped ==> left == budget - 1 - search)
    ensures !stopped ==> (found.None? <==> |From(server, last + 1)| == 0)
    ensures !stopped && found.Some? ==> found.value == Plan(server, config, last)
  {
    if budget == 0 {
      return true, 0, None;
    }
    var uids := Sorted(From(server, last + 1));
    if |uids| == 0 {
      return false, budget - 1, None;
    }
    var narrowed;
    stopped, left, narrowed := Narrow(server, config, last, uids, budget - 1);
    found := Some(narrowed);
  }

  /** What a first sync leaves of the scan. */
  method Narrow(server: Server, config: Config, last: nat, all: seq<nat>, budget: nat)
    returns (stopped: bool, left: nat, uids: seq<nat>)
    ensures var search := if last == 0 && config.startDate then 1 else 0;
            (stopped <==> budget < search) && (!stopped ==> left == budget - search)
    ensures !stopped ==> uids == Narrowed(server, config, last, all)
  {
    stopped, left, uids := false, budget, all;
    if last == 0 {
      if config.startDate {
        if left == 0 {
          return true, left, uids;
        }
        left := left - 1;
        uids := Retain(uids, server.since);
      }
      uids := Newest(uids, config.maxMessages);
    }
  }

  /**
   One run with a budget of effects: it does what `Runs` says, completes exactly
   when the budget suffices, and a complete run returns the number of new emails.
   */
  method DoIncrementalSync(mailbox: Mailbox, server: Server, config: Config, bad: set<nat>, budget: nat)
    returns (complete: bool, ingested: nat)
    modifies mailbox
    ensures Runs(server, config, bad, old(mailbox.Contents()), mailbox.Contents(), complete)
    ensures complete <==> budget >= Needed(server, config, LastSeen(old(mailbox.Contents()), server.validity))
    ensures budget >= 3 + 3 * |server.uids| ==> complete
    ensures complete ==> |mailbox.emails| == |old(mailbox.emails)| + ingested
  {
    ghost var before := mailbox.Contents();
    complete, ingested := false, 0;
    if budget == 0 {
      NothingDone(server, config, bad, before);
      return;
    }
    var last := if mailbox.state.Some? && mailbox.state.value.validity == server.validity
        then mailbox.state.value.lastSeen else 0;
    NeededIsBounded(server, config, last);
    complete, ingested := SyncFrom(mailbox, server, config, bad, last, budget - 1);
  }

  /** Nothing to fetch: the checkpoint is written as it was, if the run gets that far. */
  method FinishEmpty(mailbox: Mailbox, server: Server, config: Config, bad: set<nat>, last: nat, writes: bool)
    returns (complete: bool)
    requires last == LastSeen(mailbox.Contents(), server.validity)
    requires writes ==> |From(server, last + 1)| == 0
    modifies mailbox
    ensures Runs(server, config, bad, old(mailbox.Contents()), mailbox.Contents(), complete)
    ensures complete == writes && mailbox.emails == old(mailbox.emails)
  {
    ghost var before := mailbox.Contents();
    complete := writes;
    if writes {
      mailbox.UpsertState(server.validity, last);
      NothingNew(server, config, bad, before, mailbox.Contents());
    } else {
      NothingDone(server, config, bad, before);
    }
  }

  /** Everything after the stored state has been read. */
  method SyncFrom(mailbox: Mailbox, server: Server, config: Config, bad: set<nat>, last: nat, budget: nat)
    returns (complete: bool, ingested: nat)
    requires last == LastSeen(mailbox.Contents(), server.validity)
    modifies mailbox
    ensures Runs(server, config, bad, old(mailbox.Contents()), mailbox.Contents(), complete)
    ensures complete <==> budget + 1 >= Needed(server, config, last)
    ensures complete ==> |mailbox.emails| == |old(mailbox.emails)| + ingested
  {
    var stopped, left, found := Discover(server, config, last, budget);
    if stopped || found.None? {
      complete := FinishEmpty(mailbox, server, config, bad, last, !stopped && left > 0);
      return complete, 0;
    }
    complete, ingested := SyncPlan(mailbox, server, config, found.value, bad, last, left);
  }

  /** Everything after the scan. */
  method SyncPlan(mailbox: Mailbox, server: Server, config: Config, uids: seq<nat>, bad: set<nat>, last: nat,
                  budget: nat)
    returns (complete: bool, ingested: nat)
    requires last == LastSeen(mailbox.Contents(), server.validity) && |From(server, last + 1)| > 0
    requires uids == Plan(server, config, last)
    modifies mailbox
    ensures Runs(server, config, bad, old(mailbox.Contents()), mailbox.Contents(), complete)
    ensures complete <==> budget >= Cost(server, uids, 0)
    ensures complete ==> |mailbox.emails| == |old(mailbox.emails)| + ingested
  {
    ghost var before := mailbox.Contents();
    PlanIsAscending(server, config, last);
    ghost var i, maxUid, middle;
    complete, ingested, i, maxUid, middle := SyncBatches(mailbox, server, uids, bad, last, budget);
    if complete {
      FinishedRuns(server, config, bad, before, middle, maxUid);
    } else {
      StoppedRuns(server, config, bad, before, middle, mailbox.Contents(), i, maxUid);
    }
  }

  lemma NothingDone(server: Server, config: Config, bad: set<nat>, before: Db)
    ensures Runs(server, config, bad, before, before, false)
  {
  }

  lemma NothingNew(server: Server, config: Config, bad: set<nat>, before: Db, after: Db)
    requires |From(server, LastSeen(before, server.validity) + 1)| == 0
    requires after == before.(state := Some(State(server.validity, LastSeen(before, server.validity))))
    ensures Runs(server, config, bad, before, after, true)
  {
    EmptyPlan(server, config, LastSeen(before, server.validity));
  }

  lemma EmptyPlan(server: Server, config: Config, last: nat)
    requires |From(server, last + 1)| == 0
    ensures Plan(server, config, last) == []
  {
    assert Sorted(From(server, last + 1)) == [];
  }

  // ---------- convergence ----------

  /** What the first of a series of runs set out to store. */
  function Goal(server: Server, config: Config, base: nat): set<nat> {
    Members(Plan(server, config, base))
  }

  /** Everything a series of runs may store: ranges and resumed runs also fetch what a start date filtered out. */
  function Reach(server: Server, config: Config, base: nat): set<nat> {
    var plan := Plan(server, config, base);
    if |plan| == 0 then {} else From(server, plan[0])
  }

  lemma {:induction false} CoveredRange(server: Server, plan: seq<nat>, last: nat, i: nat)
    requires IsPlan(server, last, plan) && i <= |plan|
    ensures forall u :: u in Covered(server, plan, i) ==> i < |plan| && u in server.uids && u >= plan[i]
    ensures forall k :: i <= k < |plan| ==> plan[k] in Covered(server, plan, i)
    decreases |plan| - i
  {
    if i < |plan| {
      var j := BatchEnd(i, |plan|);
      BatchAsks(server, plan, last, i);
      CoveredRange(server, plan, last, j);
      assert j < |plan| ==> plan[i] < plan[j];
    }
  }

  /** After a first checkpoint a run plans everything above it. */
  lemma ResumedPlan(server: Server, config: Config, last: nat, u: nat)
    requires last > 0
    ensures u in Plan(server, config, last) <==> u in server.uids && u > last
  {
  }

  /** Without a start date nothing outside the goal is ever fetched. */
  lemma ReachIsGoal(server: Server, config: Config, base: nat)
    requires base > 0 || !config.startDate
    ensures Reach(server, config, base) == Goal(server, config, base)
  {
    var all, plan := Sorted(From(server, base + 1)), Plan(server, config, base);
    PlanIsAscending(server, config, base);
    if |plan| > 0 {
      SuffixIsFrom(server, base, all, |all| - |plan|);
    }
  }

  /** A suffix of the ascending scan holds everything from its first element on. */
  lemma SuffixIsFrom(server: Server, base: nat, all: seq<nat>, skip: nat)
    requires all == Sorted(From(server, base + 1)) && skip < |all|
    ensures From(server, all[skip]) == Members(all[skip..])
  {
    assert all[skip] in all;
    forall u ensures u in From(server, all[skip]) <==> u in Members(all[skip..]) {
      if u in From(server, all[skip]) || u in all[skip..] {
        assert u in all;
        InSuffix(all, skip, u);
      }
    }
  }

  lemma InSuffix(all: seq<nat>, skip: nat, u: nat)
    requires Ascending(all) && skip < |all| && u in all
    ensures u in all[skip..] <==> u >= all[skip]
  {
    var k :| 0 <= k < |all| && all[k] == u;
    if k >= skip { assert all[skip..][k - skip] == u; }
    if u in all[skip..] {
      var m :| 0 <= m < |all| - skip && all[skip..][m] == u;
      assert all[skip + m] == u;
    }
  }

  ghost predicate Converging(server: Server, config: Config, base: nat, initial: set<nat>, db: Db) {
    var last := LastSeen(db, server.validity);
    var plan := Plan(server, config, base);
    && initial <= db.emails <= initial + Reach(server, config, base)
    && (last == base || (|plan| > 0 && last >= plan[0] && last > base))
    && forall u :: u in plan && u <= last ==> u in db.emails
  }

  lemma CheckpointAdvances(server: Server, config: Config, bad: set<nat>, before: Db, after: Db, complete: bool)
    requires Runs(server, config, bad, before, after, complete)
    ensures LastSeen(after, server.validity) >= LastSeen(before, server.validity)
    ensures forall u :: u in after.emails && u !in before.emails ==> u > LastSeen(before, server.validity)
  {
    var last := LastSeen(before, server.validity);
    var plan := Plan(server, config, last);
    PlanIsAscending(server, config, last);
    CoveredRange(server, plan, last, 0);
  }

  /** Later runs of a series fetch nothing outside its reach. */
  lemma CoveredIsReached(server: Server, config: Config, base: nat, initial: set<nat>, db: Db)
    requires Converging(server, config, base, initial, db)
    ensures Covered(server, Plan(server, config, LastSeen(db, server.validity)), 0) <= Reach(server, config, base)
  {
    var last := LastSeen(db, server.validity);
    PlanIsAscending(server, config, last);
    CoveredRange(server, Plan(server, config, last), last, 0);
  }

  /** What is left of the goal is planned again. */
  lemma RestIsPlanned(server: Server, config: Config, base: nat, initial: set<nat>, db: Db, u: nat)
    requires Converging(server, config, base, initial, db) && u in Plan(server, config, base)
    ensures var last := LastSeen(db, server.validity); u <= last || u in Plan(server, config, last)
  {
    var last := LastSeen(db, server.validity);
    PlanIsAscending(server, config, base);
    if last > base { ResumedPlan(server, config, last, u); }
  }

  lemma RunConverges(server: Server, config: Config, base: nat, initial: set<nat>, before: Db, after: Db)
    requires Converging(server, config, base, initial, before) && Runs(server, config, {}, before, after, false)
    ensures Converging(server, config, base, initial, after)
  {
    var last, last' := LastSeen(before, server.validity), LastSeen(after, server.validity);
    var plan, goal := Plan(server, config, last), Plan(server, config, base);
    CheckpointAdvances(server, config, {}, before, after, false);
    CoveredIsReached(server, config, base, initial, before);
    forall u | u in goal && u <= last' ensures u in after.emails {
      RestIsPlanned(server, config, base, initial, before, u);
      PlannedIsStored(plan, after.emails, last', u);
    }
    if last' != last && last == base {
      PlanIsAscending(server, config, last);
      assert last' in plan;
      FirstOfPlan(server, plan, last, last');
    }
  }

  lemma PlannedIsStored(plan: seq<nat>, emails: set<nat>, lastSeen: nat, u: nat)
    requires CheckpointSound(plan, emails, {}, lastSeen)
    ensures u in plan && u <= lastSeen ==> u in emails
  {
    if u in plan {
      var k :| 0 <= k < |plan| && plan[k] == u;
    }
  }

  lemma FirstOfPlan(server: Server, plan: seq<nat>, last: nat, u: nat)
    requires IsPlan(server, last, plan) && u in plan
    ensures plan[0] <= u && last < u
  {
    var k :| 0 <= k < |plan| && plan[k] == u;
    assert 0 < k ==> plan[0] < plan[k];
  }

  lemma CompleteRunReachesGoal(server: Server, config: Config, base: nat, initial: set<nat>, before: Db, after: Db)
    requires Converging(server, config, base, initial, before) && Runs(server, config, {}, before, after, true)
    ensures Goal(server, config, base) <= after.emails
  {
    var last := LastSeen(before, server.validity);
    var plan := Plan(server, config, last);
    PlanIsAscending(server, config, last);
    PlanIsAscending(server, config, base);
    CoveredRange(server, plan, last, 0);
    forall u | u in Plan(server, config, base) ensures u in after.emails {
      RestIsPlanned(server, config, base, initial, before, u);
      if u in plan {
        var k :| 0 <= k < |plan| && plan[k] == u;
      }
    }
  }

  /** Runs of one mailbox against a stable server, each interrupted anywhere, without insert failures. */
  ghost predicate History(server: Server, config: Config, dbs: seq<Db>) {
    forall i :: 0 <= i < |dbs| - 1 ==> Runs(server, config, {}, dbs[i], dbs[i + 1], false)
  }

  lemma {:induction false} HistoryConverges(server: Server, config: Config, dbs: seq<Db>)
    requires |dbs| > 0 && History(server, config, dbs)
    ensures Converging(server, config, LastSeen(dbs[0], server.validity), dbs[0].emails, dbs[|dbs| - 1])
    ensures KeepsEvents(dbs[0], dbs[|dbs| - 1])
    ensures LastSeen(dbs[|dbs| - 1], server.validity) >= LastSeen(dbs[0], server.validity)
  {
    var base := LastSeen(dbs[0], server.validity);
    if |dbs| == 1 {
      PlanIsAscending(server, config, base);
    } else {
      var front := dbs[..|dbs| - 1];
      HistoryConverges(server, config, front);
      assert Runs(server, config, {}, dbs[|dbs| - 2], dbs[|dbs| - 2 + 1], false);
      RunConverges(server, config, base, dbs[0].emails, front[|front| - 1], dbs[|dbs| - 1]);
      CheckpointAdvances(server, config, {}, front[|front| - 1], dbs[|dbs| - 1], false);
    }
  }

  /**
   Any number of interrupted runs followed by a complete one stores the goal of the
   first run on top of what was there. Without a start date, or above a checkpoint,
   it stores exactly that. Events stay one for one, and the checkpoint never goes back.
   */
  lemma SyncConverges(server: Server, config: Config, dbs: seq<Db>)
    requires CompletedHistory(server, config, dbs)
    ensures var before, final := dbs[0], dbs[|dbs| - 1];
            var base := LastSeen(before, server.validity);
            && before.emails + Goal(server, config, base) <= final.emails <= before.emails + Reach(server, config, base)
            && (base > 0 || !config.startDate ==> final.emails == before.emails + Goal(server, config, base))
            && (OneEventEach(before) ==> OneEventEach(final))
            && LastSeen(final, server.validity) >= base
  {
    var front, final := dbs[..|dbs| - 1], dbs[|dbs| - 1];
    var base := LastSeen(dbs[0], server.validity);
    assert Runs(server, config, {}, dbs[|dbs| - 2], dbs[|dbs| - 2 + 1], true);
    HistoryFront(server, config, dbs);
    CompleteHistory(server, config, front, final);
    assert front[0] == dbs[0];
    if base > 0 || !config.startDate { ReachIsGoal(server, config, base); }
  }

  /** Such runs of which the last is complete. */
  ghost predicate CompletedHistory(server: Server, config: Config, dbs: seq<Db>) {
    |dbs| > 1 && forall i :: 0 <= i < |dbs| - 1 ==> Runs(server, config, {}, dbs[i], dbs[i + 1], i == |dbs| - 2)
  }

  lemma HistoryFront(server: Server, config: Config, dbs: seq<Db>)
    requires CompletedHistory(server, config, dbs)
    ensures History(server, config, dbs[..|dbs| - 1])
  {
    var front := dbs[..|dbs| - 1];
    forall i | 0 <= i < |front| - 1 ensures Runs(server, config, {}, front[i], front[i + 1], false) {
      assert Runs(server, config, {}, dbs[i], dbs[i + 1], i == |dbs| - 2);
    }
  }

  lemma CompleteHistory(server: Server, config: Config, dbs: seq<Db>, final: Db)
    requires |dbs| > 0 && History(server, config, dbs) && Runs(server, config, {}, dbs[|dbs| - 1], final, true)
    ensures var base := LastSeen(dbs[0], server.validity);
            && dbs[0].emails <= final.emails <= dbs[0].emails + Reach(server, config, base)
            && Goal(server, config, base) <= final.emails && KeepsEvents(dbs[0], final)
            && LastSeen(final, server.validity) >= base
  {
    var base, middle := LastSeen(dbs[0], server.validity), dbs[|dbs| - 1];
    HistoryConverges(server, config, dbs);
    CompleteRunReachesGoal(server, config, base, dbs[0].emails, middle, final);
    RunConverges(server, config, base, dbs[0].emails, middle, final);
    CheckpointAdvances(server, config, {}, middle, final, true);
  }

  /** Above a checkpoint the goal is everything newer. */
  lemma GoalAboveCheckpoint(server: Server, config: Config, base: nat)
    requires base > 0
    ensures Goal(server, config, base) == From(server, base + 1)
  {
    SortedMembers(From(server, base + 1));
  }

  /** The messages a first sync may take: with a start date those that the search has found. */
  function Eligible(server: Server, config: Config): (r: set<nat>)
    ensures forall u :: u in r <==> u in server.uids && u >= 1 && (config.startDate ==> u in server.since)
  {
    set u | u in server.uids && u >= 1 && (config.startDate ==> u in server.since)
  }

  /** On a first sync the goal is the newest of the eligible messages, as many as configured, or all. */
  lemma GoalOfFirstSync(server: Server, config: Config)
    ensures var all, goal, max := Eligible(server, config), Goal(server, config, 0), config.maxMessages;
            && goal <= all
            && |goal| == (if max.Some? && max.value < |all| then max.value else |all|)
            && forall a, b :: a in all && a !in goal && b in goal ==> a < b
  {
    var scan := Sorted(From(server, 1));
    var kept := if config.startDate then Retain(scan, server.since) else scan;
    RetainKeepsOrder(scan, server.since);
    NewestAreLast(kept, config.maxMessages);
    AscendingHasNoDuplicates(kept);
    forall u ensures u in Members(kept) <==> u in Eligible(server, config) {
      assert u in scan <==> u in From(server, 1);
    }
    assert Members(kept) == Eligible(server, config);
  }

  // ---------- how much a run needs ----------

  lemma {:induction false} CostIsBounded(server: Server, plan: seq<nat>, last: nat, i: nat)
    requires IsPlan(server, last, plan) && i <= |plan|
    ensures Cost(server, plan, i) <= 2 * (|plan| - i) + |Covered(server, plan, i)|
    decreases |plan| - i
  {
    if i < |plan| {
      var j := BatchEnd(i, |plan|);
      CostIsBounded(server, plan, last, j);
      var range, rest := Between(server, plan[i], plan[j - 1]), Covered(server, plan, j);
      if j < |plan| { CoveredRange(server, plan, last, j); }
      assert range !! rest;
      assert |range + rest| == |range| + |rest|;
    }
  }

  /** A run with three effects for each message of the server, and three more, is not stopped. */
  lemma NeededIsBounded(server: Server, config: Config, last: nat)
    ensures Needed(server, config, last) <= 3 + 3 * |server.uids|
  {
    var plan := Plan(server, config, last);
    PlanIsAscending(server, config, last);
    AscendingHasNoDuplicates(plan);
    assert Members(plan) <= server.uids;
    CostIsBounded(server, plan, last, 0);
    CoveredRange(server, plan, last, 0);
    assert Covered(server, plan, 0) <= server.uids;
    SmallerSet(Members(plan), server.uids);
    SmallerSet(Covered(server, plan, 0), server.uids);
  }

  lemma SmallerSet(a: set<nat>, b: set<nat>)
    requires a <= b
    ensures |a| <= |b|
  {
    assert b == a + (b - a);
  }

  // ---------- what a complete run means for the stored state ----------

  /** The checkpoint of this epoch is the newest of the messages above `from`, or `from` when there are none. */
  ghost predicate Checkpoints(state: Option<State>, server: Server, from: nat) {
    && state.Some? && state.value.validity == server.validity
    && (forall u :: u in server.uids && u > from ==> u <= state.value.lastSeen)
    && (state.value.lastSeen == from || (state.value.lastSeen in server.uids && state.value.lastSeen > from))
  }

  /**
   A stored UID of the same epoch: a complete run without failed inserts adds exactly
   the messages above it, whatever the limits on first syncs are.
   */
  lemma ResumedRunStores(server: Server, config: Config, before: Db, after: Db)
    requires Runs(server, config, {}, before, after, true)
    requires before.state.Some? && before.state.value.validity == server.validity && before.state.value.lastSeen > 0
    ensures var n := before.state.value.lastSeen;
            && after.emails == before.emails + (set u | u in server.uids && u > n)
            && Checkpoints(after.state, server, n)
  {
    var n := before.state.value.lastSeen;
    CompleteRunStoresAll(server, config, before, after, n);
  }

  /**
   No stored state, one of another epoch, or one that names no UID: without a start
   date and a cap, such a run adds every message of the server, from UID 1 on, and
   leaves a checkpoint of the server's epoch.
   */
  lemma FirstRunStores(server: Server, config: Config, before: Db, after: Db)
    requires Runs(server, config, {}, before, after, true) && !config.startDate && config.maxMessages.None?
    requires before.state.None? || before.state.value.validity != server.validity || before.state.value.lastSeen == 0
    ensures after.emails == before.emails + (set u | u in server.uids && u >= 1)
    ensures Checkpoints(after.state, server, 0)
  {
    CompleteRunStoresAll(server, config, before, after, 0);
  }

  /**
   With a start date or a cap, such a run adds at least the newest eligible messages
   and nothing older than the oldest of them.
   */
  lemma LimitedFirstRunStores(server: Server, config: Config, before: Db, after: Db)
    requires Runs(server, config, {}, before, after, true)
    requires before.state.None? || before.state.value.validity != server.validity || before.state.value.lastSeen == 0
    ensures var goal := Goal(server, config, 0);
            && before.emails + goal <= after.emails
            && forall u :: u in after.emails && u !in before.emails ==>
                             u in server.uids && exists oldest :: oldest in goal && oldest <= u
  {
    var plan := Plan(server, config, 0);
    PlanIsAscending(server, config, 0);
    CoveredRange(server, plan, 0, 0);
    forall u | u in after.emails && u !in before.emails
      ensures u in server.uids && exists oldest :: oldest in Goal(server, config, 0) && oldest <= u
    {
      assert plan[0] in Goal(server, config, 0);
    }
  }

  /** The plan takes every message above the stored UID. */
  ghost predicate TakesAll(server: Server, last: nat, plan: seq<nat>) {
    forall u :: u in plan <==> u in server.uids && u > last
  }

  lemma UnlimitedPlan(server: Server, config: Config, last: nat)
    requires last > 0 || (!config.startDate && config.maxMessages.None?)
    ensures TakesAll(server, last, Plan(server, config, last))
    ensures |From(server, last + 1)| == |Plan(server, config, last)|
  {
    assert Plan(server, config, last) == Sorted(From(server, last + 1));
  }

  lemma CoversAll(server: Server, last: nat, plan: seq<nat>)
    requires IsPlan(server, last, plan) && TakesAll(server, last, plan)
    ensures Covered(server, plan, 0) == set u | u in server.uids && u > last
  {
    CoveredRange(server, plan, last, 0);
    forall u ensures u in Covered(server, plan, 0) <==> u in server.uids && u > last {
      if u in plan {
        var k :| 0 <= k < |plan| && plan[k] == u;
      }
    }
  }

  lemma LastIsNewest(server: Server, last: nat, plan: seq<nat>, state: Option<State>)
    requires IsPlan(server, last, plan) && TakesAll(server, last, plan)
    requires state == Some(State(server.validity, if |plan| == 0 then last else plan[|plan| - 1]))
    ensures Checkpoints(state, server, last)
  {
    forall u | u in server.uids && u > last ensures u <= state.value.lastSeen {
      assert u in plan;
      var k :| 0 <= k < |plan| && plan[k] == u;
    }
  }

  lemma CompleteRunStoresAll(server: Server, config: Config, before: Db, after: Db, last: nat)
    requires Runs(server, config, {}, before, after, true) && last == LastSeen(before, server.validity)
    requires last > 0 || (!config.startDate && config.maxMessages.None?)
    ensures after.emails == before.emails + (set u | u in server.uids && u > last)
    ensures Checkpoints(after.state, server, last)
  {
    var plan := Plan(server, config, last);
    UnlimitedPlan(server, config, last);
    PlanIsAscending(server, config, last);
    CoversAll(server, last, plan);
    LastIsNewest(server, last, plan, after.state);
  }

  lemma NewestAreLast(uids: seq<nat>, max: Option<nat>)
    requires Ascending(uids)
    ensures var newest := Newest(uids, max);
            && Members(newest) <= Members(uids) && |Members(newest)| == |newest|
            && forall a, b :: a in uids && a !in newest && b in newest ==> a < b
  {
    var newest := Newest(uids, max);
    var skip := |uids| - |newest|;
    assert newest == uids[skip..];
    AscendingHasNoDuplicates(newest);
    forall a, b | a in uids && a !in newest && b in newest ensures a < b {
      InSuffix(uids, skip, a);
      InSuffix(uids, skip, b);
    }
  }

  // ---------- failed inserts ----------

  /** A complete run stores everything it planned exactly when no insert of a new message failed. */
  lemma StoresAllIffNoInsertFailed(server: Server, config: Config, bad: set<nat>, before: Db, after: Db)
    requires Runs(server, config, bad, before, after, true)
    ensures var goal := Goal(server, config, LastSeen(before, server.validity));
            goal <= after.emails <==> (forall u :: u in goal && u in bad ==> u in before.emails)
  {
    var last := LastSeen(before, server.validity);
    PlanIsAscending(server, config, last);
    CoveredRange(server, Plan(server, config, last), last, 0);
  }

  /** A complete run leaves its checkpoint at or above a planned message whose insert failed. */
  lemma FailedInsertIsPassed(server: Server, config: Config, bad: set<nat>, before: Db, after: Db, u: nat)
    requires Runs(server, config, bad, before, after, true)
    requires u in Goal(server, config, LastSeen(before, server.validity)) && u in bad && u !in before.emails
    ensures u !in after.emails && 0 < u <= LastSeen(after, server.validity)
  {
    GoalInPlan(server, config, LastSeen(before, server.validity), u);
    CompleteRunEnds(server, config, bad, before, after);
  }

  lemma GoalInPlan(server: Server, config: Config, last: nat, u: nat)
    requires u in Goal(server, config, last)
    ensures var plan := Plan(server, config, last);
            |From(server, last + 1)| > 0 && |plan| > 0 && last < u <= plan[|plan| - 1]
  {
    PlanIsAscending(server, config, last);
    InPlan(server, Plan(server, config, last), last, u);
    PlanNeedsMessages(server, config, last, u);
  }

  lemma CompleteRunEnds(server: Server, config: Config, bad: set<nat>, before: Db, after: Db)
    requires Runs(server, config, bad, before, after, true)
    ensures var last := LastSeen(before, server.validity);
            var plan := Plan(server, config, last);
            && (|plan| > 0 && |From(server, last + 1)| > 0 ==> LastSeen(after, server.validity) == plan[|plan| - 1])
            && forall u :: u in bad && u in after.emails ==> u in before.emails
  {
  }

  lemma PlanNeedsMessages(server: Server, config: Config, last: nat, u: nat)
    requires u in Plan(server, config, last)
    ensures |From(server, last + 1)| > 0
  {
    if |From(server, last + 1)| == 0 { EmptyPlan(server, config, last); }
  }

  lemma InPlan(server: Server, plan: seq<nat>, last: nat, u: nat)
    requires IsPlan(server, last, plan) && u in plan
    ensures last < u <= plan[|plan| - 1]
  {
    var k :| 0 <= k < |plan| && plan[k] == u;
    assert k < |plan| - 1 ==> plan[k] < plan[|plan| - 1];
  }

  /**
   Contrary to the log line that announces a retry in the next cycle, a message
   below the checkpoint that is not stored never will be in the same epoch,
   whatever the server holds and whatever inserts fail.
   */
  lemma {:induction false} FailedInsertIsLost(servers: seq<Server>, config: Config, bads: seq<set<nat>>, dbs: seq<Db>,
                                              validity: nat, u: nat)
    requires |dbs| > 0 && |servers| == |bads| == |dbs| - 1
    requires forall i :: 0 <= i < |servers| ==>
               servers[i].validity == validity && Runs(servers[i], config, bads[i], dbs[i], dbs[i + 1], false)
    requires u !in dbs[0].emails && u <= LastSeen(dbs[0], validity)
    ensures u !in dbs[|dbs| - 1].emails
  {
    if |dbs| > 1 {
      CheckpointAdvances(servers[0], config, bads[0], dbs[0], dbs[1], false);
      forall i | 0 <= i < |servers| - 1
        ensures servers[1..][i].validity == validity
                && Runs(servers[1..][i], config, bads[1..][i], dbs[1..][i], dbs[1..][i + 1], false)
      {
        assert servers[i + 1].validity == validity;
      }
      FailedInsertIsLost(servers[1..], config, bads[1..], dbs[1..], validity, u);
    }
  }
}
