/** Transfer rules and the table of pending transfer legs of mailtx. Amounts are in cents. */
module TransferStore {
  import opened Wrappers

  datatype Leg = Withdrawal | Deposit

  function Opposite(leg: Leg): Leg {
    match leg
    case Withdrawal => Deposit
    case Deposit => Withdrawal
  }

  // ---------- rules ----------

  datatype Account = Account(id: string, fireflyId: string)

  datatype Rule = Rule(source: string, destination: string, withdrawalKeywords: seq<string>,
                       depositKeywords: seq<string>)

  datatype Config = Config(accounts: seq<Account>, rules: seq<Rule>, window: nat)

  datatype RuleMatch = RuleMatch(ruleId: string, leg: Leg, source: string, destination: string)

  function LowerChar(c: char): char {
    if 'A' <= c <= 'Z' then (c as int + 32) as char else c
  }

  function Lower(s: string): (r: string)
    ensures |r| == |s|
    ensures forall i :: 0 <= i < |s| ==> r[i] == if 'A' <= s[i] <= 'Z' then (s[i] as int + 32) as char else s[i]
  {
    seq(|s|, i requires 0 <= i < |s| => LowerChar(s[i]))
  }

  predicate Contains(text: string, part: string) {
    exists i :: 0 <= i <= |text| && part <= text[i..]
  }

  predicate HasAll(text: string, keywords: seq<string>) {
    forall i :: 0 <= i < |keywords| ==> Contains(text, Lower(keywords[i]))
  }

  /** The rule's account on this leg is the resolved one, and all its keywords occur, ignoring ASCII case. */
  predicate Fires(rule: Rule, accountId: string, leg: Leg, narration: string) {
    (if leg.Withdrawal? then rule.source else rule.destination) == accountId
    && HasAll(Lower(narration), if leg.Withdrawal? then rule.withdrawalKeywords else rule.depositKeywords)
  }

  /** Keywords are looked for on the leg they are configured for. */
  lemma FiresMeans(rule: Rule, accountId: string, narration: string)
    ensures Fires(rule, accountId, Withdrawal, narration) <==>
            && rule.source == accountId
            && forall i :: 0 <= i < |rule.withdrawalKeywords| ==>
                             Occurs(Lower(rule.withdrawalKeywords[i]), Lower(narration))
    ensures Fires(rule, accountId, Deposit, narration) <==>
            && rule.destination == accountId
            && forall i :: 0 <= i < |rule.depositKeywords| ==> Occurs(Lower(rule.depositKeywords[i]), Lower(narration))
  {
    forall part: string, text: string ensures Contains(text, part) <==> Occurs(part, text) { OccursIff(part, text); }
  }

  /** A text has the part somewhere in its middle. */
  ghost predicate Occurs(part: string, text: string) {
    exists before: string, after: string :: text == before + part + after
  }

  lemma OccursIff(part: string, text: string)
    ensures Contains(text, part) <==> Occurs(part, text)
  {
    if Contains(text, part) {
      var i :| 0 <= i <= |text| && part <= text[i..];
      assert text == text[..i] + part + text[i + |part|..];
    }
    if Occurs(part, text) {
      var before: string, after: string :| text == before + part + after;
      assert text[|before|..] == part + after;
    }
  }

  function FindFireflyId(accounts: seq<Account>, id: string): Option<string> {
    if |accounts| == 0 then None
    else if accounts[0].id == id then Some(accounts[0].fireflyId)
    else FindFireflyId(accounts[1..], id)
  }

  /** The first account of that id, None exactly when there is none. */
  lemma {:induction false} FirstAccountIsFound(accounts: seq<Account>, id: string, k: nat)
    requires k <= |accounts| && forall j :: 0 <= j < k ==> accounts[j].id != id
    requires k < |accounts| ==> accounts[k].id == id
    ensures FindFireflyId(accounts, id) == if k < |accounts| then Some(accounts[k].fireflyId) else None
    decreases k
  {
    if k > 0 { FirstAccountIsFound(accounts[1..], id, k - 1); }
  }

  function RuleId(rule: Rule): string {
    rule.source + ":" + rule.destination
  }

  /** The position of the first rule that fires, or the number of rules. */
  function FirstToFire(rules: seq<Rule>, accountId: string, leg: Leg, narration: string): (k: nat)
    ensures k <= |rules| && (k < |rules| ==> Fires(rules[k], accountId, leg, narration))
    ensures forall i :: 0 <= i < k ==> !Fires(rules[i], accountId, leg, narration)
  {
    if |rules| == 0 || Fires(rules[0], accountId, leg, narration) then 0
    else
      var k := FirstToFire(rules[1..], accountId, leg, narration);
      assert forall i :: 0 < i <= k ==> (i < |rules| ==> rules[i] == rules[1..][i - 1]);
      1 + k
  }

  /** The first rule that fires decides; if one of its accounts is unknown there is no match at all. */
  function DetectTransferRule(c: Config, accountId: string, leg: Leg, narration: string): Option<RuleMatch> {
    var k := FirstToFire(c.rules, accountId, leg, narration);
    if k == |c.rules| then None
    else
      var source := FindFireflyId(c.accounts, c.rules[k].source);
      var destination := FindFireflyId(c.accounts, c.rules[k].destination);
      if source.None? || destination.None? then None
      else Some(RuleMatch(RuleId(c.rules[k]), leg, source.value, destination.value))
  }

  /**
   The first rule that fires gives the match its id and its two accounts, or prevents it when one of
   them is unknown.
   */
  lemma FirstFiringRuleDecides(c: Config, accountId: string, leg: Leg, narration: string, k: nat)
    requires k <= |c.rules| && forall i :: 0 <= i < k ==> !Fires(c.rules[i], accountId, leg, narration)
    requires k < |c.rules| ==> Fires(c.rules[k], accountId, leg, narration)
    ensures var found := DetectTransferRule(c, accountId, leg, narration);
            if k == |c.rules| then found.None?
            else
              var source := FindFireflyId(c.accounts, c.rules[k].source);
              var destination := FindFireflyId(c.accounts, c.rules[k].destination);
              if source.Some? && destination.Some?
              then found == Some(RuleMatch(c.rules[k].source + ":" + c.rules[k].destination, leg, source.value,
                                           destination.value))
              else found.None?
  {
    var first := FirstToFire(c.rules, accountId, leg, narration);
    assert first == k;
  }

  /** What a match says: the two accounts of a configured rule under its id. */
  ghost predicate FromRule(c: Config, ruleId: string, source: string, destination: string) {
    exists k :: 0 <= k < |c.rules| && ruleId == RuleId(c.rules[k])
                && FindFireflyId(c.accounts, c.rules[k].source) == Some(source)
                && FindFireflyId(c.accounts, c.rules[k].destination) == Some(destination)
  }

  lemma MatchIsFromRule(c: Config, accountId: string, leg: Leg, narration: string)
    ensures var found := DetectTransferRule(c, accountId, leg, narration);
            found.Some? ==>
              FromRule(c, found.value.ruleId, found.value.source, found.value.destination) && found.value.leg == leg
  {
    var k := FirstToFire(c.rules, accountId, leg, narration);
    assert k < |c.rules| ==> RuleId(c.rules[k]) == RuleId(c.rules[k]);
  }

  /** The matched rule's account on the email's own side is the configured one of the resolved account. */
  lemma MatchNamesOwnAccount(c: Config, accountId: string, leg: Leg, narration: string)
    ensures var found := DetectTransferRule(c, accountId, leg, narration);
            found.Some? ==>
              FindFireflyId(c.accounts, accountId) ==
                  Some(if leg.Withdrawal? then found.value.source else found.value.destination)
  {
    var k := FirstToFire(c.rules, accountId, leg, narration);
    assert k < |c.rules| ==> Fires(c.rules[k], accountId, leg, narration);
  }

  lemma NoColonPrefix(a: string, b: string, x: string, y: string)
    requires ':' !in a && ':' !in x && a + ":" + b == x + ":" + y
    ensures a == x && b == y
  {
    FirstColon(a, b);
    FirstColon(x, y);
    assert |a| == |x|;
    var s := a + ":" + b;
    assert s[..|a|] == a && (x + ":" + y)[..|x|] == x;
    assert s[|a| + 1..] == b && (x + ":" + y)[|x| + 1..] == y;
  }

  lemma FirstColon(a: string, b: string)
    requires ':' !in a
    ensures var s := a + ":" + b; s[|a|] == ':' && forall k :: 0 <= k < |s| && s[k] == ':' ==> |a| <= k
  {
  }

  /** No account id that a rule takes as its source contains a colon. */
  ghost predicate ColonFree(c: Config) {
    forall k :: 0 <= k < |c.rules| ==> ':' !in c.rules[k].source
  }

  /** Then a rule id determines the two accounts. */
  lemma RuleIdNamesAccounts(c: Config, ruleId: string, s1: string, d1: string, s2: string, d2: string)
    requires ColonFree(c) && FromRule(c, ruleId, s1, d1) && FromRule(c, ruleId, s2, d2)
    ensures s1 == s2 && d1 == d2
  {
    var k1 :| 0 <= k1 < |c.rules| && ruleId == RuleId(c.rules[k1])
              && FindFireflyId(c.accounts, c.rules[k1].source) == Some(s1)
              && FindFireflyId(c.accounts, c.rules[k1].destination) == Some(d1);
    var k2 :| 0 <= k2 < |c.rules| && ruleId == RuleId(c.rules[k2])
              && FindFireflyId(c.accounts, c.rules[k2].source) == Some(s2)
              && FindFireflyId(c.accounts, c.rules[k2].destination) == Some(d2);
    NoColonPrefix(c.rules[k1].source, c.rules[k1].destination, c.rules[k2].source, c.rules[k2].destination);
  }

  // ---------- the table of pending legs ----------

  datatype Row = Row(
    id: nat,
    ruleId: string,
    leg: Leg,
    amount: nat,
    source: string,
    destination: string,
    insertedAt: int,
    externalId: Option<string>)

  /** Rows in insertion order; ids come from AUTOINCREMENT. */
  datatype Table = Table(rows: seq<Row>, nextId: nat)

  ghost predicate SameExternalId(a: Row, b: Row) {
    a.externalId.Some? && a.externalId == b.externalId
  }

  /** Primary key and the partial unique index; rows without an external id stem from old databases. */
  ghost predicate Keyed(t: Table) {
    (forall i :: 0 <= i < |t.rows| ==> t.rows[i].id < t.nextId) &&
    (forall i, j :: 0 <= i < j < |t.rows| ==> t.rows[i].id != t.rows[j].id) &&
    (forall i, j {:trigger SameExternalId(t.rows[i], t.rows[j])} :: 0 <= i < j < |t.rows| ==>
        !SameExternalId(t.rows[i], t.rows[j]))
  }

  predicate Stores(t: Table, externalId: string) {
    exists i :: 0 <= i < |t.rows| && t.rows[i].externalId == Some(externalId)
  }

  /** INSERT OR IGNORE */
  function Insert(t: Table, row: Row): Table
    requires row.id == t.nextId
  {
    if row.externalId.Some? && Stores(t, row.externalId.value) then t
    else Table(t.rows + [row], t.nextId + 1)
  }

  function WithoutId(rows: seq<Row>, id: nat): seq<Row> {
    if |rows| == 0 then []
    else WithoutId(rows[..|rows| - 1], id) + if rows[|rows| - 1].id == id then [] else [rows[|rows| - 1]]
  }

  function Delete(t: Table, id: nat): Table {
    t.(rows := WithoutId(t.rows, id))
  }

  predicate Matches(row: Row, ruleId: string, leg: Leg, amount: nat, cutoff: int) {
    row.ruleId == ruleId && row.leg == leg && row.amount == amount && row.insertedAt >= cutoff
  }

  predicate NoMatch(t: Table, ruleId: string, leg: Leg, amount: nat, cutoff: int) {
    forall i :: 0 <= i < |t.rows| ==> !Matches(t.rows[i], ruleId, leg, amount, cutoff)
  }

  /** ORDER BY inserted_at LIMIT 1: any of the oldest matches. */
  predicate OldestMatch(t: Table, k: nat, ruleId: string, leg: Leg, amount: nat, cutoff: int) {
    k < |t.rows| && Matches(t.rows[k], ruleId, leg, amount, cutoff)
    && forall i :: 0 <= i < |t.rows| && Matches(t.rows[i], ruleId, leg, amount, cutoff) ==>
        t.rows[k].insertedAt <= t.rows[i].insertedAt
  }

  /** The expired rows, oldest first. */
  ghost predicate ExpiredList(t: Table, cutoff: int, out: seq<Row>) {
    (forall r :: r in out <==> r in t.rows && r.insertedAt < cutoff) &&
    AllInOrder(out)
  }

  lemma {:induction false} DeleteMeans(rows: seq<Row>, id: nat)
    ensures forall r :: r in WithoutId(rows, id) <==> r in rows && r.id != id
    ensures |WithoutId(rows, id)| <= |rows|
  {
    if |rows| > 0 {
      DeleteMeans(rows[..|rows| - 1], id);
      assert rows == rows[..|rows| - 1] + [rows[|rows| - 1]];
    }
  }

  /** Ids being unique, a delete takes out the one row of that id and keeps the order. */
  lemma {:induction false} DeleteRemovesOne(rows: seq<Row>, k: nat)
    requires k < |rows| && forall i, j :: 0 <= i < j < |rows| ==> rows[i].id != rows[j].id
    ensures WithoutId(rows, rows[k].id) == rows[..k] + rows[k + 1..]
  {
    var front := rows[..|rows| - 1];
    if k < |front| {
      DeleteRemovesOne(front, k);
      assert rows[..k] + rows[k + 1..] == front[..k] + front[k + 1..] + [rows[|rows| - 1]];
    } else {
      NothingToDelete(front, rows[k].id);
      assert rows[..k] + rows[k + 1..] == front;
    }
  }

  lemma {:induction false} NothingToDelete(rows: seq<Row>, id: nat)
    requires forall i :: 0 <= i < |rows| ==> rows[i].id != id
    ensures WithoutId(rows, id) == rows
  {
    if |rows| > 0 { NothingToDelete(rows[..|rows| - 1], id); }
  }

  lemma PrefixIsKeyed(rows: seq<Row>, nextId: nat)
    requires Keyed(Table(rows, nextId)) && |rows| > 0
    ensures Keyed(Table(rows[..|rows| - 1], nextId))
    ensures var front, last := rows[..|rows| - 1], rows[|rows| - 1];
            forall r :: r in front ==> Distinguished(r, last)
  {
    var front, last := rows[..|rows| - 1], rows[|rows| - 1];
    forall i, j | 0 <= i < j < |front| ensures !SameExternalId(front[i], front[j]) {
      assert !SameExternalId(rows[i], rows[j]);
    }
    forall r | r in front ensures Distinguished(r, last) {
      var k :| 0 <= k < |front| && front[k] == r;
      assert !SameExternalId(rows[k], rows[|rows| - 1]);
    }
  }

  ghost predicate Distinguished(a: Row, b: Row) {
    a.id != b.id && !SameExternalId(a, b)
  }

  lemma AppendKeepsKeys(rows: seq<Row>, last: Row, nextId: nat)
    requires Keyed(Table(rows, nextId)) && last.id < nextId && forall r :: r in rows ==> Distinguished(r, last)
    ensures Keyed(Table(rows + [last], nextId))
  {
    var after := rows + [last];
    assert forall i :: 0 <= i < |rows| ==> rows[i] in rows;
    forall i, j | 0 <= i < j < |after| ensures !SameExternalId(after[i], after[j]) {
      if j < |rows| { assert !SameExternalId(rows[i], rows[j]); }
    }
  }

  lemma {:induction false} DeleteKeepsKeys(rows: seq<Row>, id: nat, nextId: nat)
    requires Keyed(Table(rows, nextId))
    ensures Keyed(Table(WithoutId(rows, id), nextId))
  {
    if |rows| > 0 {
      var front, last := rows[..|rows| - 1], rows[|rows| - 1];
      PrefixIsKeyed(rows, nextId);
      DeleteKeepsKeys(front, id, nextId);
      DeleteMeans(front, id);
      AppendKeepsKeys(WithoutId(front, id), last, nextId);
      assert WithoutId(front, id) + [] == WithoutId(front, id);
    }
  }

  lemma InsertKeepsKeys(t: Table, row: Row)
    requires Keyed(t) && row.id == t.nextId
    ensures Keyed(Insert(t, row))
  {
    var after := Insert(t, row);
    if after != t {
      forall r | r in t.rows ensures Distinguished(r, row) {
        var i :| 0 <= i < |t.rows| && t.rows[i] == r;
      }
      assert Keyed(Table(t.rows, t.nextId + 1));
      AppendKeepsKeys(t.rows, row, t.nextId + 1);
    }
  }

  // ---------- the store in place ----------

  class PendingStore {
    var rows: seq<Row>
    var nextId: nat
    const window: nat

    constructor (t: Table, window: nat)
      ensures Contents() == t && this.window == window
    {
      rows, nextId := t.rows, t.nextId;
      this.window := window;
    }

    function Contents(): Table
      reads this
    {
      Table(rows, nextId)
    }

    /** Whether the row was new. */
    method InsertLeg(ruleId: string, leg: Leg, amount: nat, source: string, destination: string, now: int,
                     externalId: Option<string>)
      returns (inserted: bool)
      modifies this
      ensures Contents() ==
              Insert(old(Contents()), Row(old(nextId), ruleId, leg, amount, source, destination, now, externalId))
      ensures inserted <==>
              externalId.None? || forall i :: 0 <= i < |old(rows)| ==> old(rows)[i].externalId != externalId
      ensures rows == if inserted
                      then old(rows) + [Row(old(nextId), ruleId, leg, amount, source, destination, now, externalId)]
                      else old(rows)
    {
      if externalId.Some? && Stores(Contents(), externalId.value) {
        return false;
      }
      rows := rows + [Row(nextId, ruleId, leg, amount, source, destination, now, externalId)];
      nextId := nextId + 1;
      inserted := true;
    }

    /** The id of an oldest counterpart within the window; `at` is its position. */
    method FindMatch(ruleId: string, leg: Leg, amount: nat, now: int) returns (found: Option<nat>, ghost at: nat)
      ensures found.None? ==> NoMatch(Contents(), ruleId, leg, amount, now - window)
      ensures found.Some? ==>
                OldestMatch(Contents(), at, ruleId, leg, amount, now - window) && rows[at].id == found.value
      ensures found.None? ==>
                forall i :: 0 <= i < |rows| ==>
                  !(rows[i].ruleId == ruleId && rows[i].leg == leg && rows[i].amount == amount
                    && rows[i].insertedAt >= now - window)
      ensures found.Some? ==>
                at < |rows| && rows[at].ruleId == ruleId && rows[at].leg == leg && rows[at].amount == amount
                && rows[at].insertedAt >= now - window
                && forall i :: 0 <= i < |rows| && rows[i].ruleId == ruleId && rows[i].leg == leg
                               && rows[i].amount == amount && rows[i].insertedAt >= now - window ==>
                                 rows[at].insertedAt <= rows[i].insertedAt
    {
      var best: Option<nat> := None;
      for i := 0 to |rows|
        invariant best.None? ==> forall j :: 0 <= j < i ==> !Matches(rows[j], ruleId, leg, amount, now - window)
        invariant best.Some? ==> best.value < i && Matches(rows[best.value], ruleId, leg, amount, now - window)
        invariant best.Some? ==> forall j :: 0 <= j < i && Matches(rows[j], ruleId, leg, amount, now - window) ==>
                                               rows[best.value].insertedAt <= rows[j].insertedAt
      {
        if Matches(rows[i], ruleId, leg, amount, now - window)
          && (best.None? || rows[i].insertedAt < rows[best.value].insertedAt) {
          best := Some(i);
        }
      }
      if best.None? {
        return None, 0;
      }
      return Some(rows[best.value].id), best.value;
    }

    method DeleteRow(id: nat)
      modifies `rows
      ensures Contents() == Delete(old(Contents()), id)
      ensures forall r :: r in rows <==> r in old(rows) && r.id != id
    {
      DeleteMeans(rows, id);
      rows := WithoutId(rows, id);
    }

    /** The rows past the window, oldest first. */
    method DrainExpired(now: int) returns (out: seq<Row>)
      requires Keyed(Contents())
      ensures ExpiredList(Contents(), now - window, out)
      ensures forall r :: r in out <==> r in rows && r.insertedAt < now - window
      ensures |out| <= |rows|
    {
      out := [];
      for i := 0 to |rows|
        invariant forall r :: r in out <==> r in rows[..i] && r.insertedAt < now - window
        invariant AllInOrder(out) && |out| <= i
      {
        var r := rows[i];
        assert rows[..i + 1] == rows[..i] + [r];
        if r.insertedAt < now - window {
          assert r !in out;
          assert forall k :: 0 <= k < |out| ==> out[k] in out;
          var p := |out|;
          while p > 0 && out[p - 1].insertedAt > r.insertedAt
            invariant 0 <= p <= |out|
            invariant forall k :: p <= k < |out| ==> out[k].insertedAt > r.insertedAt
          {
            p := p - 1;
          }
          EarlierFit(out, p, r);
          InsertedInOrder(out, p, r);
          out := out[..p] + [r] + out[p..];
        }
      }
      assert rows[..|rows|] == rows;
    }
  }

  ghost predicate InOrder(a: Row, b: Row) {
    a.insertedAt <= b.insertedAt && a != b
  }

  ghost predicate AllInOrder(s: seq<Row>) {
    forall j, k {:trigger InOrder(s[j], s[k])} :: 0 <= j < k < |s| ==> InOrder(s[j], s[k])
  }

  ghost predicate FitsAt(out: seq<Row>, p: nat, r: Row)
    requires p <= |out|
  {
    AllInOrder(out) && (forall k :: 0 <= k < p ==> InOrder(out[k], r))
        && (forall k :: p <= k < |out| ==> InOrder(r, out[k]))
  }

  lemma EarlierFit(out: seq<Row>, p: nat, r: Row)
    requires p <= |out| && AllInOrder(out) && r !in out
    requires p > 0 ==> out[p - 1].insertedAt <= r.insertedAt
    requires forall k :: p <= k < |out| ==> out[k].insertedAt > r.insertedAt
    ensures FitsAt(out, p, r)
  {
    forall k | 0 <= k < p ensures InOrder(out[k], r) {
      assert out[k] in out;
      assert k < p - 1 ==> InOrder(out[k], out[p - 1]);
    }
  }

  lemma InsertedInOrder(out: seq<Row>, p: nat, r: Row)
    requires p <= |out| && FitsAt(out, p, r)
    ensures AllInOrder(out[..p] + [r] + out[p..])
    ensures forall x :: x in out[..p] + [r] + out[p..] <==> x in out || x == r
  {
    var after := out[..p] + [r] + out[p..];
    assert out == out[..p] + out[p..];
    forall j, k | 0 <= j < k < |after| ensures InOrder(after[j], after[k]) {
      var j', k' := if j < p then j else j - 1, if k < p then k else k - 1;
      assert after[j] == if j == p then r else out[j'];
      assert after[k] == if k == p then r else out[k'];
      if j != p && k != p { assert InOrder(out[j'], out[k']); }
    }
  }
}
