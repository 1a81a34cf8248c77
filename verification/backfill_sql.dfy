/**
 The compiler from a backfill filter to SQL: what is pushed token by token, read
 back with the precedence of SQL and evaluated in three-valued logic, selects
 exactly the rows the filter describes.
 */
module BackfillSql {
  import opened Wrappers
  import opened Ordered
  import Registry

  // ---------- tokens and their grammar ----------

  datatype Column = Id | Account | Mailbox | Date
  datatype Operand = Col(column: Column) | Bind(n: nat) | Num(value: int)
  datatype Op = Eq | Ge | Lt | Gt

  /** `Select` stands for everything up to and including `WHERE`. */
  datatype Token =
    | Select(counts: bool)
    | Item(operand: Operand)
    | Compare(op: Op)
    | AndTok
    | OrTok
    | LParen
    | RParen
    | FalseTok
    | OrderByIdAsc
    | LimitTok

  datatype Disj = One(only: Conj) | Or(first: Conj, others: Disj)
  datatype Conj = Just(only: Prim) | And(first: Prim, others: Conj)
  datatype Prim = Group(inner: Disj) | FalseLit | Comparison(left: Operand, op: Op, right: Operand)

  function PrintDisj(d: Disj): seq<Token> {
    match d
    case One(c) => PrintConj(c)
    case Or(c, rest) => PrintConj(c) + [OrTok] + PrintDisj(rest)
  }

  function PrintConj(c: Conj): seq<Token> {
    match c
    case Just(p) => PrintPrim(p)
    case And(p, rest) => PrintPrim(p) + [AndTok] + PrintConj(rest)
  }

  function PrintPrim(p: Prim): seq<Token> {
    match p
    case Group(d) => [LParen] + PrintDisj(d) + [RParen]
    case FalseLit => [FalseTok]
    case Comparison(l, op, r) => [Item(l), Compare(op), Item(r)]
  }

  datatype Parsed<T> = Parsed(tree: T, rest: seq<Token>)

  function ParseDisj(ts: seq<Token>): (r: Option<Parsed<Disj>>)
    ensures r.Some? ==> |r.value.rest| < |ts|
    decreases |ts|, 2
  {
    var first := ParseConj(ts);
    if first.None? then None
    else if |first.value.rest| == 0 || first.value.rest[0] != OrTok
        then Some(Parsed(One(first.value.tree), first.value.rest))
    else
      var others := ParseDisj(first.value.rest[1..]);
      if others.None? then None else Some(Parsed(Or(first.value.tree, others.value.tree), others.value.rest))
  }

  function ParseConj(ts: seq<Token>): (r: Option<Parsed<Conj>>)
    ensures r.Some? ==> |r.value.rest| < |ts|
    decreases |ts|, 1
  {
    var first := ParsePrim(ts);
    if first.None? then None
    else if |first.value.rest| == 0 || first.value.rest[0] != AndTok
        then Some(Parsed(Just(first.value.tree), first.value.rest))
    else
      var others := ParseConj(first.value.rest[1..]);
      if others.None? then None else Some(Parsed(And(first.value.tree, others.value.tree), others.value.rest))
  }

  function ParsePrim(ts: seq<Token>): (r: Option<Parsed<Prim>>)
    ensures r.Some? ==> |r.value.rest| < |ts|
    decreases |ts|, 0
  {
    if |ts| == 0 then None
    else if ts[0].LParen? then
      var inner := ParseDisj(ts[1..]);
      if inner.None? || |inner.value.rest| == 0 || inner.value.rest[0] != RParen then None
      else Some(Parsed(Group(inner.value.tree), inner.value.rest[1..]))
    else if ts[0].FalseTok? then Some(Parsed(FalseLit, ts[1..]))
    else if |ts| >= 3 && ts[0].Item? && ts[1].Compare? && ts[2].Item? then
      Some(Parsed(Comparison(ts[0].operand, ts[1].op, ts[2].operand), ts[3..]))
    else None
  }

  predicate StartsWith(ts: seq<Token>, t: Token) {
    |ts| > 0 && ts[0] == t
  }

  /** Reading back what was printed gives the same tree, whatever follows that is not an operator. */
  lemma {:induction false} ParsePrintDisj(d: Disj, rest: seq<Token>)
    requires !StartsWith(rest, OrTok) && !StartsWith(rest, AndTok)
    ensures ParseDisj(PrintDisj(d) + rest) == Some(Parsed(d, rest))
    decreases d
  {
    match d
    case One(c) => ParsePrintConj(c, rest);
    case Or(c, others) =>
      var tail := [OrTok] + (PrintDisj(others) + rest);
      assert PrintDisj(d) + rest == PrintConj(c) + tail;
      ParsePrintConj(c, tail);
      assert tail[1..] == PrintDisj(others) + rest;
      ParsePrintDisj(others, rest);
  }

  lemma {:induction false} ParsePrintConj(c: Conj, rest: seq<Token>)
    requires !StartsWith(rest, AndTok)
    ensures ParseConj(PrintConj(c) + rest) == Some(Parsed(c, rest))
    decreases c
  {
    match c
    case Just(p) => ParsePrintPrim(p, rest);
    case And(p, others) =>
      var tail := [AndTok] + (PrintConj(others) + rest);
      assert PrintConj(c) + rest == PrintPrim(p) + tail;
      ParsePrintPrim(p, tail);
      assert tail[1..] == PrintConj(others) + rest;
      ParsePrintConj(others, rest);
  }

  lemma {:induction false} ParsePrintPrim(p: Prim, rest: seq<Token>)
    ensures ParsePrim(PrintPrim(p) + rest) == Some(Parsed(p, rest))
    decreases p
  {
    var ts := PrintPrim(p) + rest;
    match p
    case Group(d) =>
      var tail := [RParen] + rest;
      assert ts[1..] == PrintDisj(d) + tail;
      ParsePrintDisj(d, tail);
      assert tail[1..] == rest;
    case FalseLit => assert ts[1..] == rest;
    case Comparison(_, _, _) => assert ts[3..] == rest;
  }

  // ---------- three-valued evaluation ----------

  datatype Truth = True | False | Unknown
  datatype Value = Text(text: string) | Number(number: int) | Stamp(seconds: int) | Null

  datatype Row = Row(account: string, mailbox: string, date: Option<int>)

  function ColumnValue(id: nat, row: Row, c: Column): Value {
    match c
    case Id => Number(id)
    case Account => Text(row.account)
    case Mailbox => Text(row.mailbox)
    case Date => if row.date.Some? then Stamp(row.date.value) else Null
  }

  /** `$n` is the n-th bound value, counted from one. */
  function OperandValue(o: Operand, binds: seq<Value>, id: nat, row: Row): Value {
    match o
    case Col(c) => ColumnValue(id, row, c)
    case Bind(n) => if 1 <= n <= |binds| then binds[n - 1] else Null
    case Num(k) => Number(k)
  }

  function Lift(b: bool): Truth {
    if b then True else False
  }

  function CompareInts(a: int, op: Op, b: int): bool {
    match op
    case Eq => a == b
    case Ge => a >= b
    case Lt => a < b
    case Gt => a > b
  }

  /** A comparison with NULL is unknown. Texts are only ever compared for equality here. */
  function CompareValues(a: Value, op: Op, b: Value): Truth {
    if a.Text? && b.Text? && op.Eq? then Lift(a.text == b.text)
    else if a.Number? && b.Number? then Lift(CompareInts(a.number, op, b.number))
    else if a.Stamp? && b.Stamp? then Lift(CompareInts(a.seconds, op, b.seconds))
    else Unknown
  }

  function AndTruth(a: Truth, b: Truth): Truth {
    if a.False? || b.False? then False else if a.True? && b.True? then True else Unknown
  }

  function OrTruth(a: Truth, b: Truth): Truth {
    if a.True? || b.True? then True else if a.False? && b.False? then False else Unknown
  }

  function EvalDisj(d: Disj, binds: seq<Value>, id: nat, row: Row): Truth {
    match d
    case One(c) => EvalConj(c, binds, id, row)
    case Or(c, rest) => OrTruth(EvalConj(c, binds, id, row), EvalDisj(rest, binds, id, row))
  }

  function EvalConj(c: Conj, binds: seq<Value>, id: nat, row: Row): Truth {
    match c
    case Just(p) => EvalPrim(p, binds, id, row)
    case And(p, rest) => AndTruth(EvalPrim(p, binds, id, row), EvalConj(rest, binds, id, row))
  }

  function EvalPrim(p: Prim, binds: seq<Value>, id: nat, row: Row): Truth {
    match p
    case Group(d) => EvalDisj(d, binds, id, row)
    case FalseLit => False
    case Comparison(l, op, r) => CompareValues(OperandValue(l, binds, id, row), op, OperandValue(r, binds, id, row))
  }

  // ---------- queries ----------

  type Table = map<nat, Row>

  datatype Query = Count(filter: Disj) | Page(filter: Disj, limit: Operand)

  function ParseQuery(ts: seq<Token>): Option<Query> {
    if |ts| == 0 || !ts[0].Select? then None
    else
      var filter := ParseDisj(ts[1..]);
      if filter.None? then None
      else
        var rest := filter.value.rest;
        if ts[0].counts && rest == [] then Some(Count(filter.value.tree))
        else if !ts[0].counts && |rest| == 3 && rest[0] == OrderByIdAsc && rest[1] == LimitTok && rest[2].Item? then
          Some(Page(filter.value.tree, rest[2].operand))
        else None
  }

  /** `WHERE` keeps the rows for which the condition is true, not those where it is unknown. */
  function Selected(table: Table, filter: Disj, binds: seq<Value>): set<nat> {
    set id | id in table && EvalDisj(filter, binds, id, table[id]).True?
  }

  datatype Answer = Failure | Total(count: nat) | Ids(ids: seq<nat>)

  function Execute(ts: seq<Token>, binds: seq<Value>, table: Table): Answer {
    match ParseQuery(ts)
    case None => Failure
    case Some(Count(filter)) => Total(|Selected(table, filter, binds)|)
    case Some(Page(filter, limit)) =>
      match OperandValue(limit, binds, 0, Row("", "", None)) {
        case Number(n) => if n < 0 then Failure else Ids(Limit(Sorted(Selected(table, filter, binds)), n))
        case _ => Failure
      }
  }

  // ---------- the filter and what it means ----------

  datatype Filter = Filter(
    after: Option<int>,
    before: Option<int>,
    accounts: seq<string>,
    mailboxes: seq<string>,
    sources: Option<seq<Registry.Source>>,
    emailIds: seq<int>)

  predicate Lists<T(==)>(wanted: seq<T>, x: T) {
    |wanted| == 0 || exists i :: 0 <= i < |wanted| && wanted[i] == x
  }

  /** The selection criteria as documented: categories are conjoined, values within one are alternatives. */
  predicate Accepts(f: Filter, id: nat, row: Row) {
    (f.after.Some? ==> row.date.Some? && row.date.value >= f.after.value) &&
    (f.before.Some? ==> row.date.Some? && row.date.value < f.before.value) &&
    Lists(f.accounts, row.account) &&
    Lists(f.mailboxes, row.mailbox) &&
    Registry.MatchesSource(f.sources, row.account, row.mailbox) &&
    Lists(f.emailIds, id)
  }

  // ---------- the compiled condition as a tree ----------

  /** A non-empty list of alternatives. */
  function DisjOf(prims: seq<Prim>): Disj
    requires |prims| > 0
  {
    if |prims| == 1 then One(Just(prims[0])) else Or(Just(prims[0]), DisjOf(prims[1..]))
  }

  function ConjOf(first: Prim, factors: seq<Prim>): Conj
    decreases |factors|
  {
    if |factors| == 0 then Just(first) else And(first, ConjOf(factors[0], factors[1..]))
  }

  /** The conjunction so far, and all values bound so far. */
  datatype Built = Built(factors: seq<Prim>, binds: seq<Value>)

  function Refine(b: Built, factor: Prim, values: seq<Value>): Built {
    Built(b.factors + [factor], b.binds + values)
  }

  function EqualTo(c: Column, n: nat): Prim {
    Comparison(Col(c), Eq, Bind(n))
  }

  /** Alternatives `column = $n`, bound to the values after the first `n`. */
  function Equalities(c: Column, n: nat, count: nat): (r: seq<Prim>)
    ensures |r| == count && forall i :: 0 <= i < count ==> r[i] == EqualTo(c, n + i + 1)
  {
    seq(count, i requires 0 <= i < count => EqualTo(c, n + i + 1))
  }

  function WithBound(b: Built, op: Op, limit: Option<int>): Built {
    if limit.None? then b
    else Refine(b, Comparison(Col(Date), op, Bind(|b.binds| + 1)), [Stamp(limit.value)])
  }

  function WithAny(b: Built, c: Column, values: seq<Value>): Built {
    if |values| == 0 then b else Refine(b, Group(DisjOf(Equalities(c, |b.binds|, |values|))), values)
  }

  function Texts(names: seq<string>): (r: seq<Value>)
    ensures |r| == |names| && forall i :: 0 <= i < |names| ==> r[i] == Text(names[i])
  {
    seq(|names|, i requires 0 <= i < |names| => Text(names[i]))
  }

  function Numbers(ids: seq<int>): (r: seq<Value>)
    ensures |r| == |ids| && forall i :: 0 <= i < |ids| ==> r[i] == Number(ids[i])
  {
    seq(|ids|, i requires 0 <= i < |ids| => Number(ids[i]))
  }

  function MailboxBinds(mailboxes: Option<seq<string>>): seq<Value> {
    if mailboxes.Some? then Texts(mailboxes.value) else []
  }

  function SourceBinds(s: Registry.Source): seq<Value> {
    [Text(s.account)] + MailboxBinds(s.mailboxes)
  }

  function SourcePrim(s: Registry.Source, n: nat): Prim {
    var account := EqualTo(Account, n + 1);
    if s.mailboxes.None? then Group(One(Just(account)))
    else if |s.mailboxes.value| == 0 then Group(One(And(account, Just(FalseLit))))
    else Group(One(And(account, Just(Group(DisjOf(Equalities(Mailbox, n + 1, |s.mailboxes.value|)))))))
  }

  function SourcesBinds(sources: seq<Registry.Source>): seq<Value> {
    if |sources| == 0 then []
    else SourcesBinds(sources[..|sources| - 1]) + SourceBinds(sources[|sources| - 1])
  }

  function SourcePrims(sources: seq<Registry.Source>, n: nat): (r: seq<Prim>)
    ensures |r| == |sources|
  {
    if |sources| == 0 then []
    else
      var front := sources[..|sources| - 1];
      SourcePrims(front, n) + [SourcePrim(sources[|sources| - 1], n + |SourcesBinds(front)|)]
  }

  function WithSources(b: Built, sources: Option<seq<Registry.Source>>): Built {
    if sources.None? then b
    else if |sources.value| == 0 then Refine(b, Group(One(Just(FalseLit))), [])
    else Refine(b, Group(DisjOf(SourcePrims(sources.value, |b.binds|))), SourcesBinds(sources.value))
  }

  function Compile(b: Built, f: Filter): Built {
    var b1 := WithBound(b, Ge, f.after);
    var b2 := WithBound(b1, Lt, f.before);
    var b3 := WithAny(b2, Account, Texts(f.accounts));
    var b4 := WithAny(b3, Mailbox, Texts(f.mailboxes));
    var b5 := WithSources(b4, f.sources);
    WithAny(b5, Id, Numbers(f.emailIds))
  }

  // ---------- printing lists of conditions ----------

  function JoinOr(prims: seq<Prim>): seq<Token> {
    if |prims| == 0 then []
    else if |prims| == 1 then PrintPrim(prims[0])
    else JoinOr(prims[..|prims| - 1]) + [OrTok] + PrintPrim(prims[|prims| - 1])
  }

  function AndEach(factors: seq<Prim>): seq<Token> {
    if |factors| == 0 then []
    else AndEach(factors[..|factors| - 1]) + [AndTok] + PrintPrim(factors[|factors| - 1])
  }

  lemma {:induction false} JoinOrFromTheLeft(prims: seq<Prim>)
    requires |prims| > 1
    ensures JoinOr(prims) == PrintPrim(prims[0]) + [OrTok] + JoinOr(prims[1..])
  {
    if |prims| > 2 {
      var front := prims[..|prims| - 1];
      JoinOrFromTheLeft(front);
      assert front[1..] == prims[1..][..|prims| - 2];
    } else {
      assert prims[..1] == [prims[0]] && prims[1..] == [prims[1]];
    }
  }

  lemma {:induction false} PrintDisjOf(prims: seq<Prim>)
    requires |prims| > 0
    ensures PrintDisj(DisjOf(prims)) == JoinOr(prims)
  {
    if |prims| > 1 {
      PrintDisjOf(prims[1..]);
      JoinOrFromTheLeft(prims);
    }
  }

  lemma {:induction false} AndEachFromTheLeft(factors: seq<Prim>)
    requires |factors| > 0
    ensures AndEach(factors) == [AndTok] + PrintPrim(factors[0]) + AndEach(factors[1..])
  {
    if |factors| > 1 {
      var front := factors[..|factors| - 1];
      AndEachFromTheLeft(front);
      assert front[1..] == factors[1..][..|factors| - 2];
    } else {
      assert factors[..0] == [] && factors[1..] == [];
    }
  }

  lemma {:induction false} PrintConjOf(first: Prim, factors: seq<Prim>)
    ensures PrintConj(ConjOf(first, factors)) == PrintPrim(first) + AndEach(factors)
    decreases |factors|
  {
    if |factors| > 0 {
      PrintConjOf(factors[0], factors[1..]);
      AndEachFromTheLeft(factors);
    }
  }

  function MailboxTokens(mailboxes: Option<seq<string>>, n: nat): seq<Token> {
    if mailboxes.None? then [RParen]
    else if |mailboxes.value| == 0 then [AndTok, FalseTok, RParen]
    else [AndTok, LParen] + JoinOr(Equalities(Mailbox, n, |mailboxes.value|)) + [RParen, RParen]
  }

  function SourceTokens(s: Registry.Source, n: nat): seq<Token> {
    [LParen, Item(Col(Account)), Compare(Eq)] + [Item(Bind(n + 1))] + MailboxTokens(s.mailboxes, n + 1)
  }

  function SourcesTokens(sources: seq<Registry.Source>, n: nat): seq<Token> {
    if |sources| == 0 then []
    else
      var front := sources[..|sources| - 1];
      SourcesTokens(front, n) + Separator(|front|) + SourceTokens(sources[|sources| - 1], n + |SourcesBinds(front)|)
  }

  // ---------- the query builder ----------

  class QueryBuilder {
    var tokens: seq<Token>
    var binds: seq<Value>

    constructor (start: seq<Token>)
      ensures tokens == start && binds == []
    {
      tokens, binds := start, [];
    }

    method Push(ts: seq<Token>)
      modifies `tokens
      ensures tokens == old(tokens) + ts
    {
      tokens := tokens + ts;
    }

    /** Appends `$n` for the next free n and binds the value to it. */
    method PushBind(v: Value)
      modifies this
      ensures binds == old(binds) + [v]
      ensures tokens == old(tokens) + [Item(Bind(|binds|))]
    {
      binds := binds + [v];
      tokens := tokens + [Item(Bind(|binds|))];
    }

    /** `column = $i OR column = $j ...` */
    method PushAny(c: Column, values: seq<Value>)
      modifies this
      ensures binds == old(binds) + values
      ensures tokens == old(tokens) + JoinOr(Equalities(c, |old(binds)|, |values|))
    {
      var i := 0;
      while i < |values|
        invariant 0 <= i <= |values|
        invariant binds == old(binds) + values[..i]
        invariant tokens == old(tokens) + JoinOr(Equalities(c, |old(binds)|, i))
      {
        if i > 0 {
          Push([OrTok]);
        }
        Push([Item(Col(c)), Compare(Eq)]);
        PushBind(values[i]);
        MoreEqualities(old(tokens), c, |old(binds)|, i);
        i := i + 1;
      }
    }

    method PushSource(s: Registry.Source)
      modifies this
      ensures binds == old(binds) + SourceBinds(s)
      ensures tokens == old(tokens) + SourceTokens(s, |old(binds)|)
    {
      Push([LParen, Item(Col(Account)), Compare(Eq)]);
      PushBind(Text(s.account));
      PushMailboxes(s.mailboxes);
    }

    /** What follows the account of a source, up to its closing parenthesis. */
    method PushMailboxes(mailboxes: Option<seq<string>>)
      modifies this
      ensures binds == old(binds) + MailboxBinds(mailboxes)
      ensures tokens == old(tokens) + MailboxTokens(mailboxes, |old(binds)|)
    {
      match mailboxes
      case None => Push([RParen]);
      case Some(names) =>
        if |names| == 0 {
          Push([AndTok, FalseTok, RParen]);
        } else {
          Push([AndTok, LParen]);
          PushAny(Mailbox, Texts(names));
          Push([RParen, RParen]);
        }
    }

    method PushSources(sources: seq<Registry.Source>)
      modifies this
      ensures binds == old(binds) + SourcesBinds(sources)
      ensures tokens == old(tokens) + SourcesTokens(sources, |old(binds)|)
    {
      var i := 0;
      while i < |sources|
        invariant 0 <= i <= |sources|
        invariant binds == old(binds) + SourcesBinds(sources[..i])
        invariant tokens == old(tokens) + SourcesTokens(sources[..i], |old(binds)|)
      {
        if i > 0 {
          Push([OrTok]);
        }
        PushSource(sources[i]);
        MoreSources(old(tokens), old(binds), sources, i);
        i := i + 1;
      }
      assert sources[..i] == sources;
    }
  }

  lemma PrintSourcePrim(s: Registry.Source, n: nat)
    ensures PrintPrim(SourcePrim(s, n)) == SourceTokens(s, n)
  {
    var account := EqualTo(Account, n + 1);
    if s.mailboxes.None? {
      assert PrintConj(Just(account)) == PrintPrim(account);
    } else if |s.mailboxes.value| == 0 {
      assert PrintConj(And(account, Just(FalseLit))) == PrintPrim(account) + [AndTok] + [FalseTok];
    } else {
      var any := Equalities(Mailbox, n + 1, |s.mailboxes.value|);
      PrintDisjOf(any);
      assert PrintConj(Just(Group(DisjOf(any)))) == [LParen] + JoinOr(any) + [RParen];
      assert PrintConj(And(account, Just(Group(DisjOf(any))))) ==
             PrintPrim(account) + [AndTok] + ([LParen] + JoinOr(any) + [RParen]);
    }
  }

  /** Appending to a list that follows `start`. */
  lemma Extend<T>(start: seq<T>, longer: seq<T>, list: seq<T>, separator: seq<T>, item: seq<T>)
    requires longer == list + separator + item
    ensures start + longer == start + list + separator + item
  {
  }

  function Separator(i: nat): seq<Token> {
    if i > 0 then [OrTok] else []
  }

  lemma MoreEqualities(start: seq<Token>, c: Column, n: nat, i: nat)
    ensures start + JoinOr(Equalities(c, n, i + 1)) ==
            start + JoinOr(Equalities(c, n, i)) + Separator(i) + [Item(Col(c)), Compare(Eq)] + [Item(Bind(n + i + 1))]
  {
    var p, list := EqualTo(c, n + i + 1), Equalities(c, n, i);
    assert Equalities(c, n, i + 1) == list + [p];
    MoreAlternatives(list, p);
    Extend(start, JoinOr(list + [p]), JoinOr(list), Separator(i), PrintPrim(p));
  }

  lemma MoreSources(start: seq<Token>, bound: seq<Value>, sources: seq<Registry.Source>, i: nat)
    requires i < |sources|
    ensures bound + SourcesBinds(sources[..i + 1]) == bound + SourcesBinds(sources[..i]) + SourceBinds(sources[i])
    ensures start + SourcesTokens(sources[..i + 1], |bound|) ==
            start + SourcesTokens(sources[..i], |bound|) + Separator(i)
                + SourceTokens(sources[i], |bound + SourcesBinds(sources[..i])|)
  {
    assert sources[..i + 1][..i] == sources[..i];
    Extend(bound, SourcesBinds(sources[..i + 1]), SourcesBinds(sources[..i]), [], SourceBinds(sources[i]));
    Extend(start, SourcesTokens(sources[..i + 1], |bound|), SourcesTokens(sources[..i], |bound|), Separator(i),
           SourceTokens(sources[i], |bound + SourcesBinds(sources[..i])|));
  }

  lemma {:induction false} PrintSourcePrims(sources: seq<Registry.Source>, n: nat)
    ensures JoinOr(SourcePrims(sources, n)) == SourcesTokens(sources, n)
  {
    if |sources| > 0 {
      var front, last := sources[..|sources| - 1], sources[|sources| - 1];
      PrintSourcePrims(front, n);
      PrintSourcePrim(last, n + |SourcesBinds(front)|);
      MoreAlternatives(SourcePrims(front, n), SourcePrim(last, n + |SourcesBinds(front)|));
    }
  }

  lemma MoreAlternatives(prims: seq<Prim>, p: Prim)
    ensures JoinOr(prims + [p]) == JoinOr(prims) + Separator(|prims|) + PrintPrim(p)
  {
    assert (prims + [p])[..|prims|] == prims;
  }

  /** Appends the filter's conditions, each preceded by AND, to a condition already in the builder. */
  method AppendBackfillFilters(builder: QueryBuilder, f: Filter)
    modifies builder
    ensures var built := Compile(Built([], old(builder.binds)), f);
            builder.binds == built.binds && builder.tokens == old(builder.tokens) + AndEach(built.factors)
  {
    ghost var start := builder.tokens;
    ghost var b := Built([], builder.binds);
    if f.after.Some? {
      builder.Push([AndTok, Item(Col(Date)), Compare(Ge)]);
      builder.PushBind(Stamp(f.after.value));
      Refined(start, b, Comparison(Col(Date), Ge, Bind(|b.binds| + 1)), [Stamp(f.after.value)]);
    }
    b := WithBound(b, Ge, f.after);
    assert builder.binds == b.binds && builder.tokens == start + AndEach(b.factors);
    if f.before.Some? {
      builder.Push([AndTok, Item(Col(Date)), Compare(Lt)]);
      builder.PushBind(Stamp(f.before.value));
      Refined(start, b, Comparison(Col(Date), Lt, Bind(|b.binds| + 1)), [Stamp(f.before.value)]);
    }
    b := WithBound(b, Lt, f.before);
    assert builder.binds == b.binds && builder.tokens == start + AndEach(b.factors);
    AppendAny(builder, Account, Texts(f.accounts), start, b);
    b := WithAny(b, Account, Texts(f.accounts));
    AppendAny(builder, Mailbox, Texts(f.mailboxes), start, b);
    b := WithAny(b, Mailbox, Texts(f.mailboxes));
    AppendSources(builder, f.sources, start, b);
    b := WithSources(b, f.sources);
    AppendAny(builder, Id, Numbers(f.emailIds), start, b);
  }

  lemma Refined(start: seq<Token>, b: Built, factor: Prim, values: seq<Value>)
    ensures start + AndEach(Refine(b, factor, values).factors) ==
            start + AndEach(b.factors) + [AndTok] + PrintPrim(factor)
  {
    assert (b.factors + [factor])[..|b.factors|] == b.factors;
  }

  lemma RefinedGroup(start: seq<Token>, b: Built, d: Disj, values: seq<Value>)
    ensures start + AndEach(Refine(b, Group(d), values).factors) ==
            start + AndEach(b.factors) + [AndTok, LParen] + PrintDisj(d) + [RParen]
  {
    Refined(start, b, Group(d), values);
    Reparenthesize(start + AndEach(b.factors), PrintDisj(d));
  }

  lemma Reparenthesize(before: seq<Token>, inner: seq<Token>)
    ensures before + [AndTok] + ([LParen] + inner + [RParen]) == before + [AndTok, LParen] + inner + [RParen]
  {
  }

  /** One category of alternatives; an empty one adds nothing. */
  method AppendAny(builder: QueryBuilder, c: Column, values: seq<Value>, ghost start: seq<Token>, ghost b: Built)
    requires builder.binds == b.binds && builder.tokens == start + AndEach(b.factors)
    modifies builder
    ensures var b' := WithAny(b, c, values);
            builder.binds == b'.binds && builder.tokens == start + AndEach(b'.factors)
  {
    if |values| > 0 {
      builder.Push([AndTok, LParen]);
      builder.PushAny(c, values);
      builder.Push([RParen]);
      PrintDisjOf(Equalities(c, |b.binds|, |values|));
      RefinedGroup(start, b, DisjOf(Equalities(c, |b.binds|, |values|)), values);
    }
  }

  method AppendSources(builder: QueryBuilder, sources: Option<seq<Registry.Source>>, ghost start: seq<Token>,
                       ghost b: Built)
    requires builder.binds == b.binds && builder.tokens == start + AndEach(b.factors)
    modifies builder
    ensures var b' := WithSources(b, sources);
            builder.binds == b'.binds && builder.tokens == start + AndEach(b'.factors)
  {
    if sources.Some? {
      builder.Push([AndTok, LParen]);
      if |sources.value| == 0 {
        builder.Push([FalseTok]);
        RefinedGroup(start, b, One(Just(FalseLit)), []);
        assert PrintConj(Just(FalseLit)) == [FalseTok];
      } else {
        SourcesGroup(start, b, sources.value);
      }
      builder.PushSources(sources.value);
      builder.Push([RParen]);
    }
  }

  lemma SourcesGroup(start: seq<Token>, b: Built, sources: seq<Registry.Source>)
    requires |sources| > 0
    ensures start + AndEach(WithSources(b, Some(sources)).factors) ==
            start + AndEach(b.factors) + [AndTok, LParen] + SourcesTokens(sources, |b.binds|) + [RParen]
  {
    var prims := SourcePrims(sources, |b.binds|);
    PrintDisjOf(prims);
    PrintSourcePrims(sources, |b.binds|);
    RefinedGroup(start, b, DisjOf(prims), SourcesBinds(sources));
  }

  // ---------- what the compiled condition means ----------

  ghost predicate SomeTrue(prims: seq<Prim>, binds: seq<Value>, id: nat, row: Row) {
    exists i :: 0 <= i < |prims| && EvalPrim(prims[i], binds, id, row).True?
  }

  ghost predicate AllTrue(prims: seq<Prim>, binds: seq<Value>, id: nat, row: Row) {
    forall i :: 0 <= i < |prims| ==> EvalPrim(prims[i], binds, id, row).True?
  }

  lemma {:induction false} EvalDisjOf(prims: seq<Prim>, binds: seq<Value>, id: nat, row: Row)
    requires |prims| > 0
    ensures EvalDisj(DisjOf(prims), binds, id, row).True? <==> SomeTrue(prims, binds, id, row)
  {
    assert EvalConj(Just(prims[0]), binds, id, row) == EvalPrim(prims[0], binds, id, row);
    if |prims| > 1 {
      var rest := prims[1..];
      EvalDisjOf(rest, binds, id, row);
      if SomeTrue(prims, binds, id, row) && !EvalPrim(prims[0], binds, id, row).True? {
        var i :| 0 <= i < |prims| && EvalPrim(prims[i], binds, id, row).True?;
        assert rest[i - 1] == prims[i];
      }
    }
  }

  lemma {:induction false} EvalConjOf(first: Prim, factors: seq<Prim>, binds: seq<Value>, id: nat, row: Row)
    ensures EvalConj(ConjOf(first, factors), binds, id, row).True? <==>
            EvalPrim(first, binds, id, row).True? && AllTrue(factors, binds, id, row)
    decreases |factors|
  {
    if |factors| > 0 {
      var rest := factors[1..];
      EvalConjOf(factors[0], rest, binds, id, row);
      assert forall i :: 0 < i < |factors| ==> factors[i] == rest[i - 1];
    }
  }

  lemma AllTrueRefine(b: Built, factor: Prim, values: seq<Value>, binds: seq<Value>, id: nat, row: Row)
    ensures AllTrue(Refine(b, factor, values).factors, binds, id, row) <==>
            AllTrue(b.factors, binds, id, row) && EvalPrim(factor, binds, id, row).True?
  {
    var all := b.factors + [factor];
    assert forall i :: 0 <= i < |b.factors| ==> all[i] == b.factors[i];
    assert all[|b.factors|] == factor;
  }

  ghost predicate BoundAt(binds: seq<Value>, n: nat, values: seq<Value>) {
    n + |values| <= |binds| && forall i :: 0 <= i < |values| ==> binds[n + i] == values[i]
  }

  lemma BoundAtPrefix(before: seq<Value>, values: seq<Value>, binds: seq<Value>)
    requires before + values <= binds
    ensures BoundAt(binds, |before|, values) && before <= binds
  {
    assert forall i :: 0 <= i < |values| ==> (before + values)[|before| + i] == values[i];
  }

  lemma BoundAtSplit(binds: seq<Value>, n: nat, a: seq<Value>, b: seq<Value>)
    requires BoundAt(binds, n, a + b)
    ensures BoundAt(binds, n, a) && BoundAt(binds, n + |a|, b)
  {
    var all := a + b;
    forall i | 0 <= i < |a| ensures binds[n + i] == a[i] { assert binds[n + i] == all[i]; }
    forall i | 0 <= i < |b| ensures binds[n + |a| + i] == b[i] {
      assert binds[n + (|a| + i)] == all[|a| + i];
    }
  }

  lemma BoundMeans(b: Built, op: Op, limit: Option<int>, binds: seq<Value>, id: nat, row: Row)
    requires WithBound(b, op, limit).binds <= binds
    ensures b.binds <= binds
    ensures AllTrue(WithBound(b, op, limit).factors, binds, id, row) <==>
            AllTrue(b.factors, binds, id, row)
            && (limit.Some? ==> row.date.Some? && CompareInts(row.date.value, op, limit.value))
  {
    if limit.Some? {
      var factor := Comparison(Col(Date), op, Bind(|b.binds| + 1));
      BoundAtPrefix(b.binds, [Stamp(limit.value)], binds);
      AllTrueRefine(b, factor, [Stamp(limit.value)], binds, id, row);
      assert OperandValue(Bind(|b.binds| + 1), binds, id, row) == binds[|b.binds| + 0];
    }
  }

  ghost predicate ValueListed(values: seq<Value>, v: Value) {
    exists i :: 0 <= i < |values| && CompareValues(v, Eq, values[i]).True?
  }

  lemma EqualitiesMean(c: Column, n: nat, values: seq<Value>, binds: seq<Value>, id: nat, row: Row)
    requires BoundAt(binds, n, values)
    ensures SomeTrue(Equalities(c, n, |values|), binds, id, row) <==> ValueListed(values, ColumnValue(id, row, c))
  {
    var prims := Equalities(c, n, |values|);
    forall i | 0 <= i < |values|
      ensures EvalPrim(prims[i], binds, id, row) == CompareValues(ColumnValue(id, row, c), Eq, values[i])
    {
      assert OperandValue(Bind(n + i + 1), binds, id, row) == binds[n + i];
    }
  }

  lemma AnyMeans(b: Built, c: Column, values: seq<Value>, binds: seq<Value>, id: nat, row: Row)
    requires WithAny(b, c, values).binds <= binds
    ensures b.binds <= binds
    ensures AllTrue(WithAny(b, c, values).factors, binds, id, row) <==>
            AllTrue(b.factors, binds, id, row) && (|values| == 0 || ValueListed(values, ColumnValue(id, row, c)))
  {
    if |values| > 0 {
      var prims := Equalities(c, |b.binds|, |values|);
      BoundAtPrefix(b.binds, values, binds);
      EqualitiesMean(c, |b.binds|, values, binds, id, row);
      EvalDisjOf(prims, binds, id, row);
      AllTrueRefine(b, Group(DisjOf(prims)), values, binds, id, row);
    }
  }

  lemma TextsListed(names: seq<string>, name: string)
    ensures |names| == 0 || ValueListed(Texts(names), Text(name)) <==> Lists(names, name)
    ensures ValueListed(Texts(names), Text(name)) <==> name in names
  {
    forall i | 0 <= i < |names|
      ensures CompareValues(Text(name), Eq, Texts(names)[i]).True? <==> names[i] == name
    {
    }
    if name in names {
      var i :| 0 <= i < |names| && names[i] == name;
      assert CompareValues(Text(name), Eq, Texts(names)[i]).True?;
    }
  }

  lemma NumbersListed(ids: seq<int>, id: int)
    ensures |ids| == 0 || ValueListed(Numbers(ids), Number(id)) <==> Lists(ids, id)
  {
    forall i | 0 <= i < |ids|
      ensures CompareValues(Number(id), Eq, Numbers(ids)[i]).True? <==> ids[i] == id
    {
    }
  }

  /** The SQL for one source accepts a row exactly when the source does in memory. */
  lemma SourceMeans(s: Registry.Source, n: nat, binds: seq<Value>, id: nat, row: Row)
    requires BoundAt(binds, n, SourceBinds(s))
    ensures EvalPrim(SourcePrim(s, n), binds, id, row).True? <==> Registry.SourceMatches(s, row.account, row.mailbox)
  {
    var account := EqualTo(Account, n + 1);
    assert SourceBinds(s)[0] == Text(s.account) && binds[n + 0] == Text(s.account);
    assert EvalPrim(account, binds, id, row).True? <==> row.account == s.account;
    if s.mailboxes.None? {
      assert EvalConj(Just(account), binds, id, row) == EvalPrim(account, binds, id, row);
    } else {
      var names := s.mailboxes.value;
      TextsListed(names, row.mailbox);
      assert |names| == 0 ==> row.mailbox !in names;
      var inner := if |names| == 0 then FalseLit else Group(DisjOf(Equalities(Mailbox, n + 1, |names|)));
      assert EvalConj(And(account, Just(inner)), binds, id, row) ==
             AndTruth(EvalPrim(account, binds, id, row), EvalPrim(inner, binds, id, row));
      if |names| > 0 {
        BoundAtSplit(binds, n, [Text(s.account)], Texts(names));
        EqualitiesMean(Mailbox, n + 1, Texts(names), binds, id, row);
        EvalDisjOf(Equalities(Mailbox, n + 1, |names|), binds, id, row);
      }
    }
  }

  lemma {:induction false} SourcesMean(sources: seq<Registry.Source>, n: nat, binds: seq<Value>, id: nat, row: Row)
    requires BoundAt(binds, n, SourcesBinds(sources))
    ensures forall i :: 0 <= i < |sources| ==>
              (EvalPrim(SourcePrims(sources, n)[i], binds, id, row).True?
               <==> Registry.SourceMatches(sources[i], row.account, row.mailbox))
  {
    if |sources| > 0 {
      var front, last := sources[..|sources| - 1], sources[|sources| - 1];
      var bound := SourcesBinds(front);
      BoundAtSplit(binds, n, bound, SourceBinds(last));
      SourcesMean(front, n, binds, id, row);
      SourceMeans(last, n + |bound|, binds, id, row);
    }
  }

  lemma SourceFilterMeans(b: Built, sources: Option<seq<Registry.Source>>, binds: seq<Value>, id: nat, row: Row)
    requires WithSources(b, sources).binds <= binds
    ensures b.binds <= binds
    ensures AllTrue(WithSources(b, sources).factors, binds, id, row) <==>
            AllTrue(b.factors, binds, id, row) && Registry.MatchesSource(sources, row.account, row.mailbox)
  {
    if sources.Some? {
      if |sources.value| == 0 {
        var never := Group(One(Just(FalseLit)));
        assert EvalConj(Just(FalseLit), binds, id, row).False?;
        AllTrueRefine(b, never, [], binds, id, row);
      } else {
        var prims := SourcePrims(sources.value, |b.binds|);
        BoundAtPrefix(b.binds, SourcesBinds(sources.value), binds);
        SourcesMean(sources.value, |b.binds|, binds, id, row);
        EvalDisjOf(prims, binds, id, row);
        AllTrueRefine(b, Group(DisjOf(prims)), SourcesBinds(sources.value), binds, id, row);
      }
    }
  }

  /**
   The conditions of a compiled filter are all true exactly of the rows the filter accepts: dated on
   or after `after` and before `before`, of a listed account, mailbox and id where such are
   listed, and of a configured source where sources are configured.
   */
  lemma CompiledMeansAccepts(before: seq<Value>, f: Filter, binds: seq<Value>, id: nat, row: Row)
    requires Compile(Built([], before), f).binds <= binds
    ensures AllTrue(Compile(Built([], before), f).factors, binds, id, row) <==> Accepts(f, id, row)
    ensures Accepts(f, id, row) <==>
            && (f.after.Some? ==> row.date.Some? && f.after.value <= row.date.value)
            && (f.before.Some? ==> row.date.Some? && row.date.value < f.before.value)
            && (|f.accounts| > 0 ==> row.account in f.accounts)
            && (|f.mailboxes| > 0 ==> row.mailbox in f.mailboxes)
            && (|f.emailIds| > 0 ==> id as int in f.emailIds)
            && (f.sources.Some? ==>
                  exists i :: 0 <= i < |f.sources.value| && f.sources.value[i].account == row.account
                              && (f.sources.value[i].mailboxes.Some? ==>
                                  row.mailbox in f.sources.value[i].mailboxes.value))
  {
    var b := Built([], before);
    var b1 := WithBound(b, Ge, f.after);
    var b2 := WithBound(b1, Lt, f.before);
    var b3 := WithAny(b2, Account, Texts(f.accounts));
    var b4 := WithAny(b3, Mailbox, Texts(f.mailboxes));
    var b5 := WithSources(b4, f.sources);
    AnyMeans(b5, Id, Numbers(f.emailIds), binds, id, row);
    NumbersListed(f.emailIds, id);
    SourceFilterMeans(b4, f.sources, binds, id, row);
    AnyMeans(b3, Mailbox, Texts(f.mailboxes), binds, id, row);
    TextsListed(f.mailboxes, row.mailbox);
    AnyMeans(b2, Account, Texts(f.accounts), binds, id, row);
    TextsListed(f.accounts, row.account);
    BoundMeans(b1, Lt, f.before, binds, id, row);
    BoundMeans(b, Ge, f.after, binds, id, row);
  }

  // ---------- the two queries ----------

  const ALWAYS: Prim := Comparison(Num(1), Eq, Num(1))

  /** `SELECT COUNT(*) FROM emails WHERE 1=1 AND ...` */
  method BuildCountQuery(f: Filter) returns (builder: QueryBuilder)
    ensures fresh(builder)
    ensures (builder.tokens, builder.binds) == CountQuery(f)
  {
    builder := new QueryBuilder([Select(true), Item(Num(1)), Compare(Eq), Item(Num(1))]);
    AppendBackfillFilters(builder, f);
  }

  /** `SELECT ... FROM emails WHERE id > $1 AND ... ORDER BY id ASC LIMIT $n` */
  method BuildPageQuery(f: Filter, lastId: int, pageSize: int) returns (builder: QueryBuilder)
    ensures fresh(builder)
    ensures (builder.tokens, builder.binds) == PageQuery(f, lastId, pageSize)
  {
    builder := new QueryBuilder([Select(false), Item(Col(Id)), Compare(Gt)]);
    builder.PushBind(Number(lastId));
    assert builder.binds == [Number(lastId)];
    AppendBackfillFilters(builder, f);
    builder.Push([OrderByIdAsc, LimitTok]);
    builder.PushBind(Number(pageSize));
  }

  function CountQuery(f: Filter): (seq<Token>, seq<Value>) {
    var built := Compile(Built([], []), f);
    ([Select(true), Item(Num(1)), Compare(Eq), Item(Num(1))] + AndEach(built.factors), built.binds)
  }

  function PageQuery(f: Filter, lastId: int, pageSize: int): (seq<Token>, seq<Value>) {
    var built := Compile(Built([], [Number(lastId)]), f);
    ([Select(false), Item(Col(Id)), Compare(Gt)] + [Item(Bind(1))] + AndEach(built.factors) + [OrderByIdAsc, LimitTok]
     + [Item(Bind(|built.binds| + 1))],
     built.binds + [Number(pageSize)])
  }

  function Accepted(f: Filter, table: Table): set<nat> {
    set id | id in table && Accepts(f, id, table[id])
  }

  function AcceptedAfter(f: Filter, table: Table, lastId: int): set<nat> {
    set id | id in table && id > lastId && Accepts(f, id, table[id])
  }

  /** The text of a query is read back as the intended tree. */
  lemma ParseWhere(first: Prim, factors: seq<Prim>, rest: seq<Token>)
    requires !StartsWith(rest, OrTok) && !StartsWith(rest, AndTok)
    ensures ParseDisj(PrintPrim(first) + AndEach(factors) + rest) == Some(Parsed(One(ConjOf(first, factors)), rest))
  {
    PrintConjOf(first, factors);
    ParsePrintDisj(One(ConjOf(first, factors)), rest);
  }

  /** A condition followed by the compiled ones is true of the accepted rows that meet it. */
  lemma WhereMeans(first: Prim, before: seq<Value>, f: Filter, binds: seq<Value>, id: nat, row: Row)
    requires Compile(Built([], before), f).binds <= binds
    ensures EvalDisj(One(ConjOf(first, Compile(Built([], before), f).factors)), binds, id, row).True? <==>
            EvalPrim(first, binds, id, row).True? && Accepts(f, id, row)
  {
    EvalConjOf(first, Compile(Built([], before), f).factors, binds, id, row);
    CompiledMeansAccepts(before, f, binds, id, row);
  }

  function CountFilter(f: Filter): Disj {
    One(ConjOf(ALWAYS, Compile(Built([], []), f).factors))
  }

  lemma ParseCount(f: Filter)
    ensures ParseQuery(CountQuery(f).0) == Some(Count(CountFilter(f)))
  {
    var factors := Compile(Built([], []), f).factors;
    ParseWhere(ALWAYS, factors, []);
    CountTokens(AndEach(factors));
  }

  lemma CountTokens(conditions: seq<Token>)
    ensures ([Select(true), Item(Num(1)), Compare(Eq), Item(Num(1))] + conditions)[1..] ==
            PrintPrim(ALWAYS) + conditions + []
  {
  }

  lemma AlwaysTrue(binds: seq<Value>, id: nat, row: Row)
    ensures EvalPrim(ALWAYS, binds, id, row) == True
  {
  }

  lemma CountMeans(f: Filter, id: nat, row: Row)
    ensures EvalDisj(CountFilter(f), CountQuery(f).1, id, row).True? <==> Accepts(f, id, row)
  {
    CompleteMeans(ALWAYS, [], f, id, row);
    AlwaysTrue(CountQuery(f).1, id, row);
  }

  lemma CompleteMeans(first: Prim, before: seq<Value>, f: Filter, id: nat, row: Row)
    ensures var built := Compile(Built([], before), f);
            EvalDisj(One(ConjOf(first, built.factors)), built.binds, id, row).True? <==>
            EvalPrim(first, built.binds, id, row).True? && Accepts(f, id, row)
  {
    WhereMeans(first, before, f, Compile(Built([], before), f).binds, id, row);
  }

  lemma CountSelects(f: Filter, table: Table)
    ensures Selected(table, CountFilter(f), CountQuery(f).1) == Accepted(f, table)
  {
    var filter, binds := CountFilter(f), CountQuery(f).1;
    forall id | id in table ensures EvalDisj(filter, binds, id, table[id]).True? <==> Accepts(f, id, table[id]) {
      CountMeans(f, id, table[id]);
    }
  }

  /** The COUNT query counts exactly the accepted rows. */
  lemma CountQueryCounts(f: Filter, table: Table)
    ensures Execute(CountQuery(f).0, CountQuery(f).1, table) == Total(|Accepted(f, table)|)
  {
    ParseCount(f);
    CountSelects(f, table);
  }

  function PageFilter(f: Filter, lastId: int): Disj {
    One(ConjOf(Comparison(Col(Id), Gt, Bind(1)), Compile(Built([], [Number(lastId)]), f).factors))
  }

  lemma PageSelects(f: Filter, table: Table, lastId: int, pageSize: int)
    ensures Selected(table, PageFilter(f, lastId), PageQuery(f, lastId, pageSize).1) == AcceptedAfter(f, table, lastId)
  {
    var binds := PageQuery(f, lastId, pageSize).1;
    FirstBindStays(f, lastId);
    forall id | id in table
      ensures EvalDisj(PageFilter(f, lastId), binds, id, table[id]).True? <==> id > lastId && Accepts(f, id, table[id])
    {
      WhereMeans(Comparison(Col(Id), Gt, Bind(1)), [Number(lastId)], f, binds, id, table[id]);
    }
  }

  /** The page query returns the first `pageSize` accepted rows above `lastId`, in ascending id order. */
  lemma PageQuerySelects(f: Filter, table: Table, lastId: int, pageSize: nat)
    ensures Execute(PageQuery(f, lastId, pageSize).0, PageQuery(f, lastId, pageSize).1, table) ==
            Ids(Limit(Sorted(AcceptedAfter(f, table, lastId)), pageSize))
  {
    ParsePage(f, lastId, pageSize);
    PageSelects(f, table, lastId, pageSize);
    LastBind(Compile(Built([], [Number(lastId)]), f).binds, Number(pageSize));
  }

  lemma LastBind(binds: seq<Value>, v: Value)
    ensures OperandValue(Bind(|binds| + 1), binds + [v], 0, Row("", "", None)) == v
  {
  }

  lemma ParsePage(f: Filter, lastId: int, pageSize: int)
    ensures var built := Compile(Built([], [Number(lastId)]), f);
            ParseQuery(PageQuery(f, lastId, pageSize).0) == Some(Page(PageFilter(f, lastId), Bind(|built.binds| + 1)))
  {
    var built := Compile(Built([], [Number(lastId)]), f);
    var above := Comparison(Col(Id), Gt, Bind(1));
    var tail := [OrderByIdAsc, LimitTok, Item(Bind(|built.binds| + 1))];
    ParseWhere(above, built.factors, tail);
    PageTokens(AndEach(built.factors), |built.binds| + 1);
  }

  lemma PageTokens(conditions: seq<Token>, n: nat)
    ensures ([Select(false), Item(Col(Id)), Compare(Gt)] + [Item(Bind(1))] + conditions + [OrderByIdAsc, LimitTok]
             + [Item(Bind(n))])[1..] ==
            PrintPrim(Comparison(Col(Id), Gt, Bind(1))) + conditions + [OrderByIdAsc, LimitTok, Item(Bind(n))]
  {
  }

  lemma FirstBindStays(f: Filter, lastId: int)
    ensures var built := Compile(Built([], [Number(lastId)]), f);
            |built.binds| > 0 && built.binds[0] == Number(lastId)
            && forall v :: (built.binds + [v])[0] == Number(lastId)
  {
  }

  /** A page from the start that is large enough returns exactly the rows the COUNT query counts. */
  lemma CountAndPageAgree(f: Filter, table: Table, pageSize: nat)
    requires |Accepted(f, table)| <= pageSize
    ensures Execute(CountQuery(f).0, CountQuery(f).1, table) == Total(|Accepted(f, table)|)
    ensures var page := Execute(PageQuery(f, -1, pageSize).0, PageQuery(f, -1, pageSize).1, table);
            page.Ids? && Members(page.ids) == Accepted(f, table) && |page.ids| == |Accepted(f, table)|
  {
    CountQueryCounts(f, table);
    PageQuerySelects(f, table, -1, pageSize);
    assert AcceptedAfter(f, table, -1) == Accepted(f, table);
  }

  /** A row without a date is never selected by a filter with a date bound. */
  lemma NullDateNeverSelected(f: Filter, table: Table, lastId: int, pageSize: nat, id: nat)
    requires f.after.Some? || f.before.Some?
    requires id in table && table[id].date.None?
    ensures var page := Execute(PageQuery(f, lastId, pageSize).0, PageQuery(f, lastId, pageSize).1, table);
            page.Ids? && id !in page.ids
  {
    PageQuerySelects(f, table, lastId, pageSize);
    var all := Sorted(AcceptedAfter(f, table, lastId));
    assert id !in all;
    assert forall x :: x in Limit(all, pageSize) ==> x in all;
  }
}
