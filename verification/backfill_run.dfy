/**
 The backfill loop: keyset pages of matching emails, executed in contiguous chunks
 with retries, until the selected number is handled, the pages run dry or fail,
 or fail-fast stops after a chunk.
 */
module BackfillRun {
  import opened Wrappers
  import opened Ordered
  import BackfillSql
  import JobStore

  const PAGE_SIZE: nat := 500
  const U32_MAX: nat := 0xFFFF_FFFF
  const I64_MAX: nat := 0x7FFF_FFFF_FFFF_FFFF

  /** What one processor call does with an email. */
  datatype Outcome = Success | Failure(message: Option<string>) | Error(text: string) | Timeout

  datatype Settings = Settings(maxRetries: nat, backoff: seq<nat>, concurrency: nat, failFast: bool)

  /** The settings a validated configuration produces; `max_retries` is a 32-bit number. */
  predicate Admissible(s: Settings) {
    s.maxRetries <= U32_MAX && s.concurrency > 0
  }

  // ---------- one email ----------

  type Processor = (nat, nat) -> Outcome

  function MaxAttempts(maxRetries: nat): (n: nat)
    ensures if maxRetries < 0xFFFF_FFFF then n == maxRetries + 1 else n == 0xFFFF_FFFF
  {
    if maxRetries >= U32_MAX then U32_MAX else maxRetries + 1
  }

  /** Some attempt that the settings allow succeeds. */
  ghost predicate Succeeds(processor: Processor, s: Settings, email: nat) {
    exists a: nat :: 1 <= a <= MaxAttempts(s.maxRetries) && processor(email, a).Success?
  }

  function ErrorText(o: Outcome): string {
    match o
    case Success => ""
    case Failure(message) => if message.Some? then message.value else "processor reported failure"
    case Error(text) => text
    case Timeout => "processor timed out"
  }

  function RetryDelay(backoff: seq<nat>, retryIndex: nat): nat {
    if retryIndex < |backoff| then backoff[retryIndex]
    else if |backoff| > 0 then backoff[|backoff| - 1]
    else 60
  }

  /** A backfill waits exactly as long as the scheduler would after the same number of attempts. */
  lemma DelayMatchesScheduler(policy: JobStore.Policy, attempts: nat)
    requires 1 <= attempts < policy.maxRetries
    ensures JobStore.AfterFailure(attempts, policy) == JobStore.RetryAfter(RetryDelay(policy.backoff, attempts - 1))
  {
  }

  datatype Execution = Succeeded(attempts: nat) | Failed(attempts: nat, error: string)

  /**
   Attempts are made until one succeeds; the result is a success exactly when one
   of the first max_retries + 1 attempts succeeds, and names the first such
   attempt. `slept` are the pauses between attempts.
   */
  method ExecuteEmailWithRetries(processor: Processor, s: Settings, email: nat)
    returns (result: Execution, slept: seq<nat>)
    requires Admissible(s)
    ensures result.Succeeded? <==> Succeeds(processor, s, email)
    ensures result.Succeeded? ==>
              1 <= result.attempts <= MaxAttempts(s.maxRetries) && processor(email, result.attempts).Success?
                                  && forall a: nat :: 1 <= a < result.attempts ==> !processor(email, a).Success?
    ensures result.Failed? ==>
              result.attempts == MaxAttempts(s.maxRetries)
                  && result.error == ErrorText(processor(email, result.attempts))
    ensures |slept| == result.attempts - 1 && forall i :: 0 <= i < |slept| ==> slept[i] == RetryDelay(s.backoff, i)
  {
    var maxAttempts := MaxAttempts(s.maxRetries);
    var lastError := "";
    slept := [];
    for attempt := 1 to maxAttempts + 1
      invariant forall a: nat :: 1 <= a < attempt ==> !processor(email, a).Success?
      invariant attempt > 1 ==> lastError == ErrorText(processor(email, attempt - 1))
      invariant |slept| == if attempt <= maxAttempts then attempt - 1 else maxAttempts - 1
      invariant forall i :: 0 <= i < |slept| ==> slept[i] == RetryDelay(s.backoff, i)
    {
      match processor(email, attempt) {
        case Success => return Succeeded(attempt), slept;
        case Failure(None) => lastError := "processor reported failure";
        case Failure(Some(message)) => lastError := message;
        case Error(text) => lastError := text;
        case Timeout => lastError := "processor timed out";
      }
      if attempt < maxAttempts {
        slept := slept + [RetryDelay(s.backoff, attempt - 1)];
      }
    }
    result := Failed(maxAttempts, lastError);
  }

  // ---------- the page source ----------

  datatype Fetch = Rows(ids: seq<nat>) | FetchFails

  /** The answer to the k-th request, for rows above an id and a page size. */
  type PageSource = (nat, nat, nat) -> Fetch

  ghost predicate GoodPage(answer: Fetch, lastId: nat, size: nat) {
    answer.Rows? ==>
      |answer.ids| <= size && Ascending(answer.ids) && forall i :: 0 <= i < |answer.ids| ==> answer.ids[i] > lastId
  }

  /** Any source that returns at most the requested rows, ascending; it may shrink or fail at any request. */
  ghost predicate Behaved(pages: PageSource) {
    forall k, lastId, size :: GoodPage(pages(k, lastId, size), lastId, size)
  }

  // ---------- what a run hands to the processor ----------

  ghost predicate AnyFails(processor: Processor, s: Settings, emails: seq<nat>) {
    exists i :: 0 <= i < |emails| && !Succeeds(processor, s, emails[i])
  }

  function ChunkEnd(i: nat, n: nat, concurrency: nat): (j: nat)
    requires i <= n
    ensures i <= j <= n && (i < n && concurrency > 0 ==> i < j)
  {
    if n - i <= concurrency then n else i + concurrency
  }

  /** How far a page gets from position `i` on, and whether fail-fast stops it there. */
  datatype PageRun = PageRun(end: nat, stopped: bool)

  ghost function RunPage(processor: Processor, s: Settings, page: seq<nat>, i: nat): (r: PageRun)
    requires s.concurrency > 0 && i <= |page|
    ensures i <= r.end <= |page| && (r.stopped || r.end == |page|)
    decreases |page| - i
  {
    if i == |page| then PageRun(i, false)
    else
      var j := ChunkEnd(i, |page|, s.concurrency);
      if s.failFast && AnyFails(processor, s, page[i..j]) then PageRun(j, true) else RunPage(processor, s, page, j)
  }

  datatype Run = Run(handed: seq<nat>, skipped: nat, fetchFailed: bool)

  function PageSize(remaining: nat): (size: nat)
    ensures size <= 500 && size <= remaining && (size == 500 || size == remaining)
  {
    if remaining < PAGE_SIZE then remaining else PAGE_SIZE
  }

  /** The whole run, when `handed` have been given to the processor and `remaining` emails are still expected. */
  ghost function RunFrom(processor: Processor, s: Settings, pages: PageSource, k: nat, lastId: nat, remaining: nat,
                         handed: seq<nat>): (r: Run)
    requires s.concurrency > 0 && Behaved(pages)
    ensures |r.handed| + r.skipped == |handed| + remaining
    decreases remaining
  {
    if remaining == 0 then Run(handed, 0, false)
    else
      var answer := pages(k, lastId, PageSize(remaining));
      assert GoodPage(answer, lastId, PageSize(remaining));
      if answer.FetchFails? then Run(handed, remaining, true)
      else if |answer.ids| == 0 then Run(handed, remaining, false)
      else
        var page := answer.ids;
        var r := RunPage(processor, s, page, 0);
        if r.stopped then Run(handed + page[..r.end], remaining - r.end, false)
        else RunFrom(processor, s, pages, k + 1, page[|page| - 1], remaining - |page|, handed + page)
  }

  /**
   A run ends early for a reason: a request that fails, one that finds nothing more, or,
   with fail-fast, a failure among the emails handed out. Only the first counts as an error.
   */
  lemma {:induction false} RunEndsForAReason(processor: Processor, s: Settings, pages: PageSource, k: nat, lastId: nat,
                                             remaining: nat, handed: seq<nat>)
    requires s.concurrency > 0 && Behaved(pages)
    ensures var r := RunFrom(processor, s, pages, k, lastId, remaining, handed);
            && (r.fetchFailed ==>
                r.skipped > 0 && exists k': nat, last: nat, size: nat :: pages(k', last, size).FetchFails?)
            && (r.skipped > 0 && !r.fetchFailed ==>
                  (exists k': nat, last: nat, size: nat :: pages(k', last, size) == Rows([]))
                  || (s.failFast && AnyFails(processor, s, r.handed)))
    decreases remaining
  {
    if remaining > 0 {
      var answer := pages(k, lastId, PageSize(remaining));
      assert GoodPage(answer, lastId, PageSize(remaining));
      if answer.Rows? && |answer.ids| > 0 {
        var page := answer.ids;
        var r := RunPage(processor, s, page, 0);
        RunUnfolds(processor, s, pages, k, lastId, remaining, handed, page);
        if r.stopped {
          StoppedByFailure(processor, s, page, 0);
          FailsInside(processor, s, handed, page[..r.end]);
        } else {
          assert page[..|page|] == page;
          RunEndsForAReason(processor, s, pages, k + 1, page[|page| - 1], remaining - |page|, handed + page);
        }
      }
    }
  }

  lemma {:induction false} StoppedByFailure(processor: Processor, s: Settings, page: seq<nat>, i: nat)
    requires s.concurrency > 0 && i <= |page|
    ensures var r := RunPage(processor, s, page, i); r.stopped ==> s.failFast && AnyFails(processor, s, page[..r.end])
    decreases |page| - i
  {
    if i < |page| {
      var j := ChunkEnd(i, |page|, s.concurrency);
      if s.failFast && AnyFails(processor, s, page[i..j]) {
        assert page[..j] == page[..i] + page[i..j];
        FailsInside(processor, s, page[..i], page[i..j]);
      } else {
        StoppedByFailure(processor, s, page, j);
      }
    }
  }

  lemma FailsInside(processor: Processor, s: Settings, a: seq<nat>, b: seq<nat>)
    requires AnyFails(processor, s, b)
    ensures AnyFails(processor, s, a + b)
  {
    var i :| 0 <= i < |b| && !Succeeds(processor, s, b[i]);
    assert (a + b)[|a| + i] == b[i];
  }

  /** No source can make a run hand an email out twice. */
  lemma {:induction false} HandedAscend(processor: Processor, s: Settings, pages: PageSource, k: nat, lastId: nat,
                                        remaining: nat, handed: seq<nat>)
    requires s.concurrency > 0 && Behaved(pages)
    requires Ascending(handed) && forall i :: 0 <= i < |handed| ==> handed[i] <= lastId
    ensures Ascending(RunFrom(processor, s, pages, k, lastId, remaining, handed).handed)
    decreases remaining
  {
    if remaining > 0 {
      var answer := pages(k, lastId, PageSize(remaining));
      assert GoodPage(answer, lastId, PageSize(remaining));
      if answer.Rows? && |answer.ids| > 0 {
        var page := answer.ids;
        assert Ascending(handed + page);
        HandedAscend(processor, s, pages, k + 1, page[|page| - 1], remaining - |page|, handed + page);
      }
    }
  }

  ghost function Successes(processor: Processor, s: Settings, emails: seq<nat>): (n: nat)
    ensures n <= |emails|
  {
    if |emails| == 0 then 0
    else Successes(processor, s, emails[..|emails| - 1]) + if Succeeds(processor, s, emails[|emails| - 1]) then 1 else 0
  }

  lemma {:induction false} SuccessesConcat(processor: Processor, s: Settings, a: seq<nat>, b: seq<nat>)
    ensures Successes(processor, s, a + b) == Successes(processor, s, a) + Successes(processor, s, b)
  {
    if |b| == 0 {
      assert a + b == a;
    } else {
      var front := b[..|b| - 1];
      SuccessesConcat(processor, s, a, front);
      assert (a + b)[..|a + b| - 1] == a + front;
    }
  }

  // ---------- the loop ----------

  datatype Summary = Summary(selected: nat, processed: nat, succeeded: nat, failed: nat, skipped: nat)

  method ExecuteChunk(processor: Processor, s: Settings, chunk: seq<nat>) returns (succeeded: nat, failed: nat)
    requires Admissible(s)
    ensures succeeded == Successes(processor, s, chunk) && succeeded + failed == |chunk|
    ensures failed > 0 <==> AnyFails(processor, s, chunk)
  {
    succeeded, failed := 0, 0;
    for i := 0 to |chunk|
      invariant succeeded == Successes(processor, s, chunk[..i]) && succeeded + failed == i
      invariant failed > 0 <==> exists j :: 0 <= j < i && !Succeeds(processor, s, chunk[j])
    {
      var result, _ := ExecuteEmailWithRetries(processor, s, chunk[i]);
      assert chunk[..i + 1][..i] == chunk[..i];
      if result.Succeeded? {
        succeeded := succeeded + 1;
      } else {
        failed := failed + 1;
      }
    }
    assert chunk[..|chunk|] == chunk;
  }

  /** The counters of a summary are those of the emails handed out. */
  ghost predicate Tallies(processor: Processor, s: Settings, summary: Summary, handed: seq<nat>) {
    && summary.processed == |handed| == summary.succeeded + summary.failed
    && summary.succeeded == Successes(processor, s, handed)
  }

  lemma TallyGrows(processor: Processor, s: Settings, summary: Summary, handed: seq<nat>, chunk: seq<nat>,
                   succeeded: nat, failed: nat)
    requires Tallies(processor, s, summary, handed)
    requires succeeded == Successes(processor, s, chunk) && succeeded + failed == |chunk|
    ensures Tallies(processor, s,
                    summary.(processed := summary.processed + |chunk|, succeeded := summary.succeeded + succeeded,
                                           failed := summary.failed + failed), handed + chunk)
  {
    SuccessesConcat(processor, s, handed, chunk);
  }

  /** One page, chunk by chunk; `handed` are the emails given to the processor so far. */
  method ExecutePage(processor: Processor, s: Settings, page: seq<nat>, summary: Summary, handed: seq<nat>)
    returns (summary': Summary, handed': seq<nat>, stop: bool)
    requires Admissible(s) && Tallies(processor, s, summary, handed)
    ensures Tallies(processor, s, summary', handed')
    ensures summary'.selected == summary.selected && summary'.skipped == summary.skipped
    ensures var run := RunPage(processor, s, page, 0); handed' == handed + page[..run.end] && stop == run.stopped
  {
    summary', handed', stop := summary, handed, false;
    var i := 0;
    while i < |page|
      invariant 0 <= i <= |page|
      invariant handed' == handed + page[..i] && !stop
      invariant RunPage(processor, s, page, 0) == RunPage(processor, s, page, i)
      invariant Tallies(processor, s, summary', handed')
      invariant summary'.selected == summary.selected && summary'.skipped == summary.skipped
    {
      var j := ChunkEnd(i, |page|, s.concurrency);
      var chunk := page[i..j];
      var good, bad := ExecuteChunk(processor, s, chunk);
      TallyGrows(processor, s, summary', handed', chunk, good, bad);
      summary' := summary'.(processed := summary'.processed + |chunk|, succeeded := summary'.succeeded + good,
                            failed := summary'.failed + bad);
      handed' := handed' + chunk;
      assert page[..j] == page[..i] + chunk;
      if s.failFast && bad > 0 {
        stop := true;
        return;
      }
      i := j;
    }
  }

  lemma RunUnfolds(processor: Processor, s: Settings, pages: PageSource, k: nat, lastId: nat, remaining: nat,
                   handed: seq<nat>, page: seq<nat>)
    requires s.concurrency > 0 && Behaved(pages) && remaining > 0 && |page| > 0
    requires pages(k, lastId, PageSize(remaining)) == Rows(page)
    ensures |page| <= remaining
    ensures var r := RunPage(processor, s, page, 0);
            var handed' := handed + page[..r.end];
            RunFrom(processor, s, pages, k, lastId, remaining, handed) ==
            if r.stopped then Run(handed', remaining - r.end, false)
            else RunFrom(processor, s, pages, k + 1, page[|page| - 1], remaining - |page|, handed')
  {
    assert GoodPage(pages(k, lastId, PageSize(remaining)), lastId, PageSize(remaining));
    assert page[..|page|] == page;
  }

  /**
   Every processed email is counted once as succeeded or failed, and whatever was
   selected but not processed is reported as skipped, for every page source.
   */
  method RunBackfill(processor: Processor, s: Settings, pages: PageSource, selected: nat, dryRun: bool)
    returns (summary: Summary, fetchFailed: bool, handed: seq<nat>)
    requires Admissible(s) && Behaved(pages) && selected <= I64_MAX
    ensures dryRun ==> summary == Summary(selected, 0, 0, 0, 0) && !fetchFailed && handed == []
    ensures !dryRun ==> Run(handed, summary.skipped, fetchFailed) == RunFrom(processor, s, pages, 0, 0, selected, [])
    ensures summary.selected == selected && Tallies(processor, s, summary, handed)
    ensures !dryRun ==> selected == summary.processed + summary.skipped
  {
    handed, fetchFailed := [], false;
    summary := Summary(selected, 0, 0, 0, 0);
    if selected == 0 || dryRun {
      return;
    }
    ghost var run := RunFrom(processor, s, pages, 0, 0, selected, []);
    var k: nat, lastId: nat, remaining: nat := 0, 0, selected;
    while remaining > 0
      invariant summary.selected == selected && Tallies(processor, s, summary, handed)
      invariant run == RunFrom(processor, s, pages, k, lastId, remaining, handed)
      invariant summary.skipped == 0 && !fetchFailed && selected == |handed| + remaining
    {
      var pageSize := if remaining < PAGE_SIZE then remaining else PAGE_SIZE;
      var answer := pages(k, lastId, pageSize);
      assert GoodPage(answer, lastId, pageSize);
      match answer {
        case FetchFails =>
          summary := summary.(skipped := selected - summary.processed);
          fetchFailed := true;
          return;
        case Rows(page) =>
          if |page| == 0 {
            summary := summary.(skipped := summary.skipped + remaining);
            return;
          }
          var stop;
          RunUnfolds(processor, s, pages, k, lastId, remaining, handed, page);
          summary, handed, stop := ExecutePage(processor, s, page, summary, handed);
          if stop {
            summary := summary.(skipped := selected - summary.processed);
            return;
          }
          k, lastId, remaining := k + 1, page[|page| - 1], remaining - |page|;
      }
    }
  }

  // ---------- a run over a fixed table ----------

  /** `--limit` caps the count; a negative count is ignored. */
  function CapSelected(matched: int, limit: Option<nat>): (n: nat)
    ensures matched <= 0 ==> n == 0
    ensures matched > 0 ==> n <= matched && (limit.Some? ==> n <= limit.value)
    ensures matched > 0 ==> n == matched || (limit.Some? && n == limit.value)
  {
    var atLeastZero := if matched < 0 then 0 else matched;
    if limit.Some? && limit.value < atLeastZero then limit.value else atLeastZero
  }

  /** The pages of the database: each one runs the compiled page query. */
  function DbPages(f: BackfillSql.Filter, table: BackfillSql.Table): PageSource {
    (k: nat, lastId: nat, size: nat) => DbPage(f, table, lastId, size)
  }

  function DbPage(f: BackfillSql.Filter, table: BackfillSql.Table, lastId: nat, size: nat): Fetch {
    var (tokens, binds) := BackfillSql.PageQuery(f, lastId, size);
    match BackfillSql.Execute(tokens, binds, table)
    case Ids(ids) => Rows(ids)
    case _ => FetchFails
  }

  lemma DbPageIs(f: BackfillSql.Filter, table: BackfillSql.Table, lastId: nat, size: nat)
    ensures DbPage(f, table, lastId, size) == Rows(Limit(Sorted(BackfillSql.AcceptedAfter(f, table, lastId)), size))
    ensures GoodPage(DbPage(f, table, lastId, size), lastId, size)
  {
    BackfillSql.PageQuerySelects(f, table, lastId, size);
    LimitIsGood(BackfillSql.AcceptedAfter(f, table, lastId), lastId, size);
  }

  lemma LimitIsGood(matching: set<nat>, lastId: nat, size: nat)
    requires forall id :: id in matching ==> id > lastId
    ensures GoodPage(Rows(Limit(Sorted(matching), size)), lastId, size)
  {
    var all := Sorted(matching);
    assert forall i :: 0 <= i < |all| ==> all[i] in all;
  }

  lemma DbPagesBehave(f: BackfillSql.Filter, table: BackfillSql.Table)
    ensures Behaved(DbPages(f, table))
  {
    forall k, lastId, size ensures GoodPage(DbPages(f, table)(k, lastId, size), lastId, size) {
      DbPageIs(f, table, lastId, size);
    }
  }

  lemma AboveIsRest(ids: seq<nat>, done: nat, id: nat)
    requires Ascending(ids) && done <= |ids| && id in ids && id > 0
    ensures id > (if done == 0 then 0 else ids[done - 1]) <==> id !in ids[..done]
  {
    var i :| 0 <= i < |ids| && ids[i] == id;
    if i < done { assert ids[..done][i] == id; }
  }

  /** Keyset paging: above the last row handed out come exactly the remaining matches. */
  lemma RowsAbove(f: BackfillSql.Filter, table: BackfillSql.Table, ids: seq<nat>, done: nat)
    requires ids == Sorted(BackfillSql.Accepted(f, table)) && done <= |ids| && 0 !in table
    ensures Sorted(BackfillSql.AcceptedAfter(f, table, if done == 0 then 0 else ids[done - 1])) == ids[done..]
  {
    var matching := BackfillSql.Accepted(f, table);
    var lastId := if done == 0 then 0 else ids[done - 1];
    forall id | id in matching ensures id > lastId <==> id !in ids[..done] {
      assert id in ids;
      AboveIsRest(ids, done, id);
    }
    assert BackfillSql.AcceptedAfter(f, table, lastId) == matching - Members(ids[..done]);
    SortedDrop(matching, done);
  }

  /** The ends of the chunks of a run over `n` emails. */
  predicate IsChunkEnd(b: nat, n: nat, concurrency: nat)
    requires concurrency > 0
  {
    b == n || b % PAGE_SIZE % concurrency == 0
  }

  /** `stop` is where the run ends: everywhere before it is free of failures at the chunk ends. */
  ghost predicate EndsAt(processor: Processor, s: Settings, ids: seq<nat>, n: nat, stop: nat)
    requires s.concurrency > 0 && n <= |ids|
  {
    && stop <= n && IsChunkEnd(stop, n, s.concurrency)
    && (stop < n ==> s.failFast && AnyFails(processor, s, ids[..stop]))
    && (s.failFast ==>
          forall b: nat :: b < stop && IsChunkEnd(b, n, s.concurrency) ==> !AnyFails(processor, s, ids[..b]))
  }

  lemma NoMultipleBetween(i: nat, x: nat, c: nat)
    requires c > 0 && i % c == 0 && i < x < i + c
    ensures x % c != 0
  {
    assert x == i + (x - i);
    ModAdd(i, x - i, c);
  }

  lemma MulMonotone(a: int, b: int, c: nat)
    ensures a <= b ==> a * c <= b * c
  {
  }

  lemma DivMod(q: nat, d: nat, c: nat)
    requires d < c
    ensures (q * c + d) / c == q && (q * c + d) % c == d
  {
    var a := q * c + d;
    var k := a / c;
    assert a == k * c + a % c;
    assert (k + 1) * c == k * c + c && (q + 1) * c == q * c + c;
    MulMonotone(k + 1, q, c);
    MulMonotone(q + 1, k, c);
  }

  lemma ModAdd(i: nat, d: nat, c: nat)
    requires c > 0 && i % c == 0 && d < c
    ensures (i + d) % c == d
  {
    DivMod(i / c, d, c);
  }

  lemma FailsPrefix(processor: Processor, s: Settings, ids: seq<nat>, a: nat, b: nat)
    requires a <= b <= |ids|
    ensures AnyFails(processor, s, ids[..b]) <==> AnyFails(processor, s, ids[..a]) || AnyFails(processor, s, ids[a..b])
  {
    if AnyFails(processor, s, ids[..a]) {
      var i :| 0 <= i < a && !Succeeds(processor, s, ids[..a][i]);
      assert ids[..b][i] == ids[..a][i];
    }
    if AnyFails(processor, s, ids[a..b]) {
      var i :| 0 <= i < b - a && !Succeeds(processor, s, ids[a..b][i]);
      assert ids[..b][a + i] == ids[a..b][i];
    }
    if AnyFails(processor, s, ids[..b]) {
      var i :| 0 <= i < b && !Succeeds(processor, s, ids[..b][i]);
      assert if i < a then ids[..a][i] == ids[..b][i] else ids[a..b][i - a] == ids[..b][i];
    }
  }

  /** Chunk ends inside a page are the multiples of the concurrency, counted from the start of the page. */
  lemma ChunkEndInPage(done: nat, x: nat, n: nat, c: nat)
    requires c > 0 && done % PAGE_SIZE == 0 && x < PAGE_SIZE
    ensures IsChunkEnd(done + x, n, c) <==> done + x == n || x % c == 0
  {
    ModAdd(done, x, PAGE_SIZE);
  }

  lemma {:induction false} PageRunOf(processor: Processor, s: Settings, ids: seq<nat>, n: nat, done: nat, m: nat,
                                     i: nat)
    requires s.concurrency > 0 && done % PAGE_SIZE == 0 && done + m <= n <= |ids| && m == PageSize(n - done) && i <= m
    requires i == m || i % s.concurrency == 0
    requires s.failFast ==> !AnyFails(processor, s, ids[..done + i])
    ensures var r := RunPage(processor, s, ids[done..done + m], i);
            && (r.stopped ==> s.failFast && AnyFails(processor, s, ids[..done + r.end]))
            && (r.stopped ==> IsChunkEnd(done + r.end, n, s.concurrency))
            && (!r.stopped && s.failFast ==> !AnyFails(processor, s, ids[..done + m]))
            && (s.failFast ==> forall b: nat :: done + i < b < done + r.end && IsChunkEnd(b, n, s.concurrency) ==>
                                                  !AnyFails(processor, s, ids[..b]))
    decreases m - i
  {
    if i < m {
      var j := ChunkEnd(i, m, s.concurrency);
      SliceOfSlice(ids, done, m, i, j);
      FailsPrefix(processor, s, ids, done + i, done + j);
      NextChunkEnd(done, m, n, i, s.concurrency);
      if !(s.failFast && AnyFails(processor, s, ids[done + i..done + j])) {
        PageRunOf(processor, s, ids, n, done, m, j);
      }
    }
  }

  lemma SliceOfSlice(ids: seq<nat>, start: nat, m: nat, i: nat, j: nat)
    requires start + m <= |ids| && i <= j <= m
    ensures ids[start..start + m][i..j] == ids[start + i..start + j]
  {
    var a, b := ids[start..start + m][i..j], ids[start + i..start + j];
    forall k | 0 <= k < j - i ensures a[k] == b[k] {
      assert a[k] == ids[start..start + m][i + k] == ids[start + (i + k)];
    }
  }

  /** From one chunk end of a page to the next there is no other. */
  lemma NextChunkEnd(done: nat, m: nat, n: nat, i: nat, c: nat)
    requires c > 0 && done % PAGE_SIZE == 0 && done + m <= n && m == PageSize(n - done) && i < m && i % c == 0
    ensures var j := ChunkEnd(i, m, c);
            && IsChunkEnd(done + j, n, c) && (j == m || j % c == 0)
            && forall b: nat :: done + i < b < done + j ==> !IsChunkEnd(b, n, c)
  {
    var j := ChunkEnd(i, m, c);
    forall b: nat | done + i < b < done + j ensures !IsChunkEnd(b, n, c) {
      ChunkEndInPage(done, b - done, n, c);
      NoMultipleBetween(i, b - done, c);
    }
    NextMultiple(i, c);
    if j < m {
      ChunkEndInPage(done, j, n, c);
    } else {
      PageEndIsChunkEnd(done, m, n, c);
    }
  }

  lemma NextMultiple(i: nat, c: nat)
    requires c > 0 && i % c == 0
    ensures (i + c) % c == 0
  {
    DivMod(i / c + 1, 0, c);
    assert (i / c + 1) * c == i / c * c + c;
  }

  lemma PageEndIsChunkEnd(done: nat, m: nat, n: nat, c: nat)
    requires c > 0 && done % PAGE_SIZE == 0 && done + m <= n && m == PageSize(n - done)
    ensures IsChunkEnd(done + m, n, c)
    ensures done + m == n || (done + m) % PAGE_SIZE == 0
  {
    if done + m < n {
      NextMultiple(done, PAGE_SIZE);
      assert 0 % c == 0;
    }
  }

  function LastId(ids: seq<nat>, done: nat): nat
    requires done <= |ids|
  {
    if done == 0 then 0 else ids[done - 1]
  }

  /** A source that pages through a fixed ascending list. */
  ghost predicate PagesThrough(pages: PageSource, ids: seq<nat>) {
    forall k: nat, done: nat, size: nat {:trigger pages(k, LastId(ids, done), size)} ::
      done <= |ids| ==> pages(k, LastId(ids, done), size) == Rows(Limit(ids[done..], size))
  }

  lemma DbPagesThroughMatches(f: BackfillSql.Filter, table: BackfillSql.Table)
    requires 0 !in table
    ensures PagesThrough(DbPages(f, table), Sorted(BackfillSql.Accepted(f, table)))
  {
    var ids := Sorted(BackfillSql.Accepted(f, table));
    forall k: nat, done: nat, size: nat | done <= |ids|
      ensures DbPages(f, table)(k, LastId(ids, done), size) == Rows(Limit(ids[done..], size))
    {
      RowsAbove(f, table, ids, done);
      DbPageIs(f, table, LastId(ids, done), size);
    }
  }

  /** One page of a run over a fixed list. */
  lemma FixedPage(processor: Processor, s: Settings, pages: PageSource, ids: seq<nat>, n: nat, k: nat, done: nat)
    requires s.concurrency > 0 && Behaved(pages) && PagesThrough(pages, ids) && done < n <= |ids|
    ensures var m := PageSize(n - done);
            var r := RunPage(processor, s, ids[done..done + m], 0);
            RunFrom(processor, s, pages, k, LastId(ids, done), n - done, ids[..done]) ==
            if r.stopped then Run(ids[..done + r.end], n - done - r.end, false)
            else RunFrom(processor, s, pages, k + 1, LastId(ids, done + m), n - done - m, ids[..done + m])
  {
    FixedAnswer(pages, ids, k, done, PageSize(n - done));
    AnsweredPage(processor, s, pages, ids, n, k, done);
  }

  lemma AnsweredPage(processor: Processor, s: Settings, pages: PageSource, ids: seq<nat>, n: nat, k: nat, done: nat)
    requires s.concurrency > 0 && Behaved(pages) && done < n <= |ids|
    requires pages(k, LastId(ids, done), PageSize(n - done)) == Rows(ids[done..done + PageSize(n - done)])
    ensures var m := PageSize(n - done);
            var r := RunPage(processor, s, ids[done..done + m], 0);
            RunFrom(processor, s, pages, k, LastId(ids, done), n - done, ids[..done]) ==
            if r.stopped then Run(ids[..done + r.end], n - done - r.end, false)
            else RunFrom(processor, s, pages, k + 1, LastId(ids, done + m), n - done - m, ids[..done + m])
  {
    var m := PageSize(n - done);
    var page := ids[done..done + m];
    var end := RunPage(processor, s, page, 0).end;
    PrefixGrows(ids, done, m, end);
    PageStep(processor, s, pages, k, LastId(ids, done), n - done, ids[..done], page, LastId(ids, done + m),
             ids[..done + end]);
  }

  /** A page that answers, with names for what comes out of it. */
  lemma PageStep(processor: Processor, s: Settings, pages: PageSource, k: nat, lastId: nat, remaining: nat,
                 handed: seq<nat>, page: seq<nat>, next: nat, handed': seq<nat>)
    requires s.concurrency > 0 && Behaved(pages) && remaining > 0 && |page| > 0
    requires pages(k, lastId, PageSize(remaining)) == Rows(page) && next == page[|page| - 1]
    requires handed' == handed + page[..RunPage(processor, s, page, 0).end]
    ensures |page| <= remaining
    ensures RunFrom(processor, s, pages, k, lastId, remaining, handed) ==
            if RunPage(processor, s, page, 0).stopped
            then Run(handed', remaining - RunPage(processor, s, page, 0).end, false)
            else RunFrom(processor, s, pages, k + 1, next, remaining - |page|, handed')
  {
    RunUnfolds(processor, s, pages, k, lastId, remaining, handed, page);
  }

  lemma FixedAnswer(pages: PageSource, ids: seq<nat>, k: nat, done: nat, m: nat)
    requires PagesThrough(pages, ids) && done + m <= |ids|
    ensures pages(k, LastId(ids, done), m) == Rows(ids[done..done + m])
  {
    assert pages(k, LastId(ids, done), m) == Rows(Limit(ids[done..], m));
    assert ids[done..done + m] == Limit(ids[done..], m);
  }

  lemma PrefixGrows(ids: seq<nat>, done: nat, m: nat, end: nat)
    requires done + m <= |ids| && end <= m
    ensures ids[..done] + ids[done..done + m][..end] == ids[..done + end]
    ensures m > 0 ==> ids[done..done + m][m - 1] == ids[done + m - 1]
  {
  }

  /** No chunk end up to `done` has a failure before it, if the run is to stop at the first one that has. */
  ghost predicate CleanUpTo(processor: Processor, s: Settings, ids: seq<nat>, n: nat, done: nat)
    requires s.concurrency > 0 && done <= n <= |ids|
  {
    s.failFast ==>
      forall b: nat :: b <= done && (b == done || IsChunkEnd(b, n, s.concurrency)) ==> !AnyFails(processor, s, ids[..b])
  }

  lemma PageEnds(processor: Processor, s: Settings, ids: seq<nat>, n: nat, done: nat)
    requires s.concurrency > 0 && done < n <= |ids| && done % PAGE_SIZE == 0 && CleanUpTo(processor, s, ids, n, done)
    ensures var m := PageSize(n - done);
            var r := RunPage(processor, s, ids[done..done + m], 0);
            if r.stopped then EndsAt(processor, s, ids, n, done + r.end) else CleanUpTo(processor, s, ids, n, done + m)
  {
    var m := PageSize(n - done);
    PageRunOf(processor, s, ids, n, done, m, 0);
    PageEndIsChunkEnd(done, m, n, s.concurrency);
  }

  /** Where a run over the first `n` of a fixed list ends, from a page boundary on. */
  ghost function StopOf(processor: Processor, s: Settings, ids: seq<nat>, n: nat, done: nat): (stop: nat)
    requires s.concurrency > 0 && done <= n <= |ids|
    ensures done <= stop <= n
    decreases n - done
  {
    if done == n then n
    else
      var m := PageSize(n - done);
      var r := RunPage(processor, s, ids[done..done + m], 0);
      if r.stopped then done + r.end else StopOf(processor, s, ids, n, done + m)
  }

  /** What one page makes of the run that `runs` describes at each position. */
  ghost predicate PageLaw(processor: Processor, s: Settings, ids: seq<nat>, n: nat, runs: (nat, nat) -> Run, k: nat,
                          done: nat)
    requires s.concurrency > 0 && done < n <= |ids|
  {
    var m := PageSize(n - done);
    var r := RunPage(processor, s, ids[done..done + m], 0);
    runs(k, done) == if r.stopped then Run(ids[..done + r.end], n - done - r.end, false) else runs(k + 1, done + m)
  }

  lemma {:induction false} LawStops(processor: Processor, s: Settings, ids: seq<nat>, n: nat, runs: (nat, nat) -> Run,
                                    k: nat, done: nat)
    requires s.concurrency > 0 && done <= n <= |ids|
    requires forall k': nat, done': nat :: done' < n ==> PageLaw(processor, s, ids, n, runs, k', done')
    requires forall k': nat :: runs(k', n) == Run(ids[..n], 0, false)
    ensures var stop := StopOf(processor, s, ids, n, done); runs(k, done) == Run(ids[..stop], n - stop, false)
    decreases n - done
  {
    if done < n {
      var m := PageSize(n - done);
      assert PageLaw(processor, s, ids, n, runs, k, done);
      if !RunPage(processor, s, ids[done..done + m], 0).stopped {
        LawStops(processor, s, ids, n, runs, k + 1, done + m);
      }
    }
  }

  ghost function RunAt(processor: Processor, s: Settings, pages: PageSource, ids: seq<nat>, n: nat, k: nat,
                       done: nat): Run
    requires s.concurrency > 0 && Behaved(pages) && n <= |ids|
  {
    if done > n then Run([], 0, false) else RunFrom(processor, s, pages, k, LastId(ids, done), n - done, ids[..done])
  }

  lemma RunAtPage(processor: Processor, s: Settings, pages: PageSource, ids: seq<nat>, n: nat, k: nat, done: nat)
    requires s.concurrency > 0 && Behaved(pages) && PagesThrough(pages, ids) && done <= n <= |ids|
    ensures done == n ==> RunAt(processor, s, pages, ids, n, k, done) == Run(ids[..n], 0, false)
    ensures done < n ==>
              var m := PageSize(n - done);
              var r := RunPage(processor, s, ids[done..done + m], 0);
              RunAt(processor, s, pages, ids, n, k, done) ==
              if r.stopped then Run(ids[..done + r.end], n - done - r.end, false)
              else RunAt(processor, s, pages, ids, n, k + 1, done + m)
  {
    if done < n { FixedPage(processor, s, pages, ids, n, k, done); }
  }

  lemma RunAtStops(processor: Processor, s: Settings, pages: PageSource, ids: seq<nat>, n: nat)
    requires s.concurrency > 0 && Behaved(pages) && PagesThrough(pages, ids) && n <= |ids|
    ensures var stop := StopOf(processor, s, ids, n, 0);
            RunAt(processor, s, pages, ids, n, 0, 0) == Run(ids[..stop], n - stop, false)
  {
    var runs: (nat, nat) -> Run := (k: nat, done: nat) => RunAt(processor, s, pages, ids, n, k, done);
    forall k: nat, done: nat | done < n ensures PageLaw(processor, s, ids, n, runs, k, done) {
      RunAtPage(processor, s, pages, ids, n, k, done);
    }
    forall k: nat ensures runs(k, n) == Run(ids[..n], 0, false) {
      RunAtPage(processor, s, pages, ids, n, k, n);
    }
    LawStops(processor, s, ids, n, runs, 0, 0);
  }

  lemma FixedRun(processor: Processor, s: Settings, pages: PageSource, ids: seq<nat>, n: nat)
    requires s.concurrency > 0 && Behaved(pages) && PagesThrough(pages, ids) && n <= |ids|
    ensures var stop := StopOf(processor, s, ids, n, 0);
            RunFrom(processor, s, pages, 0, 0, n, []) == Run(ids[..stop], n - stop, false)
  {
    RunAtStops(processor, s, pages, ids, n);
    assert ids[..0] == [];
  }

  lemma {:induction false} StopEnds(processor: Processor, s: Settings, ids: seq<nat>, n: nat, done: nat)
    requires s.concurrency > 0 && done <= n <= |ids| && (done == n || done % PAGE_SIZE == 0)
             && CleanUpTo(processor, s, ids, n, done)
    ensures EndsAt(processor, s, ids, n, StopOf(processor, s, ids, n, done))
    decreases n - done
  {
    if done < n {
      var m := PageSize(n - done);
      PageEnds(processor, s, ids, n, done);
      PageEndIsChunkEnd(done, m, n, s.concurrency);
      if !RunPage(processor, s, ids[done..done + m], 0).stopped {
        StopEnds(processor, s, ids, n, done + m);
      }
    }
  }

  /** The run over the first `n` of a fixed list of matches. */
  ghost predicate Refines(processor: Processor, s: Settings, matching: seq<nat>, n: nat, run: Run)
    requires s.concurrency > 0
  {
    && n <= |matching| && !run.fetchFailed && |run.handed| <= n && run.handed == matching[..|run.handed|]
    && EndsAt(processor, s, matching, n, |run.handed|)
    && (!s.failFast ==> |run.handed| == n && run.skipped == 0)
  }

  lemma FixedRunRefines(processor: Processor, s: Settings, pages: PageSource, ids: seq<nat>, n: nat)
    requires s.concurrency > 0 && Behaved(pages) && PagesThrough(pages, ids) && n <= |ids|
    ensures Refines(processor, s, ids, n, RunFrom(processor, s, pages, 0, 0, n, []))
  {
    FixedRun(processor, s, pages, ids, n);
    StopEnds(processor, s, ids, n, 0);
  }

  /**
   On a fixed table with positive ids the processor is handed exactly the first
   selected matches in ascending id order; with fail-fast, exactly the prefix that
   ends at the first chunk containing a failure.
   */
  lemma BackfillRefinesSelection(processor: Processor, s: Settings, f: BackfillSql.Filter, table: BackfillSql.Table,
                                 limit: Option<nat>)
    requires s.concurrency > 0 && 0 !in table
    ensures Behaved(DbPages(f, table))
    ensures var matching := Sorted(BackfillSql.Accepted(f, table));
            var n := CapSelected(|matching|, limit);
            Refines(processor, s, matching, n, RunFrom(processor, s, DbPages(f, table), 0, 0, n, []))
  {
    var matching := Sorted(BackfillSql.Accepted(f, table));
    DbPagesBehave(f, table);
    DbPagesThroughMatches(f, table);
    FixedRunRefines(processor, s, DbPages(f, table), matching, CapSelected(|matching|, limit));
  }

  /** The count the run starts from is the number of matches. */
  lemma MatchedIsCount(f: BackfillSql.Filter, table: BackfillSql.Table)
    ensures BackfillSql.Execute(BackfillSql.CountQuery(f).0, BackfillSql.CountQuery(f).1, table) ==
            BackfillSql.Total(|Sorted(BackfillSql.Accepted(f, table))|)
  {
    BackfillSql.CountQueryCounts(f, table);
  }
}
