/** The failure window that sends an account's watchers into cooldown. Times are in nanoseconds. */
module CircuitBreaker {

  const FAILURES: nat := 10
  const WINDOW: int := 300_000_000_000

  predicate Nondecreasing(times: seq<int>) {
    forall i, j :: 0 <= i < j < |times| ==> times[i] <= times[j]
  }

  /** The failures that are at most one window old at `now`. */
  function Recent(times: seq<int>, now: int): (r: seq<int>)
    ensures |r| <= |times|
  {
    if |times| == 0 then []
    else Recent(times[..|times| - 1], now) + if now - times[|times| - 1] > WINDOW then [] else [times[|times| - 1]]
  }

  /** The queue after a failure, and whether the breaker trips. */
  function Handle(queue: seq<int>, now: int): (seq<int>, bool) {
    var recent := Recent(queue + [now], now);
    if |recent| >= FAILURES then ([], true) else (recent, false)
  }

  class Breaker {
    var queue: seq<int>

    constructor ()
      ensures queue == []
    {
      queue := [];
    }

    method Failure(now: int) returns (tripped: bool)
      requires Nondecreasing(queue + [now])
      modifies this
      ensures (queue, tripped) == Handle(old(queue), now)
      ensures Nondecreasing(queue)
    {
      queue := queue + [now];
      ghost var all := queue;
      ghost var popped := 0;
      while |queue| > 0 && now - queue[0] > WINDOW
        invariant 0 <= popped <= |all| && queue == all[popped..]
        invariant forall i :: 0 <= i < popped ==> now - all[i] > WINDOW
      {
        queue := queue[1..];
        popped := popped + 1;
      }
      PoppingFrontFilters(all, popped, now);
      if |queue| >= FAILURES {
        queue := [];
        tripped := true;
      } else {
        tripped := false;
      }
    }
  }

  lemma {:induction false} OldAreDropped(times: seq<int>, now: int)
    requires forall i :: 0 <= i < |times| ==> now - times[i] > WINDOW
    ensures Recent(times, now) == []
  {
    if |times| > 0 { OldAreDropped(times[..|times| - 1], now); }
  }

  lemma {:induction false} RecentConcat(a: seq<int>, b: seq<int>, now: int)
    ensures Recent(a + b, now) == Recent(a, now) + Recent(b, now)
  {
    if |b| > 0 {
      assert (a + b)[..|a + b| - 1] == a + b[..|b| - 1];
      RecentConcat(a, b[..|b| - 1], now);
    } else {
      assert a + b == a;
    }
  }

  lemma {:induction false} AllRecentStay(times: seq<int>, now: int)
    requires forall i :: 0 <= i < |times| ==> now - times[i] <= WINDOW
    ensures Recent(times, now) == times
  {
    if |times| > 0 {
      AllRecentStay(times[..|times| - 1], now);
      assert times == times[..|times| - 1] + [times[|times| - 1]];
    }
  }

  /** On ordered times, popping old entries from the front is filtering. */
  lemma PoppingFrontFilters(times: seq<int>, popped: nat, now: int)
    requires Nondecreasing(times) && popped <= |times|
    requires forall i :: 0 <= i < popped ==> now - times[i] > WINDOW
    requires popped < |times| ==> now - times[popped] <= WINDOW
    ensures times[popped..] == Recent(times, now)
  {
    assert times == times[..popped] + times[popped..];
    RecentConcat(times[..popped], times[popped..], now);
    OldAreDropped(times[..popped], now);
    AllRecentStay(times[popped..], now);
  }

  // ---------- whole histories ----------

  /** The queue after handling every failure of a history in order. */
  function QueueAfter(times: seq<int>): seq<int> {
    if |times| == 0 then [] else Handle(QueueAfter(times[..|times| - 1]), times[|times| - 1]).0
  }

  /** Does the last failure of a history start a cooldown? */
  predicate Trips(times: seq<int>)
    requires |times| > 0
  {
    Handle(QueueAfter(times[..|times| - 1]), times[|times| - 1]).1
  }

  /** How many failures of the history precede or cause its last cooldown. */
  function CooledDown(times: seq<int>): (n: nat)
    ensures n <= |times|
  {
    if |times| == 0 then 0 else if Trips(times) then |times| else CooledDown(times[..|times| - 1])
  }

  lemma {:induction false} WindowMoves(times: seq<int>, earlier: int, now: int)
    requires earlier <= now
    ensures Recent(Recent(times, earlier), now) == Recent(times, now)
  {
    if |times| > 0 {
      var last := times[|times| - 1];
      var front := times[..|times| - 1];
      WindowMoves(front, earlier, now);
      var kept := if earlier - last > WINDOW then [] else [last];
      RecentConcat(Recent(front, earlier), kept, now);
    }
  }

  /** The queue always is the true sliding window since the last cooldown. */
  lemma {:induction false} QueueIsSlidingWindow(times: seq<int>)
    requires |times| > 0 && Nondecreasing(times)
    ensures QueueAfter(times) == Recent(times[CooledDown(times)..], times[|times| - 1])
    decreases |times|, 1
  {
    var front := times[..|times| - 1];
    if !Trips(times) { HandledWindow(times); }
  }

  /** What a failure finds in the queue, itself included. */
  lemma {:induction false} HandledWindow(times: seq<int>)
    requires |times| > 0 && Nondecreasing(times)
    ensures var front, now := times[..|times| - 1], times[|times| - 1];
            Recent(QueueAfter(front) + [now], now) == Recent(times[CooledDown(front)..], now)
    decreases |times|, 0
  {
    var front, now := times[..|times| - 1], times[|times| - 1];
    var since := CooledDown(front);
    assert times[since..] == front[since..] + [now];
    if |front| > 0 {
      QueueIsSlidingWindow(front);
      RecentConcat(QueueAfter(front), [now], now);
      RecentConcat(front[since..], [now], now);
      WindowMoves(front[since..], front[|front| - 1], now);
    }
  }

  /** A cooldown starts exactly when the failures since the last one fill the window. */
  lemma TripsIffWindowFull(times: seq<int>)
    requires |times| > 0 && Nondecreasing(times)
    ensures var front := times[..|times| - 1];
            Trips(times) <==> |Recent(times[CooledDown(front)..], times[|times| - 1])| >= FAILURES
    ensures |QueueAfter(times)| < FAILURES
  {
    HandledWindow(times);
  }

  lemma {:induction false} CooldownIsATrip(times: seq<int>, from: nat)
    requires from < CooledDown(times)
    ensures exists k :: from < k <= |times| && Trips(times[..k])
  {
    if Trips(times) {
      assert times[..|times|] == times;
    } else {
      var front := times[..|times| - 1];
      CooldownIsATrip(front, from);
      var k :| from < k <= |front| && Trips(front[..k]);
      assert front[..k] == times[..k];
    }
  }

  /** Ten failures within five minutes never pass without a cooldown. */
  lemma TenFailuresTrip(times: seq<int>, i: nat)
    requires Nondecreasing(times) && i + 10 <= |times|
    requires times[i + 9] - times[i] <= 300_000_000_000
    ensures exists k :: i < k <= i + 10 && Trips(times[..k])
  {
    var prefix := times[..i + FAILURES];
    var front, now := prefix[..|prefix| - 1], prefix[|prefix| - 1];
    var since := CooledDown(front);
    if i < since {
      CooldownIsATrip(front, i);
      var k :| i < k <= |front| && Trips(front[..k]);
      assert front[..k] == times[..k];
    } else {
      TenRecent(prefix, i, since);
      TripsIffWindowFull(prefix);
      assert Trips(times[..i + FAILURES]);
    }
  }

  /** A failure is remembered exactly as long as it is at most five minutes old. */
  lemma {:induction false} RecentMeans(times: seq<int>, now: int, t: int)
    ensures t in Recent(times, now) <==> t in times && now - t <= 300_000_000_000
  {
    if |times| > 0 {
      RecentMeans(times[..|times| - 1], now, t);
      assert times == times[..|times| - 1] + [times[|times| - 1]];
    }
  }

  /** A cooldown always is the tenth failure, or a later one, within five minutes. */
  lemma TripsAreEarned(times: seq<int>)
    requires |times| > 0 && Nondecreasing(times) && Trips(times)
    ensures |times| >= 10 && times[|times| - 1] - times[|times| - 10] <= 300_000_000_000
  {
    var now := times[|times| - 1];
    var since := CooledDown(times[..|times| - 1]);
    TripsIffWindowFull(times);
    RecentIsSuffix(times[since..], now);
    var n := |Recent(times[since..], now)|;
    assert Recent(times[since..], now)[n - 10] == times[|times| - 10];
    RecentMeans(times[since..], now, times[|times| - 10]);
    assert times[|times| - 10] in Recent(times[since..], now);
  }

  /** On ordered times what is recent comes last. */
  lemma {:induction false} RecentIsSuffix(times: seq<int>, now: int)
    requires Nondecreasing(times)
    ensures Recent(times, now) == times[|times| - |Recent(times, now)|..]
  {
    if |times| > 0 {
      var front, last := times[..|times| - 1], times[|times| - 1];
      RecentIsSuffix(front, now);
      if now - last > WINDOW {
        OldAreDropped(times, now);
      } else {
        assert times == front + [last];
      }
    }
  }

  lemma TenRecent(prefix: seq<int>, i: nat, since: nat)
    requires Nondecreasing(prefix) && since <= i && |prefix| == i + FAILURES
             && prefix[|prefix| - 1] - prefix[i] <= WINDOW
    ensures |Recent(prefix[since..], prefix[|prefix| - 1])| >= FAILURES
  {
    var now := prefix[|prefix| - 1];
    assert prefix[since..] == prefix[since..i] + prefix[i..];
    RecentConcat(prefix[since..i], prefix[i..], now);
    AllRecentStay(prefix[i..], now);
  }
}
