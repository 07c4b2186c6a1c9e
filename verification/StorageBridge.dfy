/** The circuit breaker in front of the storage service, with calls made one at
    a time. */
module StorageBridge {
  import opened Wrappers

  const THRESHOLD: int := 5
  const COOLDOWN_MS: int := 30_000

  datatype Breaker = Breaker(failures: int, openUntil: Option<int>)

  const CLOSED := Breaker(0, None)

  /** One call of `request`: when it starts, when its fetch would settle, and how. */
  datatype Call = Call(start: int, finish: int, ok: bool)

  predicate Fetches(b: Breaker, c: Call) {
    b.openUntil.None? || c.start >= b.openUntil.value
  }

  function After(b: Breaker, c: Call): Breaker {
    if !Fetches(b, c) then b
    else if c.ok then CLOSED
    else Breaker(b.failures + 1, if b.failures + 1 >= THRESHOLD then Some(c.finish + COOLDOWN_MS) else None)
  }

  /** The calls of a history that reach the network, and the breaker at its end. */
  function Fetched(b: Breaker, calls: seq<Call>): seq<Call>
    decreases |calls|
  {
    if calls == [] then []
    else (if Fetches(b, calls[0]) then [calls[0]] else []) + Fetched(After(b, calls[0]), calls[1..])
  }

  function Final(b: Breaker, calls: seq<Call>): Breaker
    decreases |calls|
  {
    if calls == [] then b else Final(After(b, calls[0]), calls[1..])
  }

  /** One at a time: every call is over before the next begins. */
  ghost predicate Sequential(calls: seq<Call>) {
    (forall i :: 0 <= i < |calls| ==> calls[i].start <= calls[i].finish)
    && forall i, j :: 0 <= i < j < |calls| ==> calls[i].finish <= calls[j].start
  }

  // ----- the failure count --------------------------------------------------------------------

  /** The length of the run of failures a history of fetches ends with. */
  function Trailing(fetches: seq<Call>): nat {
    if fetches == [] || fetches[|fetches| - 1].ok then 0 else 1 + Trailing(fetches[..|fetches| - 1])
  }

  lemma {:induction false} FinalSnoc(b: Breaker, calls: seq<Call>, c: Call)
    ensures Final(b, calls + [c]) == After(Final(b, calls), c)
    ensures Fetched(b, calls + [c]) == Fetched(b, calls) + if Fetches(Final(b, calls), c) then [c] else []
    decreases |calls|
  {
    if calls == [] {
      assert calls + [c] == [c];
      assert Final(After(b, c), []) == After(b, c);
      assert [c][1..] == [];
    } else {
      FinalSnoc(After(b, calls[0]), calls[1..], c);
      assert (calls + [c])[1..] == calls[1..] + [c];
    }
  }

  /** consecutiveFailures is exactly the trailing run of failed fetches. */
  lemma {:induction false} CountsTrailingFailures(calls: seq<Call>)
    ensures Final(CLOSED, calls).failures == Trailing(Fetched(CLOSED, calls))
    ensures Final(CLOSED, calls).openUntil.Some? <==> Final(CLOSED, calls).failures >= THRESHOLD
    decreases |calls|
  {
    if calls != [] {
      var front, last := calls[..|calls| - 1], calls[|calls| - 1];
      assert calls == front + [last];
      CountsTrailingFailures(front);
      FinalSnoc(CLOSED, front, last);
      if Fetches(Final(CLOSED, front), last) {
        var fetches := Fetched(CLOSED, front) + [last];
        assert fetches[..|fetches| - 1] == Fetched(CLOSED, front);
      } else {
        assert Fetched(CLOSED, calls) == Fetched(CLOSED, front);
      }
    }
  }

  // ----- when a call goes through ---------------------------------------------------------------

  /** An open breaker waits for the cool-down of the last failure. */
  lemma {:induction false} DeadlineIsOfLastFailure(calls: seq<Call>)
    ensures var fetches, b := Fetched(CLOSED, calls), Final(CLOSED, calls);
      b.openUntil.Some? ==> |fetches| > 0 && b.openUntil.value == fetches[|fetches| - 1].finish + COOLDOWN_MS
    decreases |calls|
  {
    if calls != [] {
      var front, last := calls[..|calls| - 1], calls[|calls| - 1];
      assert calls == front + [last];
      DeadlineIsOfLastFailure(front);
      FinalSnoc(CLOSED, front, last);
      if !Fetches(Final(CLOSED, front), last) {
        assert Fetched(CLOSED, calls) == Fetched(CLOSED, front);
      }
    }
  }

  /** After any history, a call reaches the network if and only if fewer than five
      fetches have failed in a row, or the last failure is a cool-down ago: the
      breaker neither lets a call through early nor keeps one out late. */
  lemma GoesThroughIff(calls: seq<Call>, c: Call)
    ensures var fetches := Fetched(CLOSED, calls);
      Fetches(Final(CLOSED, calls), c)
      <==> Trailing(fetches) < 5 || (|fetches| > 0 && c.start >= fetches[|fetches| - 1].finish + 30_000)
  {
    CountsTrailingFailures(calls);
    DeadlineIsOfLastFailure(calls);
  }

  // ----- the pacing -----------------------------------------------------------------------------

  ghost predicate AllFail(fetches: seq<Call>) {
    forall i :: 0 <= i < |fetches| ==> !fetches[i].ok
  }

  /** From an open breaker, fetch number i waits for the cool-down and for i more. */
  lemma {:induction false} OpenBreakerPaces(b: Breaker, calls: seq<Call>, i: nat)
    requires b.failures >= THRESHOLD && b.openUntil.Some? && Sequential(calls)
    requires AllFail(Fetched(b, calls)) && i < |Fetched(b, calls)|
    ensures Fetched(b, calls)[i].start >= b.openUntil.value + COOLDOWN_MS * i
    decreases |calls|
  {
    var c, rest := calls[0], Fetched(After(b, calls[0]), calls[1..]);
    if Fetches(b, c) {
      assert !Fetched(b, calls)[0].ok;
      assert forall k :: 0 <= k < |rest| ==> rest[k] == Fetched(b, calls)[k + 1];
      if i > 0 { OpenBreakerPaces(After(b, c), calls[1..], i - 1); }
    } else {
      assert Fetched(b, calls) == rest;
      OpenBreakerPaces(b, calls[1..], i);
    }
  }

  /** From a closed breaker with n failures behind it, the fetches after the
      fifth failure of the streak are a cool-down apart. */
  lemma {:induction false} StreakPaces(b: Breaker, calls: seq<Call>, k: nat)
    requires 0 <= b.failures < THRESHOLD && b.openUntil.None? && Sequential(calls)
    requires AllFail(Fetched(b, calls)) && THRESHOLD - b.failures <= k < |Fetched(b, calls)|
    ensures Fetched(b, calls)[k].start
            >= Fetched(b, calls)[THRESHOLD - b.failures - 1].finish + COOLDOWN_MS * (k - (THRESHOLD - b.failures) + 1)
    decreases |calls|
  {
    var c, all := calls[0], Fetched(b, calls);
    var next, rest := After(b, c), Fetched(After(b, c), calls[1..]);
    assert all == [c] + rest && !all[0].ok;
    assert all[k] == rest[k - 1];
    assert AllFail(rest) by { assert forall i :: 0 <= i < |rest| ==> rest[i] == all[i + 1]; }
    if b.failures + 1 == THRESHOLD {
      OpenBreakerPaces(next, calls[1..], k - 1);
    } else {
      StreakPaces(next, calls[1..], k - 1);
    }
  }

  ghost function StartedBy(fetches: seq<Call>, t: int): set<int> {
    set i | 0 <= i < |fetches| && fetches[i].start <= t
  }

  /** In a failing streak of any length, at most 5 + floor((t - fifth) / 30000)
      fetches have started by time t, where fifth is when the fifth one failed. */
  lemma StreakIsThrottled(calls: seq<Call>, t: int)
    requires Sequential(calls) && AllFail(Fetched(CLOSED, calls)) && |Fetched(CLOSED, calls)| >= THRESHOLD
    requires t >= Fetched(CLOSED, calls)[THRESHOLD - 1].finish
    ensures |StartedBy(Fetched(CLOSED, calls), t)|
            <= THRESHOLD + (t - Fetched(CLOSED, calls)[THRESHOLD - 1].finish) / COOLDOWN_MS
  {
    var fetches := Fetched(CLOSED, calls);
    var bound := THRESHOLD + (t - fetches[THRESHOLD - 1].finish) / COOLDOWN_MS;
    forall k | k in StartedBy(fetches, t) ensures 0 <= k < bound {
      if k >= THRESHOLD { StreakPaces(CLOSED, calls, k); }
    }
    BelowIsFew(StartedBy(fetches, t), bound);
  }

  lemma {:induction false} BelowIsFew(s: set<int>, n: nat)
    requires forall k :: k in s ==> 0 <= k < n
    ensures |s| <= n
    decreases n
  {
    if n == 0 { assert forall k :: k !in s; assert s == {}; }
    else { BelowIsFew(s - {n - 1}, n - 1); }
  }

  /** No fetch starts within the cool-down of the failure that opened the breaker. */
  lemma {:induction false} NoFetchWhileOpen(b: Breaker, calls: seq<Call>, i: nat)
    requires b.openUntil.Some? && Sequential(calls) && i < |Fetched(b, calls)|
    ensures Fetched(b, calls)[i].start >= b.openUntil.value
    decreases |calls|
  {
    var c, rest := calls[0], Fetched(After(b, calls[0]), calls[1..]);
    if Fetches(b, c) {
      if i > 0 { FetchesAreCalls(After(b, c), calls[1..], i - 1); }
    } else {
      NoFetchWhileOpen(b, calls[1..], i);
    }
  }

  lemma {:induction false} FetchesAreCalls(b: Breaker, calls: seq<Call>, i: nat)
    requires i < |Fetched(b, calls)|
    ensures exists k :: 0 <= k < |calls| && calls[k] == Fetched(b, calls)[i]
    decreases |calls|
  {
    var c, rest := calls[0], Fetched(After(b, calls[0]), calls[1..]);
    if Fetches(b, c) && i == 0 {
      assert calls[0] == Fetched(b, calls)[0];
    } else {
      var j := if Fetches(b, c) then i - 1 else i;
      assert Fetched(b, calls)[i] == rest[j];
      FetchesAreCalls(After(b, c), calls[1..], j);
      var k :| 0 <= k < |calls[1..]| && calls[1..][k] == rest[j];
      assert calls[k + 1] == rest[j];
    }
  }

  // ----- the service --------------------------------------------------------------------------------

  datatype Reply = CircuitOpen | Served | RequestFailed

  class StorageBridgeService {
    var consecutiveFailures: int
    var circuitOpenUntil: Option<int>

    constructor ()
      ensures View() == CLOSED
    {
      consecutiveFailures := 0;
      circuitOpenUntil := None;
    }

    function View(): Breaker
      reads this
    {
      Breaker(consecutiveFailures, circuitOpenUntil)
    }

    /** `ok` is how the fetch settles: a 204, or an ok response with success. */
    method Request(c: Call) returns (reply: Reply)
      modifies this
      ensures View() == After(old(View()), c)
      ensures reply == CircuitOpen <==> !Fetches(old(View()), c)
      ensures reply == Served ==> c.ok && consecutiveFailures == 0 && circuitOpenUntil == None
      ensures reply == RequestFailed ==> !c.ok && consecutiveFailures == old(consecutiveFailures) + 1
    {
      if circuitOpenUntil != None {
        if c.start < circuitOpenUntil.value {
          return CircuitOpen;
        }
        circuitOpenUntil := None;
      }
      if c.ok {
        consecutiveFailures := 0;
        return Served;
      }
      consecutiveFailures := consecutiveFailures + 1;
      if consecutiveFailures >= THRESHOLD {
        circuitOpenUntil := Some(c.finish + COOLDOWN_MS);
      }
      return RequestFailed;
    }
  }
}
