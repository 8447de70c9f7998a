/** The circuit breaker that guards the CRM client: `CircuitBreaker` with the client's settings.
    Time is in milliseconds; a call settles at one instant. */
module CircuitBreaker {
  import opened Prelude

  const MONITORING_PERIOD := 60000
  const MINIMUM_THROUGHPUT := 10

  datatype State = Closed | Open | HalfOpen

  /** The two settings the client passes; the rest are the class's defaults. */
  datatype Config = Config(failureThreshold: nat, recoveryTimeout: nat)

  const CLIENT_CONFIG := Config(5, 60000)

  /** One settled call, as the sliding window stores it. */
  datatype Mark = Mark(at: int, failed: bool)

  datatype Breaker = Breaker(
    state: State,
    failureCount: nat,
    successCount: nat,
    consecutive: nat,
    nextRetry: Option<int>,
    window: seq<Mark>)

  const INITIAL := Breaker(Closed, 0, 0, 0, None, [])

  function Failures(window: seq<Mark>): nat {
    if window == [] then 0 else (if window[0].failed then 1 else 0) + Failures(window[1..])
  }

  /** `shouldOpenCircuit`: the expected failure rate is one half. */
  predicate ShouldOpen(c: Config, consecutive: nat, window: seq<Mark>) {
    || consecutive >= c.failureThreshold
    || (|window| >= MINIMUM_THROUGHPUT && 2 * Failures(window) >= |window|)
  }

  function Cleanup(now: int, window: seq<Mark>): seq<Mark> {
    if window == [] then []
    else if window[0].at > now - MONITORING_PERIOD then [window[0]] + Cleanup(now, window[1..])
    else Cleanup(now, window[1..])
  }

  /** `onSuccess` and `onFailure`. */
  function Settle(c: Config, b: Breaker, m: Mark): Breaker {
    var window := b.window + [m];
    if m.failed then
      var opens := ShouldOpen(c, b.consecutive + 1, window);
      Breaker(if opens then Open else b.state, b.failureCount + 1, b.successCount, b.consecutive + 1,
              if opens then Some(m.at + c.recoveryTimeout) else b.nextRetry, Cleanup(m.at, window))
    else
      Breaker(if b.state == HalfOpen then Closed else b.state, b.failureCount, b.successCount + 1, 0,
              b.nextRetry, Cleanup(m.at, window))
  }

  /** The check that opens `execute`: whether the call is let through, and the state it leaves. */
  function Admit(b: Breaker, now: int): (bool, Breaker) {
    if b.state != Open then (true, b)
    else if b.nextRetry.None? || now >= b.nextRetry.value then (true, b.(state := HalfOpen))
    else (false, b)
  }

  class CircuitBreaker {
    const config: Config
    var state: State
    var failureCount: nat
    var successCount: nat
    var consecutiveFailures: nat
    var nextRetryTime: Option<int>
    var requestWindow: seq<Mark>

    function Value(): Breaker
      reads this
    {
      Breaker(state, failureCount, successCount, consecutiveFailures, nextRetryTime, requestWindow)
    }

    constructor (config: Config)
      ensures this.config == config && Value() == INITIAL
    {
      this.config := config;
      state, failureCount, successCount, consecutiveFailures := Closed, 0, 0, 0;
      nextRetryTime, requestWindow := None, [];
    }

    method Enter(now: int) returns (admitted: bool)
      modifies this
      ensures (admitted, Value()) == Admit(old(Value()), now)
    {
      admitted := true;
      if state == Open {
        if nextRetryTime.None? || now >= nextRetryTime.value {
          state := HalfOpen;
        } else {
          admitted := false;
        }
      }
    }

    method OnSuccess(now: int)
      modifies this
      ensures Value() == Settle(config, old(Value()), Mark(now, false))
    {
      successCount := successCount + 1;
      consecutiveFailures := 0;
      requestWindow := requestWindow + [Mark(now, false)];
      if state == HalfOpen { state := Closed; }
      requestWindow := Cleanup(now, requestWindow);
    }

    method OnFailure(now: int)
      modifies this
      ensures Value() == Settle(config, old(Value()), Mark(now, true))
    {
      failureCount := failureCount + 1;
      consecutiveFailures := consecutiveFailures + 1;
      requestWindow := requestWindow + [Mark(now, true)];
      if ShouldOpen(config, consecutiveFailures, requestWindow) {
        state := Open;
        nextRetryTime := Some(now + config.recoveryTimeout);
      }
      requestWindow := Cleanup(now, requestWindow);
    }
  }

  // ---------------------------------------------------------------- what the state says about history

  /** A breaker that has seen exactly the calls in `h`, starting closed. */
  function Replay(c: Config, h: seq<Mark>): Breaker
    decreases |h|
  {
    if h == [] then INITIAL else Settle(c, Replay(c, h[..|h| - 1]), h[|h| - 1])
  }

  predicate InOrder(h: seq<Mark>) {
    forall i, j :: 0 <= i < j < |h| ==> h[i].at <= h[j].at
  }

  /** How many calls at the end of `h` failed in a row. */
  function Trailing(h: seq<Mark>): nat
    decreases |h|
  {
    if h == [] || !h[|h| - 1].failed then 0 else 1 + Trailing(h[..|h| - 1])
  }

  /** The calls of `h` that settled within the monitoring period before its last call. */
  function Recent(h: seq<Mark>): seq<Mark> {
    if h == [] then [] else Cleanup(h[|h| - 1].at, h)
  }

  lemma {:induction false} CleanupTwice(early: int, late: int, h: seq<Mark>)
    requires early <= late
    ensures Cleanup(late, Cleanup(early, h)) == Cleanup(late, h)
  {
    if h != [] {
      CleanupTwice(early, late, h[1..]);
      if h[0].at > early - MONITORING_PERIOD {
        assert Cleanup(early, h) == [h[0]] + Cleanup(early, h[1..]);
        assert Cleanup(early, h)[1..] == Cleanup(early, h[1..]);
      }
    }
  }

  lemma {:induction false} CleanupConcat(now: int, a: seq<Mark>, b: seq<Mark>)
    ensures Cleanup(now, a + b) == Cleanup(now, a) + Cleanup(now, b)
  {
    if a == [] {
      assert a + b == b;
    } else {
      assert (a + b)[1..] == a[1..] + b;
      CleanupConcat(now, a[1..], b);
    }
  }

  lemma {:induction false} FailuresConcat(a: seq<Mark>, b: seq<Mark>)
    ensures Failures(a + b) == Failures(a) + Failures(b)
  {
    if a == [] {
      assert a + b == b;
    } else {
      assert (a + b)[1..] == a[1..] + b;
      FailuresConcat(a[1..], b);
    }
  }

  /** Of calls in order, the recent ones are an end of the history: those that settled less than a minute
      before the last. */
  lemma {:induction false} CleanupIs(now: int, h: seq<Mark>) returns (from: nat)
    requires InOrder(h)
    ensures from <= |h| && Cleanup(now, h) == h[from..]
    ensures forall i :: 0 <= i < |h| ==> (i < from <==> now - h[i].at >= 60000)
  {
    from := 0;
    if h != [] {
      var rest := h[1..];
      assert forall i :: 0 <= i < |rest| ==> rest[i] == h[i + 1];
      var n := CleanupIs(now, rest);
      if now - h[0].at >= 60000 {
        from := n + 1;
        assert h[from..] == rest[n..];
      } else {
        assert forall i :: 0 <= i < |h| ==> h[0].at <= h[i].at;
        assert [h[0]] + rest == h;
      }
    }
  }

  lemma RecentIs(h: seq<Mark>) returns (from: nat)
    requires InOrder(h) && h != []
    ensures from < |h| && Recent(h) == h[from..]
    ensures forall i :: 0 <= i < |h| ==> (i < from <==> h[|h| - 1].at - h[i].at >= 60000)
  {
    from := CleanupIs(h[|h| - 1].at, h);
  }

  /** Cleaning after each call keeps exactly what one final cleaning of the history would keep. */
  lemma RecentSnoc(h: seq<Mark>, m: Mark)
    requires h != [] ==> h[|h| - 1].at <= m.at
    ensures Cleanup(m.at, Recent(h) + [m]) == Recent(h + [m])
  {
    CleanupConcat(m.at, h, [m]);
    CleanupConcat(m.at, Recent(h), [m]);
    if h != [] { CleanupTwice(h[|h| - 1].at, m.at, h); }
  }

  /** The counters and the window are functions of the history alone: the consecutive count is the
      trailing run of failures, the window is the recent calls, the totals count the outcomes. */
  lemma {:induction false} StateMirrorsHistory(c: Config, h: seq<Mark>)
    requires InOrder(h)
    ensures var b := Replay(c, h);
            && b.consecutive == Trailing(h)
            && b.window == Recent(h)
            && b.failureCount == Failures(h)
            && b.successCount == |h| - Failures(h)
            && b.state != HalfOpen
    decreases |h|
  {
    if h != [] {
      var init, m := h[..|h| - 1], h[|h| - 1];
      StateMirrorsHistory(c, init);
      assert h == init + [m];
      FailuresConcat(init, [m]);
      RecentSnoc(init, m);
    }
  }

  /** A closed circuit opens on a call exactly when the call fails and either the trailing run of
      failures reaches the threshold, or at least ten recent calls are half failures. The window
      was last cleaned when the previous call settled, so "recent" is measured from there. */
  lemma OpensIff(c: Config, h: seq<Mark>, m: Mark)
    requires InOrder(h + [m]) && Replay(c, h).state == Closed
    ensures Replay(c, h + [m]).state == Open <==>
              m.failed && (Trailing(h) + 1 >= c.failureThreshold
                           || (|Recent(h) + [m]| >= 10 && 2 * Failures(Recent(h) + [m]) >= |Recent(h) + [m]|))
  {
    assert InOrder(h) by {
      forall i, j | 0 <= i < j < |h| ensures h[i].at <= h[j].at {
        assert (h + [m])[i].at <= (h + [m])[j].at;
      }
    }
    StateMirrorsHistory(c, h);
    assert (h + [m])[..|h|] == h;
  }

  /** `n` rounds of a success followed by a failure, all at one time. */
  function Rounds(t: int, n: nat): seq<Mark> {
    if n == 0 then [] else Rounds(t, n - 1) + [Mark(t, false)] + [Mark(t, true)]
  }

  lemma {:induction false} RoundsKept(t: int, n: nat)
    ensures |Rounds(t, n)| == 2 * n && Failures(Rounds(t, n)) == n
    ensures forall m :: m in Rounds(t, n) ==> m.at == t
  {
    if n > 0 {
      RoundsKept(t, n - 1);
      FailuresConcat(Rounds(t, n - 1), [Mark(t, false)]);
      FailuresConcat(Rounds(t, n - 1) + [Mark(t, false)], [Mark(t, true)]);
    }
  }

  lemma {:induction false} KeepsAll(t: int, h: seq<Mark>)
    requires forall m :: m in h ==> m.at == t
    ensures Cleanup(t, h) == h
  {
    if h != [] { KeepsAll(t, h[1..]); }
  }

  lemma ReplaySnoc(c: Config, h: seq<Mark>, m: Mark)
    ensures Replay(c, h + [m]) == Settle(c, Replay(c, h), m)
  {
    assert (h + [m])[..|h|] == h;
  }

  /** One success at the time of everything in the window. */
  lemma SuccessAtOnce(c: Config, b: Breaker, t: int)
    requires forall m :: m in b.window ==> m.at == t
    ensures var b' := Settle(c, b, Mark(t, false));
            && b'.consecutive == 0 && b'.window == b.window + [Mark(t, false)]
            && (b.state != HalfOpen ==> b'.state == b.state)
  {
    KeepsAll(t, b.window + [Mark(t, false)]);
  }

  /** And one failure after a success. */
  lemma FailureAtOnce(c: Config, b: Breaker, t: int)
    requires c.failureThreshold > 1 && b.consecutive == 0 && forall m :: m in b.window ==> m.at == t
    ensures var b', w := Settle(c, b, Mark(t, true)), b.window + [Mark(t, true)];
            && b'.consecutive == 1 && b'.window == w
            && b'.state == if |w| >= 10 && 2 * Failures(w) >= |w| then Open else b.state
  {
    KeepsAll(t, b.window + [Mark(t, true)]);
  }

  /** One more round after `n` rounds. */
  lemma RoundOnce(c: Config, b: Breaker, t: int, n: nat)
    requires c.failureThreshold > 1 && b.state != HalfOpen && b.window == Rounds(t, n)
    ensures var b' := Settle(c, Settle(c, b, Mark(t, false)), Mark(t, true));
            && b'.consecutive == 1 && b'.window == Rounds(t, n + 1)
            && b'.state == if n >= 4 then Open else b.state
  {
    RoundsKept(t, n);
    RoundsKept(t, n + 1);
    SuccessAtOnce(c, b, t);
    FailureAtOnce(c, Settle(c, b, Mark(t, false)), t);
  }

  lemma ReplayRound(c: Config, t: int, n: nat)
    ensures Replay(c, Rounds(t, n + 1)) == Settle(c, Settle(c, Replay(c, Rounds(t, n)), Mark(t, false)), Mark(t, true))
  {
    ReplaySnoc(c, Rounds(t, n), Mark(t, false));
    ReplaySnoc(c, Rounds(t, n) + [Mark(t, false)], Mark(t, true));
  }

  /** The documented rule, "five consecutive failures", is not the rule: calls that alternate between
      success and failure, never two failures in a row, open the circuit with the fifth failure. */
  lemma {:induction false} AlternatingCallsOpen(c: Config, t: int, n: nat)
    requires c.failureThreshold > 1
    ensures var b := Replay(c, Rounds(t, n));
            && b.consecutive <= 1 && b.window == Rounds(t, n)
            && b.state == if n < 5 then Closed else Open
  {
    if n > 0 {
      AlternatingCallsOpen(c, t, n - 1);
      RoundOnce(c, Replay(c, Rounds(t, n - 1)), t, n - 1);
      ReplayRound(c, t, n - 1);
    }
  }

  /** As documented, five failures in a row open the client's circuit, whatever came before them. */
  lemma {:induction false} FiveInARowOpen(h: seq<Mark>)
    requires InOrder(h) && |h| >= 5 && forall i :: |h| - 5 <= i < |h| ==> h[i].failed
    ensures Replay(CLIENT_CONFIG, h).state == Open
  {
    var init, m := h[..|h| - 1], h[|h| - 1];
    assert h == init + [m];
    StateMirrorsHistory(CLIENT_CONFIG, init);
    FailuresTrail(init, 4);
    if Replay(CLIENT_CONFIG, init).state == Closed { OpensIff(CLIENT_CONFIG, init, m); }
  }

  lemma {:induction false} FailuresTrail(h: seq<Mark>, n: nat)
    requires n <= |h| && forall i :: |h| - n <= i < |h| ==> h[i].failed
    ensures Trailing(h) >= n
    decreases n
  {
    if n > 0 { FailuresTrail(h[..|h| - 1], n - 1); }
  }

  /** And no fewer than five do, if nothing else has happened. */
  lemma {:induction false} FourStayClosed(h: seq<Mark>)
    requires |h| <= 4
    ensures Replay(CLIENT_CONFIG, h).state == Closed && Replay(CLIENT_CONFIG, h).consecutive <= |h|
    ensures |Replay(CLIENT_CONFIG, h).window| <= |h|
    decreases |h|
  {
    if h != [] {
      FourStayClosed(h[..|h| - 1]);
      var b := Replay(CLIENT_CONFIG, h[..|h| - 1]);
      CleanupShortens(h[|h| - 1].at, b.window + [h[|h| - 1]]);
    }
  }

  lemma {:induction false} CleanupShortens(now: int, h: seq<Mark>)
    ensures |Cleanup(now, h)| <= |h|
  {
    if h != [] { CleanupShortens(now, h[1..]); }
  }

  /** The call that opens the client's circuit closes it to others for a minute; the first call after
      that goes through on trial. */
  lemma RefusedForAMinute(b: Breaker, m: Mark, now: int)
    requires b.state != Open && Settle(CLIENT_CONFIG, b, m).state == Open
    ensures var (admitted, b') := Admit(Settle(CLIENT_CONFIG, b, m), now);
            && (admitted <==> now >= m.at + 60000)
            && b'.state == if admitted then HalfOpen else Open
  {
  }

  /** On trial one success closes the circuit. A failure opens it again only if the failures in a row or
      the recent calls say so: a circuit that was opened by its failure rate may stay on trial. */
  lemma TrialDecides(c: Config, b: Breaker, m: Mark)
    requires b.state == HalfOpen
    ensures !m.failed ==> Settle(c, b, m).state == Closed && Settle(c, b, m).consecutive == 0
    ensures m.failed ==>
              var window := b.window + [m];
              Settle(c, b, m).state ==
                if b.consecutive + 1 >= c.failureThreshold || (|window| >= 10 && 2 * Failures(window) >= |window|)
                then Open else HalfOpen
  {
  }

  /** Calls that all succeed leave a closed circuit closed and count no failure. */
  lemma {:induction false} SuccessesNeverOpen(c: Config, h: seq<Mark>)
    requires forall m :: m in h ==> !m.failed
    ensures Replay(c, h).state == Closed && Replay(c, h).failureCount == 0 && Replay(c, h).consecutive == 0
    decreases |h|
  {
    if h != [] { SuccessesNeverOpen(c, h[..|h| - 1]); }
  }
}
