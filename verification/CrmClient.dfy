/** The generic request path of the CRM client: cache, breaker pre-check, the retry loop inside the
    breaker, and the mapping of the final response. Replies and their latencies come from outside;
    time is in milliseconds. */
module CrmClient {
  import opened Prelude
  import B = CircuitBreaker

  /** The breaker's own limit on one guarded operation, retries and waits included. */
  const OPERATION_TIMEOUT := 300000

  /** How one `fetch` ends, `took` milliseconds after it is sent. `Retry-After` is absent when the
      header is missing or not a finite number. */
  datatype Reply =
    | Status(code: int, retryAfter: Option<int>, took: nat)
    | NetworkError(took: nat)
    | ClientTimeout(took: nat)

  datatype Reason = Network | Timeout | ServerError | RateLimited | CircuitOpen

  /** The replies that are retried and that count against the CRM. */
  predicate Breaking(r: Reply) {
    !r.Status? || r.code >= 500 || r.code == 429
  }

  function ReasonOf(r: Reply): Reason
    requires Breaking(r)
  {
    match r
    case NetworkError(_) => Network
    case ClientTimeout(_) => Timeout
    case Status(code, _, _) => if code >= 500 then ServerError else RateLimited
  }

  /** The longest delay that the platform's timer takes. */
  const TIMER_MAX := 2147483647

  /** When a timer fires: a delay out of its range counts as one millisecond. */
  function Timer(ms: int): nat { if 1 <= ms <= TIMER_MAX then ms else 1 }

  /** The pause before the next attempt: `Retry-After` for a 429, else the backoff schedule. */
  function WaitAfter(r: Reply, backoff: nat): nat {
    Timer(if r.Status? && r.code == 429 && r.retryAfter.Some? then r.retryAfter.value * 1000 else backoff)
  }

  /** The instant, counted from the start, at which the `n`-th reply has arrived. */
  function Arrival(replies: seq<Reply>, backoff: seq<nat>, n: nat): nat
    requires n <= |replies| && n <= |backoff| + 1
  {
    if n == 0 then 0
    else if n == 1 then replies[0].took
    else Arrival(replies, backoff, n - 1) + WaitAfter(replies[n - 2], backoff[n - 2]) + replies[n - 1].took
  }

  /** The status of the last HTTP answer among the first `n` replies. */
  function LastStatus(replies: seq<Reply>, n: nat): Option<int>
    requires n <= |replies|
  {
    if n == 0 then None
    else if replies[n - 1].Status? then Some(replies[n - 1].code)
    else LastStatus(replies, n - 1)
  }

  /** How the guarded operation settles. `Late` is the breaker's own timeout. */
  datatype Settled =
    | Returned(code: int)
    | Broke(reason: Reason)
    | Late(reason: Reason)

  predicate AllBreaking(replies: seq<Reply>, n: nat)
    requires n <= |replies|
  {
    forall i :: 0 <= i < n ==> Breaking(replies[i])
  }

  /** The loop inside `circuitBreaker.execute`. The first answer that is not breaking is returned;
      when every attempt breaks, the last one gives the reason; nothing after the breaker's limit
      counts. */
  method Transport(replies: seq<Reply>, backoff: seq<nat>)
    returns (settled: Settled, attempts: nat, lastStatus: Option<int>, elapsed: nat)
    requires |replies| == |backoff| + 1
    ensures attempts <= |replies| && (!settled.Late? ==> attempts >= 1)
    ensures settled.Returned? ==>
              && AllBreaking(replies, attempts - 1) && !Breaking(replies[attempts - 1])
              && settled.code == replies[attempts - 1].code
              && elapsed == Arrival(replies, backoff, attempts) <= OPERATION_TIMEOUT
    ensures settled.Broke? ==>
              && attempts == |replies| && AllBreaking(replies, attempts)
              && settled.reason == ReasonOf(replies[attempts - 1])
              && elapsed == Arrival(replies, backoff, attempts) <= OPERATION_TIMEOUT
    ensures settled.Late? ==>
              && attempts < |replies| && AllBreaking(replies, attempts)
              && settled.reason == (if attempts == 0 then Network else ReasonOf(replies[attempts - 1]))
              && Arrival(replies, backoff, attempts) <= OPERATION_TIMEOUT
              && Arrival(replies, backoff, attempts + 1) > OPERATION_TIMEOUT == elapsed
    ensures !settled.Returned? ==> lastStatus == LastStatus(replies, attempts)
  {
    var maxRetries := |backoff|;
    var attempt := 0;
    var sentAt := 0;
    var reason := Network;
    lastStatus := None;
    while true
      invariant attempt <= maxRetries
      invariant AllBreaking(replies, attempt)
      invariant lastStatus == LastStatus(replies, attempt)
      invariant reason == if attempt == 0 then Network else ReasonOf(replies[attempt - 1])
      invariant sentAt + replies[attempt].took == Arrival(replies, backoff, attempt + 1)
      invariant Arrival(replies, backoff, attempt) <= OPERATION_TIMEOUT
      decreases maxRetries - attempt
    {
      var reply := replies[attempt];
      var arrived := sentAt + reply.took;
      if arrived > OPERATION_TIMEOUT {
        return Late(reason), attempt, lastStatus, OPERATION_TIMEOUT;
      }
      if !Breaking(reply) {
        return Returned(reply.code), attempt + 1, lastStatus, arrived;
      }
      reason := ReasonOf(reply);
      if reply.Status? { lastStatus := Some(reply.code); }
      if attempt == maxRetries {
        return Broke(reason), attempt + 1, lastStatus, arrived;
      }
      sentAt := arrived + WaitAfter(reply, backoff[attempt]);
      attempt := attempt + 1;
    }
  }

  /** The last status is that of the last reply that had one. */
  lemma {:induction false} LastStatusIs(replies: seq<Reply>, n: nat)
    requires n <= |replies|
    ensures LastStatus(replies, n).None? <==> forall i :: 0 <= i < n ==> !replies[i].Status?
    ensures forall i :: 0 <= i < n && replies[i].Status? && (forall j :: i < j < n ==> !replies[j].Status?) ==>
              LastStatus(replies, n) == Some(replies[i].code)
  {
    if n > 0 { LastStatusIs(replies, n - 1); }
  }

  /** The `n`-th reply is the first that is not breaking. */
  predicate AnswerAt(replies: seq<Reply>, n: nat) {
    1 <= n <= |replies| && AllBreaking(replies, n - 1) && !Breaking(replies[n - 1])
  }

  /** The CRM answered: some attempt got a response outside 5xx and 429 within the breaker's limit. */
  predicate Answered(replies: seq<Reply>, backoff: seq<nat>)
    requires |replies| == |backoff| + 1
  {
    exists n :: 1 <= n <= |replies| && AnswerAt(replies, n) && Arrival(replies, backoff, n) <= OPERATION_TIMEOUT
  }

  lemma ArrivalMonotone(replies: seq<Reply>, backoff: seq<nat>, m: nat, n: nat)
    requires m <= n <= |replies| && |replies| == |backoff| + 1
    ensures Arrival(replies, backoff, m) <= Arrival(replies, backoff, n)
  {
    if m < n { ArrivalMonotone(replies, backoff, m, n - 1); }
  }

  /** Any settling the loop's contract allows is a return exactly when the CRM answered. */
  lemma ReturnedMeansAnswered(replies: seq<Reply>, backoff: seq<nat>, late: bool, n: nat)
    requires |replies| == |backoff| + 1 && n <= |replies| && AllBreaking(replies, n)
    requires late ==> n < |replies| && Arrival(replies, backoff, n + 1) > OPERATION_TIMEOUT
    requires !late ==> n == |replies|
    ensures !Answered(replies, backoff)
  {
    if Answered(replies, backoff) {
      var k :| 1 <= k <= |replies| && AnswerAt(replies, k) && Arrival(replies, backoff, k) <= OPERATION_TIMEOUT;
      if late && k > n { ArrivalMonotone(replies, backoff, n + 1, k); }
    }
  }

  // ---------------------------------------------------------------- the request

  datatype Verb = Get | Post | Patch | Delete

  datatype Result<T> =
    | Data(value: T)
    | Nothing
    | Unavailable(reason: Reason, lastStatus: Option<int>)
    | NotFound
    | Unauthorized
    | BadRequest(code: int)

  /** The cache key hashes the path and the token; the hash is taken as injective. */
  datatype CacheKey = CacheKey(path: string, token: Option<string>)

  predicate IsOk(code: int) { 200 <= code <= 299 }

  function MapResponse<T>(verb: Verb, code: int, body: T): Result<T> {
    if IsOk(code) then (if code == 204 then Nothing else Data(body))
    else if code == 404 then (if verb == Get then Nothing else NotFound)
    else if code == 401 then Unauthorized
    else BadRequest(code)
  }

  class CrmClient<T> {
    const breaker: B.CircuitBreaker
    const backoff: seq<nat>
    var cache: map<CacheKey, T>

    constructor (backoff: seq<nat>)
      ensures fresh(breaker) && breaker.config == B.CLIENT_CONFIG && breaker.Value() == B.INITIAL
      ensures this.backoff == backoff && cache == map[]
    {
      this.breaker := new B.CircuitBreaker(B.CLIENT_CONFIG);
      this.backoff := backoff;
      cache := map[];
    }

    /** `requestGeneric`: `replies` is what the CRM would send to each attempt and `body` the decoded
        payload of a success. The breaker hears of the request exactly when it was sent, and hears
        a failure exactly when the CRM did not answer. */
    method RequestGeneric(verb: Verb, key: CacheKey, noCache: bool, replies: seq<Reply>, body: T, now: int)
      returns (result: Result<T>, attempts: nat, elapsed: nat)
      requires |replies| == |backoff| + 1
      modifies this, breaker
      ensures var cached := verb == Get && !noCache && key in old(cache);
              var open := old(breaker.state) == B.Open;
              && (cached ==> result == Data(old(cache)[key]))
              && (!cached && open ==> result == Unavailable(CircuitOpen, None))
              && (cached || open ==>
                    attempts == 0 && cache == old(cache) && breaker.Value() == old(breaker.Value()))
              && (!cached && !open ==>
                    breaker.Value() == B.Settle(breaker.config, old(breaker.Value()),
                                                B.Mark(now + elapsed, !Answered(replies, backoff))))
      ensures attempts <= |replies|
      ensures forall i :: 0 <= i < attempts - 1 && replies[i].Status? ==> replies[i].code >= 500 || replies[i].code == 429
      ensures attempts > 0 && Answered(replies, backoff) ==>
                replies[attempts - 1].Status? &&
                var code := replies[attempts - 1].code;
                && code < 500 && code != 429
                && (result == Data(body) <==> 200 <= code <= 299 && code != 204)
                && (result == Nothing <==> code == 204 || (code == 404 && verb == Get))
                && (result == NotFound <==> code == 404 && verb != Get)
                && (result == Unauthorized <==> code == 401)
                && ((code < 200 || code > 299) && code != 401 && code != 404 ==> result == BadRequest(code))
      ensures attempts > 0 && !Answered(replies, backoff) ==>
                && (replies[attempts - 1].Status? ==> replies[attempts - 1].code >= 500 || replies[attempts - 1].code == 429)
                && result == Unavailable(
                               match replies[attempts - 1]
                               case NetworkError(_) => Network
                               case ClientTimeout(_) => Timeout
                               case Status(code, _, _) => if code == 429 then RateLimited else ServerError,
                               LastStatus(replies, attempts))
      ensures attempts == 0 && old(breaker.state) != B.Open && !(verb == Get && !noCache && key in old(cache)) ==>
                result == Unavailable(Network, None) && elapsed == OPERATION_TIMEOUT
      ensures cache == if verb == Get && !noCache && attempts > 0 && result.Data?
                       then old(cache)[key := body] else old(cache)
    {
      attempts, elapsed := 0, 0;
      var cacheable := verb == Get && !noCache;
      if cacheable && key in cache {
        return Data(cache[key]), 0, 0;
      }
      if breaker.state == B.Open {
        return Unavailable(CircuitOpen, None), 0, 0;
      }
      var admitted := breaker.Enter(now);
      var settled, n, lastStatus, spent := Transport(replies, backoff);
      attempts, elapsed := n, spent;
      if settled.Returned? {
        assert AnswerAt(replies, n) && Answered(replies, backoff);
        breaker.OnSuccess(now + elapsed);
        result := MapResponse(verb, settled.code, body);
        if cacheable && result.Data? { cache := cache[key := body]; }
      } else {
        ReturnedMeansAnswered(replies, backoff, settled.Late?, n);
        breaker.OnFailure(now + elapsed);
        result := Unavailable(settled.reason, lastStatus);
      }
    }
  }

  // ---------------------------------------------------------------- whole runs

  /** What reaches the client, and when: a request begins, or one that was sent settles. The breaker is
      shared, so any number of requests may be in flight at once. */
  datatype Event =
    | Begin(id: nat, replies: seq<Reply>, at: int)
    | End(id: nat, at: int)

  /** The shared breaker and the requests in flight, each with the replies it is going to get. */
  datatype Traffic = Traffic(breaker: B.Breaker, inFlight: map<nat, seq<Reply>>)

  const QUIET := Traffic(B.INITIAL, map[])

  predicate Possible(backoff: seq<nat>, t: Traffic, e: Event) {
    match e
    case Begin(id, replies, _) => id !in t.inFlight && |replies| == |backoff| + 1
    case End(id, _) => id in t.inFlight && |t.inFlight[id]| == |backoff| + 1
  }

  /** The pre-check and the entry of `execute` run without a pause between them. */
  function Step(c: B.Config, backoff: seq<nat>, t: Traffic, e: Event): Traffic
    requires Possible(backoff, t, e)
  {
    match e
    case Begin(id, replies, at) =>
      if t.breaker.state == B.Open then t
      else
        var (admitted, b) := B.Admit(t.breaker, at);
        if admitted then Traffic(b, t.inFlight[id := replies]) else Traffic(b, t.inFlight)
    case End(id, at) =>
      Traffic(B.Settle(c, t.breaker, B.Mark(at, !Answered(t.inFlight[id], backoff))), t.inFlight - {id})
  }

  predicate CanRun(c: B.Config, backoff: seq<nat>, t: Traffic, run: seq<Event>)
    decreases |run|, 0
  {
    run == [] ||
    (CanRun(c, backoff, t, run[..|run| - 1])
     && Possible(backoff, Run(c, backoff, t, run[..|run| - 1]), run[|run| - 1]))
  }

  function Run(c: B.Config, backoff: seq<nat>, t: Traffic, run: seq<Event>): Traffic
    requires CanRun(c, backoff, t, run)
    decreases |run|, 1
  {
    if run == [] then t else Step(c, backoff, Run(c, backoff, t, run[..|run| - 1]), run[|run| - 1])
  }

  /** The requests that have settled, in the order in which they did. */
  function Settlements(c: B.Config, backoff: seq<nat>, t: Traffic, run: seq<Event>): seq<B.Mark>
    requires CanRun(c, backoff, t, run)
    decreases |run|
  {
    if run == [] then []
    else
      var init, e := run[..|run| - 1], run[|run| - 1];
      Settlements(c, backoff, t, init)
      + if e.End? then [B.Mark(e.at, !Answered(Run(c, backoff, t, init).inFlight[e.id], backoff))] else []
  }

  predicate InTime(run: seq<Event>) {
    forall i, j :: 0 <= i < j < |run| ==> run[i].at <= run[j].at
  }

  /** A single request, as `RequestGeneric` makes it, is a begin and its end. */
  lemma OneRequest(c: B.Config, backoff: seq<nat>, b: B.Breaker, id: nat, replies: seq<Reply>, sent: int, settled: int)
    requires |replies| == |backoff| + 1 && b.state != B.Open
    ensures var t := Traffic(b, map[]);
            && Possible(backoff, t, Begin(id, replies, sent))
            && var t' := Step(c, backoff, t, Begin(id, replies, sent));
            && Possible(backoff, t', End(id, settled))
            && Step(c, backoff, t', End(id, settled)) ==
                 Traffic(B.Settle(c, b, B.Mark(settled, !Answered(replies, backoff))), map[])
  {
  }

  /** Once the circuit is open it stays open, over every interleaving and however much time passes: the
      pre-check refuses every request before `execute` could move the breaker to half-open, so nothing
      is sent, and the requests that were in flight cannot close it whatever becomes of them. With
      nothing in flight the breaker does not change at all. */
  lemma {:induction false} OpenIsForever(c: B.Config, backoff: seq<nat>, t: Traffic, run: seq<Event>)
    requires CanRun(c, backoff, t, run) && t.breaker.state == B.Open
    ensures var t' := Run(c, backoff, t, run);
            && t'.breaker.state == B.Open
            && (forall id :: id in t'.inFlight ==> id in t.inFlight && t'.inFlight[id] == t.inFlight[id])
            && (t.inFlight == map[] ==> t' == t)
    decreases |run|
  {
    if run != [] { OpenIsForever(c, backoff, t, run[..|run| - 1]); }
  }

  lemma {:induction false} NeverHalfOpen(c: B.Config, backoff: seq<nat>, t: Traffic, run: seq<Event>)
    requires CanRun(c, backoff, t, run) && t.breaker.state != B.HalfOpen
    ensures Run(c, backoff, t, run).breaker.state != B.HalfOpen
    decreases |run|
  {
    if run != [] { NeverHalfOpen(c, backoff, t, run[..|run| - 1]); }
  }

  /** The breaker is a function of what has settled, in that order, and of nothing else: requests in
      flight and requests refused leave no trace. */
  lemma {:induction false} BreakerReplaysSettlements(c: B.Config, backoff: seq<nat>, run: seq<Event>)
    requires CanRun(c, backoff, QUIET, run)
    ensures Run(c, backoff, QUIET, run).breaker == B.Replay(c, Settlements(c, backoff, QUIET, run))
    decreases |run|
  {
    if run != [] {
      var init, e := run[..|run| - 1], run[|run| - 1];
      BreakerReplaysSettlements(c, backoff, init);
      NeverHalfOpen(c, backoff, QUIET, init);
      if e.End? {
        var m := B.Mark(e.at, !Answered(Run(c, backoff, QUIET, init).inFlight[e.id], backoff));
        B.ReplaySnoc(c, Settlements(c, backoff, QUIET, init), m);
      } else {
        assert Settlements(c, backoff, QUIET, run) == Settlements(c, backoff, QUIET, init);
      }
    }
  }

  lemma {:induction false} SettlementsInOrder(c: B.Config, backoff: seq<nat>, t: Traffic, run: seq<Event>)
    requires CanRun(c, backoff, t, run) && InTime(run)
    ensures var h := Settlements(c, backoff, t, run);
            B.InOrder(h) && (h != [] ==> run != [] && h[|h| - 1].at <= run[|run| - 1].at)
    decreases |run|
  {
    if run != [] { SettlementsInOrder(c, backoff, t, run[..|run| - 1]); }
  }

  /** The call that settles as `m` after `h` justifies opening: it went unanswered, and so did the last
      `failureThreshold` settled calls, or half of at least ten recent ones. */
  predicate Earned(c: B.Config, h: seq<B.Mark>, m: B.Mark) {
    var window := B.Recent(h) + [m];
    m.failed
    && (B.Trailing(h) + 1 >= c.failureThreshold || (|window| >= 10 && 2 * B.Failures(window) >= |window|))
  }

  lemma {:induction false} OpenReplayWasEarned(c: B.Config, h: seq<B.Mark>) returns (k: nat)
    requires B.InOrder(h) && B.Replay(c, h).state == B.Open
    ensures k < |h| && Earned(c, h[..k], h[k])
    decreases |h|
  {
    var init, m := h[..|h| - 1], h[|h| - 1];
    assert h == init + [m];
    B.StateMirrorsHistory(c, init);
    if B.Replay(c, init).state == B.Open {
      k := OpenReplayWasEarned(c, init);
      assert h[..k] == init[..k];
    } else {
      k := |h| - 1;
      B.OpensIff(c, init, m);
    }
  }

  /** What an open circuit proves about the past, over every interleaving of requests: at some
      settlement the opening was earned. */
  lemma OpenCircuitWasEarned(c: B.Config, backoff: seq<nat>, run: seq<Event>) returns (k: nat)
    requires CanRun(c, backoff, QUIET, run) && InTime(run)
    requires Run(c, backoff, QUIET, run).breaker.state == B.Open
    ensures var h := Settlements(c, backoff, QUIET, run);
            k < |h| && Earned(c, h[..k], h[k])
  {
    BreakerReplaysSettlements(c, backoff, run);
    SettlementsInOrder(c, backoff, QUIET, run);
    k := OpenReplayWasEarned(c, Settlements(c, backoff, QUIET, run));
  }

  /** Every request that begins is going to be answered. */
  ghost predicate AllAnswered(backoff: seq<nat>, run: seq<Event>) {
    forall e :: e in run && e.Begin? ==> |e.replies| == |backoff| + 1 && Answered(e.replies, backoff)
  }

  /** No storm of answered requests, 404s and other client errors included and however many at once,
      opens the circuit or counts a failure. */
  lemma {:induction false} AnsweredRequestsNeverOpen(c: B.Config, backoff: seq<nat>, run: seq<Event>)
    requires CanRun(c, backoff, QUIET, run) && AllAnswered(backoff, run)
    ensures var t := Run(c, backoff, QUIET, run);
            && t.breaker.state == B.Closed && t.breaker.failureCount == 0 && t.breaker.consecutive == 0
            && (forall id :: id in t.inFlight ==> |t.inFlight[id]| == |backoff| + 1 && Answered(t.inFlight[id], backoff))
    decreases |run|
  {
    if run != [] {
      var init, e := run[..|run| - 1], run[|run| - 1];
      assert run == init + [e];
      AnsweredRequestsNeverOpen(c, backoff, init);
    }
  }

  /** In particular a storm of 404s does not, nor any other answer below 500 that is not a 429, so long as
      the first attempts are answered within five minutes. */
  lemma ClientErrorsNeverOpen(c: B.Config, backoff: seq<nat>, run: seq<Event>)
    requires CanRun(c, backoff, QUIET, run)
    requires forall e :: e in run && e.Begin? ==>
               && |e.replies| == |backoff| + 1 && e.replies[0].Status? && e.replies[0].took <= 300000
               && e.replies[0].code < 500 && e.replies[0].code != 429
    ensures var b := Run(c, backoff, QUIET, run).breaker;
            b.state == B.Closed && b.failureCount == 0
  {
    forall e | e in run && e.Begin? ensures Answered(e.replies, backoff) {
      assert AnswerAt(e.replies, 1) && Arrival(e.replies, backoff, 1) == e.replies[0].took;
    }
    AnsweredRequestsNeverOpen(c, backoff, run);
  }

  /** And five unanswered requests in a row do open the client's circuit, whatever else is in flight. */
  lemma FiveUnansweredOpen(backoff: seq<nat>, run: seq<Event>)
    requires CanRun(B.CLIENT_CONFIG, backoff, QUIET, run) && InTime(run)
    requires var h := Settlements(B.CLIENT_CONFIG, backoff, QUIET, run);
             |h| >= 5 && forall i :: |h| - 5 <= i < |h| ==> h[i].failed
    ensures Run(B.CLIENT_CONFIG, backoff, QUIET, run).breaker.state == B.Open
  {
    BreakerReplaysSettlements(B.CLIENT_CONFIG, backoff, run);
    SettlementsInOrder(B.CLIENT_CONFIG, backoff, QUIET, run);
    B.FiveInARowOpen(Settlements(B.CLIENT_CONFIG, backoff, QUIET, run));
  }

  /** A request goes unanswered exactly when all its attempts break or the first answer would come
      after the breaker's five minutes. */
  lemma UnansweredIff(replies: seq<Reply>, backoff: seq<nat>)
    requires |replies| == |backoff| + 1
    ensures !Answered(replies, backoff) <==>
              AllBreaking(replies, |replies|)
              || exists n :: AnswerAt(replies, n) && Arrival(replies, backoff, n) > OPERATION_TIMEOUT
  {
    if !AllBreaking(replies, |replies|) {
      var n := FirstAnswer(replies, 0);
      forall m | AnswerAt(replies, m) ensures m == n {
        var least := if m < n then m else n;
        assert !Breaking(replies[least - 1]);
      }
    }
  }

  ghost function FirstAnswer(replies: seq<Reply>, from: nat): (n: nat)
    requires from <= |replies| && AllBreaking(replies, from) && !AllBreaking(replies, |replies|)
    ensures AnswerAt(replies, n)
    decreases |replies| - from
  {
    if !Breaking(replies[from]) then from + 1 else FirstAnswer(replies, from + 1)
  }

  function Total(ns: seq<nat>): nat { if ns == [] then 0 else Total(ns[..|ns| - 1]) + ns[|ns| - 1] }

  /** How long the first `n` replies were under way. */
  function UnderWay(replies: seq<Reply>, n: nat): nat
    requires n <= |replies|
  {
    if n == 0 then 0 else UnderWay(replies, n - 1) + replies[n - 1].took
  }

  /** Server errors, network errors, timeouts, and a 429 that names no wait are retried by the schedule:
      the `n`-th reply arrives after the time that the replies took and the first `n - 1` pauses. */
  lemma {:induction false} RetriesFollowTheSchedule(replies: seq<Reply>, backoff: seq<nat>, n: nat)
    requires |replies| == |backoff| + 1 && 1 <= n <= |replies|
    requires forall i :: 0 <= i < n - 1 ==> 1 <= backoff[i] <= TIMER_MAX
    requires forall i :: 0 <= i < n - 1 && replies[i].Status? && replies[i].code == 429 ==> replies[i].retryAfter.None?
    ensures Arrival(replies, backoff, n) == UnderWay(replies, n) + Total(backoff[..n - 1])
  {
    if n > 1 {
      RetriesFollowTheSchedule(replies, backoff, n - 1);
      assert backoff[..n - 1][..n - 2] == backoff[..n - 2];
    } else {
      assert UnderWay(replies, 0) == 0;
    }
  }

  /** With the default schedule of one, two and four seconds, a CRM that answers every attempt with a 503
      at once is given up after seven seconds, and one that is back by the fourth attempt is not. */
  lemma AnOutageTakesSevenSeconds(last: int)
    ensures var down := Status(503, None, 0);
            var replies := [down, down, down, Status(last, None, 0)];
            && Arrival(replies, [1000, 2000, 4000], 4) == 7000
            && (Answered(replies, [1000, 2000, 4000]) <==> last < 500 && last != 429)
  {
    var down := Status(503, None, 0);
    var replies, backoff := [down, down, down, Status(last, None, 0)], [1000, 2000, 4000];
    RetriesFollowTheSchedule(replies, backoff, 4);
    assert [1000, 2000, 4000][..2] == [1000, 2000] && [1000, 2000][..1] == [1000] && [1000][..0] == [];
    assert Total([]) == 0 && Total([1000]) == 1000 && Total([1000, 2000]) == 3000 && Total([1000, 2000, 4000]) == 7000;
    assert backoff[..3] == backoff;
    assert UnderWay(replies, 0) == 0 && UnderWay(replies, 1) == 0 && UnderWay(replies, 2) == 0 && UnderWay(replies, 3) == 0;
    assert Breaking(replies[3]) || AnswerAt(replies, 4);
    UnansweredIff(replies, backoff);
    if Answered(replies, backoff) {
      var n :| 1 <= n <= |replies| && AnswerAt(replies, n) && Arrival(replies, backoff, n) <= OPERATION_TIMEOUT;
      assert n == 4;
    }
  }

  /** The wait that a first reply asks for. */
  function FirstWait(replies: seq<Reply>, backoff: seq<nat>): int
    requires |replies| >= 1 && |backoff| >= 1 && replies[0].Status?
  {
    if replies[0].code == 429 && replies[0].retryAfter.Some? then replies[0].retryAfter.value * 1000 else backoff[0]
  }

  /** A healthy CRM can cause the second case. When it answers a first attempt with a 429 and would
      answer the next, the request is recorded as a failure exactly if even an immediate retry comes too
      late, or the 429 asks for a wait that ends too late and that the timer can measure; a wait that
      the timer cannot measure is retried at once. */
  lemma RateLimitedOnceIff(replies: seq<Reply>, backoff: seq<nat>)
    requires |backoff| >= 1 && |replies| == |backoff| + 1
    requires replies[0].Status? && replies[0].code == 429 && !Breaking(replies[1])
    ensures var took, wait, again := replies[0].took, FirstWait(replies, backoff), replies[1].took;
            !Answered(replies, backoff) <==>
              || took + 1 + again > 300000
              || (took + wait + again > 300000 && wait <= 2147483647)
  {
    var took, wait, again := replies[0].took, FirstWait(replies, backoff), replies[1].took;
    assert Arrival(replies, backoff, 1) == took;
    assert Arrival(replies, backoff, 2) == took + Timer(wait) + again;
    assert Breaking(replies[0]) && AnswerAt(replies, 2);
    UnansweredIff(replies, backoff);
    assert !Breaking(replies[1]);
  }

  /** With instant replies that is every `Retry-After` from 301 to 2147483 seconds, and none above. */
  lemma LongRetryAfterIsAFailure(seconds: int, backoff: seq<nat>, rest: seq<Reply>)
    requires |backoff| >= 1 && |rest| == |backoff| - 1
    ensures var replies := [Status(429, Some(seconds), 0), Status(200, None, 0)] + rest;
            && (300 < seconds <= 2147483 ==> !Answered(replies, backoff))
            && (seconds <= 300 || seconds > 2147483 ==> Answered(replies, backoff))
  {
    RateLimitedOnceIff([Status(429, Some(seconds), 0), Status(200, None, 0)] + rest, backoff);
  }
}
