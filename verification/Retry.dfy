/**
 The retry machine: every candidate endpoint is tried a bounded number of times, in order, until an attempt
 ends the exchange. What upstreams and the client's connection do is an arbitrary function of the attempt's
 number. The response is what the client sees: a status, relayed bytes, and JSON errors.
 */
module Retry {
  import opened Basics
  import opened Config
  import C = Candidates
  import Sync = ConfigSync
  import Text
  import opened Usage

  const MAX_PER_UPSTREAM_RETRY_TIMES: nat := 3

  // ---------- The schedule ----------

  /** perUpstreamAttempts */
  function PerUpstreamAttempts(m: ModelConfig): (n: nat)
    ensures 1 <= n <= 4
    ensures m.retryTimes < 0 ==> n == 1
    ensures 0 <= m.retryTimes <= 3 ==> n == m.retryTimes + 1
    ensures m.retryTimes > 3 ==> n == 4
  {
    if m.retryTimes <= 0 then 1
    else if m.retryTimes > MAX_PER_UPSTREAM_RETRY_TIMES then MAX_PER_UPSTREAM_RETRY_TIMES + 1
    else m.retryTimes + 1
  }

  /** How many attempts the first `c` candidates may take. */
  function AttemptsBefore(candidates: seq<ModelConfig>, c: nat): nat
    requires c <= |candidates|
  {
    if c == 0 then 0 else AttemptsBefore(candidates, c - 1) + PerUpstreamAttempts(candidates[c - 1])
  }

  function Repeat(m: ModelConfig, n: nat): (s: seq<ModelConfig>)
    ensures |s| == n && forall i :: 0 <= i < n ==> s[i] == m
  {
    seq(n, i => m)
  }

  /** Every candidate as often as it may be tried, in order. */
  function Schedule(candidates: seq<ModelConfig>): seq<ModelConfig> {
    if candidates == [] then []
    else
      var last := candidates[|candidates| - 1];
      Schedule(candidates[..|candidates| - 1]) + Repeat(last, PerUpstreamAttempts(last))
  }

  lemma {:induction false} AttemptsBeforePrefix(candidates: seq<ModelConfig>, k: nat, c: nat)
    requires c <= k <= |candidates|
    ensures AttemptsBefore(candidates[..k], c) == AttemptsBefore(candidates, c)
  {
    if c > 0 {
      AttemptsBeforePrefix(candidates, k, c - 1);
    }
  }

  lemma {:induction false} AttemptsBeforeGrows(candidates: seq<ModelConfig>, c: nat, d: nat)
    requires c <= d <= |candidates|
    ensures AttemptsBefore(candidates, c) + (d - c) <= AttemptsBefore(candidates, d)
    ensures AttemptsBefore(candidates, d)
            <= AttemptsBefore(candidates, c) + (MAX_PER_UPSTREAM_RETRY_TIMES + 1) * (d - c)
    decreases d - c
  {
    if c < d {
      AttemptsBeforeGrows(candidates, c, d - 1);
    }
  }

  lemma {:induction false} ScheduleSize(candidates: seq<ModelConfig>)
    ensures |Schedule(candidates)| == AttemptsBefore(candidates, |candidates|)
  {
    if candidates != [] {
      var k := |candidates| - 1;
      ScheduleSize(candidates[..k]);
      AttemptsBeforePrefix(candidates, k, k);
    }
  }

  /** A candidate's attempts stand together, right after those of the candidates before it. */
  lemma {:induction false} ScheduleAt(candidates: seq<ModelConfig>, c: nat, a: nat)
    requires c < |candidates| && a < PerUpstreamAttempts(candidates[c])
    ensures AttemptsBefore(candidates, c) + a < |Schedule(candidates)|
    ensures Schedule(candidates)[AttemptsBefore(candidates, c) + a] == candidates[c]
  {
    var k := |candidates| - 1;
    var init := candidates[..k];
    ScheduleSize(init);
    AttemptsBeforePrefix(candidates, k, k);
    if c < k {
      ScheduleAt(init, c, a);
      AttemptsBeforePrefix(candidates, k, c);
    }
  }

  lemma {:induction false} CandidateBlock(candidates: seq<ModelConfig>, c: nat)
    requires c < |candidates|
    ensures var from, n := AttemptsBefore(candidates, c), PerUpstreamAttempts(candidates[c]);
            && from + n <= |Schedule(candidates)|
            && forall k :: from <= k < from + n ==> Schedule(candidates)[k] == candidates[c]
  {
    var from, n := AttemptsBefore(candidates, c), PerUpstreamAttempts(candidates[c]);
    ScheduleAt(candidates, c, n - 1);
    forall k | from <= k < from + n
      ensures Schedule(candidates)[k] == candidates[c]
    {
      ScheduleAt(candidates, c, k - from);
    }
  }

  lemma {:induction false} ScheduledIsCandidate(candidates: seq<ModelConfig>, k: nat)
    requires k < |Schedule(candidates)|
    ensures Schedule(candidates)[k] in candidates
  {
    if candidates != [] {
      var init := candidates[..|candidates| - 1];
      if k < |Schedule(init)| {
        ScheduledIsCandidate(init, k);
      }
    }
  }

  /** At most four attempts for every candidate. */
  lemma {:induction false} ScheduleBound(candidates: seq<ModelConfig>)
    ensures |candidates| <= |Schedule(candidates)| <= 4 * |candidates|
  {
    ScheduleSize(candidates);
    AttemptsBeforeGrows(candidates, 0, |candidates|);
  }

  // ---------- One attempt ----------

  /** What an attempt meets. `broken` is a read error after `body`; `room` is the client's connection. */
  datatype Upstream =
    | GroupMissing
    | BodyRejected
    | RequestRejected
    | Unreachable
    | Responded(status: int, sse: bool, body: string, broken: bool, room: Room)

  datatype Failure =
    | NoSuchGroup
    | NoModels
    | BadBody
    | BadRequest
    | ConnectionFailed
    | ReadFailed
    | UpstreamStatus(status: int, text: string)
    | StreamFailed(reason: StreamError)

  datatype Outcome = Outcome(status: int, retry: bool, error: Option<Failure>)

  /** The client's response, and the payload left in the request context for billing. */
  datatype Reply = Reply(status: int, relayed: string, errors: seq<Failure>, written: bool, payload: Option<Payload>)

  const UNTOUCHED: Reply := Reply(200, "", [], false, None)

  datatype Request = Request(stream: bool, decode: Decoder)

  /** SelectAdapter */
  predicate IsAnthropic(m: ModelConfig) {
    Text.Lower(Text.Trim(m.kind)) in {"anthropic", "claude"}
  }

  function TruncateBody(body: string): (text: string)
    ensures |body| <= 256 ==> text == body
    ensures |body| > 256 ==> |text| == 259 && text[..256] == body[..256] && text[256..] == "..."
  {
    if |body| <= 256 then body else body[..256] + "..."
  }

  /** Statuses whose responses carry no body (RFC 9110, section 6.4.1). */
  predicate BodyAllowed(status: int) {
    !(100 <= status <= 199) && status != 204 && status != 304
  }

  /** What forwardOnce returns. */
  function Forward(q: Request, m: ModelConfig, u: Upstream): Outcome {
    match u
    case GroupMissing => Outcome(404, false, Some(NoSuchGroup))
    case BodyRejected => Outcome(400, false, Some(BadBody))
    case RequestRejected => Outcome(500, false, Some(BadRequest))
    case Unreachable => Outcome(502, true, Some(ConnectionFailed))
    case Responded(status, sse, body, broken, room) =>
      if status >= 500 then
        if broken then Outcome(502, true, Some(ReadFailed))
        else Outcome(status, true, Some(UpstreamStatus(status, TruncateBody(body))))
      else if sse && q.stream then
        match Relayed(body, broken, room, q.decode, IsAnthropic(m))
        case Err(reason) => Outcome(502, false, Some(StreamFailed(reason)))
        case Ok(_) => Outcome(status, false, None)
      else if broken then Outcome(502, true, Some(ReadFailed))
      else Outcome(status, false, None)
  }

  /** A status set before the headers have gone out counts; later ones do not. */
  function WithStatus(r: Reply, status: int): Reply {
    if r.written then r else r.(status := status)
  }

  function WithError(r: Reply, status: int, f: Failure): Reply {
    WithStatus(r, status).(errors := r.errors + [f], written := true)
  }

  function WithPayload(r: Reply, payload: Option<Payload>): Reply {
    if payload.Some? then r.(payload := payload) else r
  }

  /** What forwardOnce does to the response and the context. */
  function Effect(q: Request, m: ModelConfig, u: Upstream, r: Reply): Reply {
    if !u.Responded? || u.status >= 500 then r
    else if u.sse && q.stream then
      var relayed := WithStatus(r, u.status).(relayed := r.relayed + Taken(u.room, u.body),
                                                 written := r.written || u.body != "");
      match Relayed(u.body, u.broken, u.room, q.decode, IsAnthropic(m))
      case Err(_) => relayed
      case Ok(payload) => WithPayload(relayed, payload)
    else if u.broken then r
    else
      var sent := if BodyAllowed(u.status) then Taken(u.room, u.body) else "";
      WithPayload(WithStatus(r, u.status).(relayed := r.relayed + sent, written := true), BodyPayload(u.body, q.decode))
  }

  // ---------- The exchange ----------

  datatype Observation = Observation(model: ModelConfig, success: bool)

  datatype Exchange = Exchange(
    reply: Reply,
    attempts: seq<ModelConfig>,          // the endpoints tried, in order (history)
    observed: seq<Observation>,          // what the balancer was told
    lastError: Option<Failure>,
    over: bool)

  const START: Exchange := Exchange(UNTOUCHED, [], [], None, false)

  /** observeBalancer: an attempt that failed for good is not observed. */
  function Observed(m: ModelConfig, o: Outcome): seq<Observation> {
    if o.error.None? then [Observation(m, true)]
    else if o.retry then [Observation(m, false)]
    else []
  }

  /** One round of the inner loop. */
  function Attempt(q: Request, x: Exchange, m: ModelConfig, u: Upstream): Exchange {
    if x.over then x
    else
      var o := Forward(q, m, u);
      var r := Effect(q, m, u, x.reply);
      Exchange(
        if o.error.Some? && !o.retry && !r.written then WithError(r, o.status, o.error.value) else r,
        x.attempts + [m],
        x.observed + Observed(m, o),
        if o.error.Some? then o.error else x.lastError,
        !o.retry)
  }

  /** The exchange after the first `n` rounds of the schedule. */
  function Play(q: Request, schedule: seq<ModelConfig>, oracle: nat -> Upstream, n: nat): Exchange
    requires n <= |schedule|
  {
    if n == 0 then START else Attempt(q, Play(q, schedule, oracle, n - 1), schedule[n - 1], oracle(n - 1))
  }

  /** After the loops: a client that has seen nothing yet gets the last error. */
  function Conclude(x: Exchange): Exchange {
    if x.over || x.reply.written || x.lastError.None? then x
    else x.(reply := WithError(x.reply, 502, x.lastError.value))
  }

  function Handled(q: Request, candidates: seq<ModelConfig>, oracle: nat -> Upstream): Exchange {
    var schedule := Schedule(candidates);
    Conclude(Play(q, schedule, oracle, |schedule|))
  }

  // ---------- Whole exchanges ----------

  /** Round `k` fails in a way that lets the next round start. */
  predicate Retries(q: Request, schedule: seq<ModelConfig>, oracle: nat -> Upstream, k: nat)
    requires k < |schedule|
  {
    Forward(q, schedule[k], oracle(k)).retry
  }

  ghost predicate AllRetry(q: Request, schedule: seq<ModelConfig>, oracle: nat -> Upstream, n: nat)
    requires n <= |schedule|
  {
    forall k :: 0 <= k < n ==> Retries(q, schedule, oracle, k)
  }

  /** An attempt that may be retried has written nothing and leaves no payload. */
  lemma {:induction false} RetryIsSilent(q: Request, m: ModelConfig, u: Upstream, r: Reply)
    requires Forward(q, m, u).retry
    ensures Effect(q, m, u, r) == r && Forward(q, m, u).error.Some?
  {
  }

  /** As long as every round may be retried, the client has seen nothing and the schedule is followed. */
  lemma {:induction false} PlayWhileRetrying(q: Request, schedule: seq<ModelConfig>, oracle: nat -> Upstream, n: nat)
    requires n <= |schedule| && AllRetry(q, schedule, oracle, n)
    ensures var x := Play(q, schedule, oracle, n);
            && x.reply == UNTOUCHED && !x.over && x.attempts == schedule[..n]
            && x.observed == seq(n, k requires 0 <= k < n => Observation(schedule[k], false))
            && x.lastError == if n == 0 then None else Forward(q, schedule[n - 1], oracle(n - 1)).error
  {
    if n > 0 {
      PlayWhileRetrying(q, schedule, oracle, n - 1);
      assert Retries(q, schedule, oracle, n - 1);
      RetryIsSilent(q, schedule[n - 1], oracle(n - 1), UNTOUCHED);
      assert schedule[..n] == schedule[..n - 1] + [schedule[n - 1]];
    }
  }

  lemma {:induction false} OverStaysOver(q: Request, schedule: seq<ModelConfig>, oracle: nat -> Upstream,
                                        n: nat, m: nat)
    requires n <= m <= |schedule| && Play(q, schedule, oracle, n).over
    ensures Play(q, schedule, oracle, m) == Play(q, schedule, oracle, n)
    decreases m - n
  {
    if n < m {
      OverStaysOver(q, schedule, oracle, n, m - 1);
    }
  }

  /** When every attempt may be retried, the whole schedule is tried and the client gets one 502. */
  lemma ExhaustedExchange(q: Request, candidates: seq<ModelConfig>, oracle: nat -> Upstream)
    requires candidates != [] && AllRetry(q, Schedule(candidates), oracle, |Schedule(candidates)|)
    ensures var x := Handled(q, candidates, oracle);
            && x.attempts == Schedule(candidates) && |x.observed| == |x.attempts|
            && x.reply.status == 502 && x.reply.relayed == "" && x.reply.payload == None
            && |x.reply.errors| == 1
            && Some(x.reply.errors[0]) == Forward(q, x.attempts[|x.attempts| - 1], oracle(|x.attempts| - 1)).error
  {
    var schedule := Schedule(candidates);
    ScheduleBound(candidates);
    PlayWhileRetrying(q, schedule, oracle, |schedule|);
    assert Retries(q, schedule, oracle, |schedule| - 1);
    RetryIsSilent(q, schedule[|schedule| - 1], oracle(|schedule| - 1), UNTOUCHED);
    assert schedule[..|schedule|] == schedule;
  }

  /** Otherwise the first attempt that may not be retried is the last one, and the response is its own. */
  lemma DecidedExchange(q: Request, candidates: seq<ModelConfig>, oracle: nat -> Upstream, n: nat)
    requires n < |Schedule(candidates)| && AllRetry(q, Schedule(candidates), oracle, n)
    requires !Retries(q, Schedule(candidates), oracle, n)
    ensures Handled(q, candidates, oracle)
            == Attempt(q, Play(q, Schedule(candidates), oracle, n), Schedule(candidates)[n], oracle(n))
    ensures Handled(q, candidates, oracle).attempts == Schedule(candidates)[..n + 1]
    ensures AnswersFrom(q, Schedule(candidates)[n], oracle(n), Handled(q, candidates, oracle).reply)
  {
    var schedule := Schedule(candidates);
    DecidedPlay(q, schedule, oracle, n);
    LastAttemptAnswers(q, Play(q, schedule, oracle, n), schedule[n], oracle(n));
  }

  lemma DecidedPlay(q: Request, schedule: seq<ModelConfig>, oracle: nat -> Upstream, n: nat)
    requires n < |schedule| && AllRetry(q, schedule, oracle, n) && !Retries(q, schedule, oracle, n)
    ensures var before := Play(q, schedule, oracle, n);
            var x := Attempt(q, before, schedule[n], oracle(n));
            && before.reply == UNTOUCHED && !before.over && x.over
            && Play(q, schedule, oracle, |schedule|) == x
            && x.attempts == schedule[..n + 1]
  {
    PlayWhileRetrying(q, schedule, oracle, n);
    OverStaysOver(q, schedule, oracle, n + 1, |schedule|);
    assert schedule[..n + 1] == schedule[..n] + [schedule[n]];
  }

  /**
   The client has one response: relayed bytes of this upstream (all of them after a success that reached
   the client) under the upstream's status, or one JSON error and nothing relayed. Only a success leaves a payload.
   */
  ghost predicate AnswersFrom(q: Request, m: ModelConfig, u: Upstream, r: Reply) {
    var o := Forward(q, m, u);
    && (r.errors == [] || (o.error.Some? && r.errors == [o.error.value] && r.relayed == "" && r.status == o.status))
    && (r.errors == [] ==> u.Responded? && r.status == u.status && r.relayed <= u.body)
    && (o.error.None? ==> r.errors == [] && r.payload == Earned(q, m, u))
    && (o.error.None? && u.room.None? && BodyAllowed(u.status) ==> r.relayed == u.body)
    && (o.error.Some? ==> r.payload.None? && (r.errors == [] <==> u.Responded? && u.body != ""))
  }

  /** The payload of a successful attempt. */
  function Earned(q: Request, m: ModelConfig, u: Upstream): Option<Payload> {
    if !u.Responded? then None
    else if u.sse && q.stream then StreamPayload(Lines(u.body), q.decode, IsAnthropic(m))
    else BodyPayload(u.body, q.decode)
  }

  lemma LastAttemptAnswers(q: Request, x: Exchange, m: ModelConfig, u: Upstream)
    requires x.reply == UNTOUCHED && !x.over && !Forward(q, m, u).retry
    ensures AnswersFrom(q, m, u, Attempt(q, x, m, u).reply)
  {
    if u.Responded? {
      assert Taken(u.room, u.body) <= u.body;
      assert "" + Taken(u.room, u.body) == Taken(u.room, u.body);
    }
  }

  /** The first round that may not be retried, or the end of the schedule. */
  function Deciding(q: Request, schedule: seq<ModelConfig>, oracle: nat -> Upstream, k: nat := 0): (n: nat)
    requires k <= |schedule| && AllRetry(q, schedule, oracle, k)
    ensures k <= n <= |schedule| && AllRetry(q, schedule, oracle, n)
    ensures n < |schedule| ==> !Retries(q, schedule, oracle, n)
    decreases |schedule| - k
  {
    if k == |schedule| || !Retries(q, schedule, oracle, k) then k else Deciding(q, schedule, oracle, k + 1)
  }

  /** The client got one JSON error with status 502 and nothing else, and nothing is left to bill. */
  predicate GaveUp(r: Reply) {
    r.status == 502 && r.relayed == "" && r.payload.None? && |r.errors| == 1
  }

  /**
   The attempts follow the schedule, all but the last one retryable; either the schedule is used up and the
   client got one 502, or the client has the answer of the last attempt.
   */
  ghost predicate Answered(q: Request, schedule: seq<ModelConfig>, oracle: nat -> Upstream, x: Exchange) {
    var n := |x.attempts|;
    && 1 <= n <= |schedule| && x.attempts == schedule[..n]
    && AllRetry(q, schedule, oracle, n - 1)
    && if Retries(q, schedule, oracle, n - 1) then n == |schedule| && GaveUp(x.reply)
       else AnswersFrom(q, schedule[n - 1], oracle(n - 1), x.reply)
  }

  lemma ExhaustedIsAnswered(q: Request, candidates: seq<ModelConfig>, oracle: nat -> Upstream)
    requires candidates != [] && AllRetry(q, Schedule(candidates), oracle, |Schedule(candidates)|)
    ensures Answered(q, Schedule(candidates), oracle, Handled(q, candidates, oracle))
  {
    var schedule := Schedule(candidates);
    ScheduleBound(candidates);
    ExhaustedExchange(q, candidates, oracle);
    assert Retries(q, schedule, oracle, |schedule| - 1);
    assert schedule[..|schedule|] == schedule;
  }

  lemma DecidedIsAnswered(q: Request, candidates: seq<ModelConfig>, oracle: nat -> Upstream, n: nat)
    requires n < |Schedule(candidates)| && AllRetry(q, Schedule(candidates), oracle, n)
    requires !Retries(q, Schedule(candidates), oracle, n)
    ensures Answered(q, Schedule(candidates), oracle, Handled(q, candidates, oracle))
  {
    DecidedExchange(q, candidates, oracle, n);
    assert |Handled(q, candidates, oracle).attempts| == n + 1;
  }

  /**
   For every behaviour of the upstreams: a bounded number of attempts, in schedule order, all but the last
   retryable and silent, exactly one response, and a payload only from a successful last attempt.
   */
  lemma OneAnswer(q: Request, candidates: seq<ModelConfig>, oracle: nat -> Upstream)
    requires candidates != []
    ensures Answered(q, Schedule(candidates), oracle, Handled(q, candidates, oracle))
    ensures |Handled(q, candidates, oracle).attempts| <= 4 * |candidates|
  {
    ScheduleBound(candidates);
    var n := Deciding(q, Schedule(candidates), oracle);
    if n == |Schedule(candidates)| {
      ExhaustedIsAnswered(q, candidates, oracle);
    } else {
      DecidedIsAnswered(q, candidates, oracle, n);
    }
  }

  /** A later candidate is tried only after an earlier one has had all its attempts, all of them retryable. */
  lemma CandidatesAreExhausted(q: Request, candidates: seq<ModelConfig>, oracle: nat -> Upstream, c: nat, a: nat)
    requires c < |candidates| && a < PerUpstreamAttempts(candidates[c])
    requires |Handled(q, candidates, oracle).attempts| > AttemptsBefore(candidates, c + 1)
    ensures var x, k := Handled(q, candidates, oracle), AttemptsBefore(candidates, c) + a;
            && k < |x.attempts| - 1 && x.attempts[k] == candidates[c]
            && k < |Schedule(candidates)| && Retries(q, Schedule(candidates), oracle, k)
  {
    OneAnswer(q, candidates, oracle);
    ScheduleAt(candidates, c, a);
  }

  // ---------- In terms of what upstreams do ----------

  /** What lets the next attempt start: no connection, a server error, or a body that broke before it was passed on. */
  predicate Transient(q: Request, u: Upstream) {
    u.Unreachable? || (u.Responded? && (u.status >= 500 || (u.broken && !(u.sse && q.stream))))
  }

  /** A whole answer below 500, and a client that takes all of it if it is passed on as it comes. */
  predicate Whole(q: Request, u: Upstream) {
    && u.Responded? && u.status < 500 && !u.broken
    && (u.sse && q.stream && u.room.Some? ==> |u.body| <= u.room.value)
  }

  lemma RetryIsTransient(q: Request, m: ModelConfig, u: Upstream)
    ensures Forward(q, m, u).retry <==> Transient(q, u)
    ensures Forward(q, m, u).error.None? <==> Whole(q, u)
  {
  }

  ghost predicate AllTransient(q: Request, oracle: nat -> Upstream, n: nat) {
    forall k: nat :: k < n ==> Transient(q, oracle(k))
  }

  lemma {:induction false} AllRetryIsTransient(q: Request, schedule: seq<ModelConfig>, oracle: nat -> Upstream, n: nat)
    requires n <= |schedule|
    ensures AllRetry(q, schedule, oracle, n) <==> AllTransient(q, oracle, n)
  {
    forall k: nat | k < n
      ensures Retries(q, schedule, oracle, k) <==> Transient(q, oracle(k))
    {
      RetryIsTransient(q, schedule[k], oracle(k));
    }
  }

  /** A scheduled attempt is made exactly when all attempts before it were transient failures. */
  lemma {:induction false} AttemptIsMade(q: Request, candidates: seq<ModelConfig>, oracle: nat -> Upstream, n: nat)
    requires n < |Schedule(candidates)|
    ensures |Handled(q, candidates, oracle).attempts| > n <==> AllTransient(q, oracle, n)
  {
    var schedule := Schedule(candidates);
    OneAnswer(q, candidates, oracle);
    var made := |Handled(q, candidates, oracle).attempts|;
    AllRetryIsTransient(q, schedule, oracle, made - 1);
    RetryIsTransient(q, schedule[made - 1], oracle(made - 1));
  }

  /**
   Failover: once every earlier attempt has failed transiently, an upstream that answers below 500, to a client
   that stays, with a status that allows a body, gives the client exactly its body and status, and its payload.
   */
  lemma {:induction false} Failover(q: Request, candidates: seq<ModelConfig>, oracle: nat -> Upstream, n: nat)
    requires n < |Schedule(candidates)| && AllTransient(q, oracle, n)
    requires Whole(q, oracle(n)) && oracle(n).room.None?
    requires !(100 <= oracle(n).status <= 199) && oracle(n).status != 204 && oracle(n).status != 304
    ensures var x, m, u := Handled(q, candidates, oracle), Schedule(candidates)[n], oracle(n);
            && x.attempts == Schedule(candidates)[..n + 1]
            && x.reply.status == u.status && x.reply.relayed == u.body && x.reply.errors == []
            && x.reply.payload == if u.sse && q.stream then StreamPayload(Lines(u.body), q.decode, IsAnthropic(m))
                                  else BodyPayload(u.body, q.decode)
  {
    var schedule := Schedule(candidates);
    AllRetryIsTransient(q, schedule, oracle, n);
    RetryIsTransient(q, schedule[n], oracle(n));
    DecidedExchange(q, candidates, oracle, n);
  }

  /** What the client gets when the deciding attempt fails before anything has been written. */
  ghost predicate Failed(r: Reply, status: int, f: Failure) {
    r.status == status && r.errors == [f] && r.relayed == "" && r.payload.None?
  }

  /** The status and the error of every failure that ends an exchange, and what a client keeps of a broken stream. */
  lemma {:induction false} FinalFailures(q: Request, candidates: seq<ModelConfig>, oracle: nat -> Upstream, n: nat)
    requires n < |Schedule(candidates)| && AllTransient(q, oracle, n) && !Transient(q, oracle(n))
    ensures var r, u := Handled(q, candidates, oracle).reply, oracle(n);
            && (u.GroupMissing? ==> Failed(r, 404, NoSuchGroup))
            && (u.BodyRejected? ==> Failed(r, 400, BadBody))
            && (u.RequestRejected? ==> Failed(r, 500, BadRequest))
            && (u.Responded? && !Whole(q, u) && u.body == "" ==> Failed(r, 502, StreamFailed(UpstreamBroke)))
            && (u.Responded? && !Whole(q, u) && u.body != "" ==>
                  && r.status == u.status && r.errors == [] && r.payload.None?
                  && r.relayed == if u.room.None? || |u.body| <= u.room.value then u.body else u.body[..u.room.value])
  {
    var schedule := Schedule(candidates);
    AllRetryIsTransient(q, schedule, oracle, n);
    RetryIsTransient(q, schedule[n], oracle(n));
    DecidedExchange(q, candidates, oracle, n);
    DecidedPlay(q, schedule, oracle, n);
    FinalReply(q, Play(q, schedule, oracle, n), schedule[n], oracle(n));
  }

  lemma {:induction false} FinalReply(q: Request, x: Exchange, m: ModelConfig, u: Upstream)
    requires x.reply == UNTOUCHED && !x.over && !Transient(q, u)
    ensures var r := Attempt(q, x, m, u).reply;
            && (u.GroupMissing? ==> Failed(r, 404, NoSuchGroup))
            && (u.BodyRejected? ==> Failed(r, 400, BadBody))
            && (u.RequestRejected? ==> Failed(r, 500, BadRequest))
            && (u.Responded? && !Whole(q, u) && u.body == "" ==> Failed(r, 502, StreamFailed(UpstreamBroke)))
            && (u.Responded? && !Whole(q, u) && u.body != "" ==>
                  && r.status == u.status && r.errors == [] && r.payload.None?
                  && r.relayed == if u.room.None? || |u.body| <= u.room.value then u.body else u.body[..u.room.value])
  {
    if u.Responded? {
      assert "" + Taken(u.room, u.body) == Taken(u.room, u.body);
    }
  }

  /** When every attempt fails transiently, the one error is the last attempt's. */
  lemma {:induction false} LastFailure(q: Request, candidates: seq<ModelConfig>, oracle: nat -> Upstream)
    requires candidates != [] && AllTransient(q, oracle, |Schedule(candidates)|)
    ensures var x, u := Handled(q, candidates, oracle), oracle(|Schedule(candidates)| - 1);
            && x.attempts == Schedule(candidates)
            && Failed(x.reply, 502, if u.Unreachable? then ConnectionFailed
                                    else if u.broken then ReadFailed
                                    else UpstreamStatus(u.status, TruncateBody(u.body)))
  {
    var schedule := Schedule(candidates);
    ScheduleBound(candidates);
    AllRetryIsTransient(q, schedule, oracle, |schedule|);
    ExhaustedExchange(q, candidates, oracle);
    RetryIsTransient(q, schedule[|schedule| - 1], oracle(|schedule| - 1));
  }

  /** The balancer is told of every transient failure, and of the success, and of nothing else. */
  lemma {:induction false} ObservedExactly(q: Request, candidates: seq<ModelConfig>, oracle: nat -> Upstream, n: nat)
    requires n < |Schedule(candidates)| && AllTransient(q, oracle, n) && !Transient(q, oracle(n))
    ensures var x, schedule := Handled(q, candidates, oracle), Schedule(candidates);
            var failures := seq(n, k requires 0 <= k < n => Observation(schedule[k], false));
            x.observed == if Whole(q, oracle(n)) then failures + [Observation(schedule[n], true)] else failures
  {
    var schedule := Schedule(candidates);
    AllRetryIsTransient(q, schedule, oracle, n);
    RetryIsTransient(q, schedule[n], oracle(n));
    DecidedExchange(q, candidates, oracle, n);
    PlayWhileRetrying(q, schedule, oracle, n);
  }

  /** The Anthropic adapter is chosen by type, in any case and with space around it. */
  lemma AdapterChoice(m: ModelConfig)
    ensures IsAnthropic(m.(kind := "anthropic")) && IsAnthropic(m.(kind := " Claude"))
    ensures !IsAnthropic(m.(kind := "")) && !IsAnthropic(m.(kind := "openai"))
  {
    assert Text.TrimLeft(" Claude") == "Claude" && Text.TrimRight("Claude") == "Claude";
    assert Text.Lower("Claude") == "claude";
    assert Text.TrimLeft("anthropic") == "anthropic" && Text.TrimRight("anthropic") == "anthropic";
    assert Text.Lower("anthropic") == "anthropic";
    assert Text.TrimLeft("openai") == "openai" && Text.TrimRight("openai") == "openai";
    assert Text.Lower("openai")[0] == 'o';
  }

  /** However long the endpoint list, the attempts are at most four for every distinct upstream in it. */
  lemma FourPerUpstream(q: Request, all: seq<ModelConfig>, pick: ModelConfig, oracle: nat -> Upstream)
    requires pick in all
    ensures |Handled(q, C.Candidates(all, pick), oracle).attempts| <= 4 * |C.Keys(all)|
  {
    C.CandidatesCoverAllKeys(all, pick);
    C.KeysCount(C.Candidates(all, pick));
    assert C.Keys(all) + {UpstreamKey(pick)} == C.Keys(all);
    OneAnswer(q, C.Candidates(all, pick), oracle);
  }

  /** In every group the startup sync accepts, endpoints with NUL-free names are tried in exact rotation. */
  lemma {:induction false} AcceptedGroupsRotate(config: seq<ModelGroup>, i: nat, p: nat)
    requires Sync.Plan(config).Ok? && i < |config| && p < |config[i].models|
    requires forall m :: m in config[i].models ==> '\0' !in m.name
    ensures C.DistinctKeys(config[i].models)
    ensures C.Candidates(config[i].models, config[i].models[p]) == C.Rotation(config[i].models, p)
  {
    Sync.PlanAccepts(config);
    assert Sync.GroupOk(config[i]);
    var models := config[i].models;
    forall j, k | 0 <= j < k < |models|
      ensures UpstreamKey(models[j]) != UpstreamKey(models[k])
    {
      UpstreamKeyInjective(models[j], models[k]);
    }
    C.CandidatesAreRotation(models, p);
  }

  // ---------- The code ----------

  class Handler {
    var reply: Reply
    var attempts: seq<ModelConfig>
    var observed: seq<Observation>

    constructor ()
      ensures reply == UNTOUCHED && attempts == [] && observed == []
    {
      reply, attempts, observed := UNTOUCHED, [], [];
    }

    method WriteError(status: int, f: Failure)
      modifies this`reply
      ensures reply == WithError(old(reply), status, f)
    {
      if !reply.written {
        reply := reply.(status := status);
      }
      reply := reply.(errors := reply.errors + [f], written := true);
    }

    method ForwardOnce(q: Request, m: ModelConfig, u: Upstream) returns (o: Outcome)
      modifies this`reply
      ensures o == Forward(q, m, u)
      ensures reply == Effect(q, m, u, old(reply))
    {
      match u
      case GroupMissing => return Outcome(404, false, Some(NoSuchGroup));
      case BodyRejected => return Outcome(400, false, Some(BadBody));
      case RequestRejected => return Outcome(500, false, Some(BadRequest));
      case Unreachable => return Outcome(502, true, Some(ConnectionFailed));
      case Responded(status, sse, body, broken, room) =>
        if status >= 500 {
          if broken {
            return Outcome(502, true, Some(ReadFailed));
          }
          return Outcome(status, true, Some(UpstreamStatus(status, TruncateBody(body))));
        }
        if sse && q.stream {
          reply := WithStatus(reply, status);
          var sent, payload := StreamToClient(body, broken, room, q.decode, IsAnthropic(m));
          reply := reply.(relayed := reply.relayed + sent, written := reply.written || body != "");
          if payload.Err? {
            return Outcome(502, false, Some(StreamFailed(payload.error)));
          }
          reply := WithPayload(reply, payload.value);
          return Outcome(status, false, None);
        }
        if broken {
          return Outcome(502, true, Some(ReadFailed));
        }
        reply := WithStatus(reply, status);
        var sent := if BodyAllowed(status) then Taken(room, body) else "";
        reply := reply.(relayed := reply.relayed + sent, written := true);
        reply := WithPayload(reply, BodyPayload(body, q.decode));
        return Outcome(status, false, None);
    }

    /**
     HandleRequest: `models` is the group's balancer's list, None without a balancer, and `pick` what its
     Next returns.
     */
    method HandleRequest(q: Request, models: Option<seq<ModelConfig>>, pick: Option<ModelConfig>,
                         oracle: nat -> Upstream)
      requires reply == UNTOUCHED && attempts == [] && observed == []
      modifies this
      ensures models.None? ==> reply == WithError(UNTOUCHED, 404, NoSuchGroup) && attempts == []
      ensures models.Some? && (models.value == [] || pick.None?) ==>
                reply == WithError(UNTOUCHED, 503, NoModels) && attempts == []
      ensures models.Some? && models.value != [] && pick.Some? ==>
                var x := Handled(q, C.Candidates(models.value, pick.value), oracle);
                reply == x.reply && attempts == x.attempts && observed == x.observed
    {
      if models.None? {
        WriteError(404, NoSuchGroup);
        return;
      }
      if models.value == [] {
        WriteError(503, NoModels);
        return;
      }
      var candidates := C.DistinctRetryCandidates(models.value, pick);
      if candidates == [] {
        if pick.Some? {
          C.CandidatesCoverAllKeys(models.value, pick.value);
        }
        WriteError(503, NoModels);
        return;
      }
      TryCandidates(q, candidates, oracle);
    }

    /** One round: an attempt, the observation, and the answer to a failure that may not be retried. */
    method Round(q: Request, m: ModelConfig, u: Upstream, lastError: Option<Failure>)
      returns (o: Outcome, error: Option<Failure>)
      modifies this
      ensures Exchange(reply, attempts, observed, error, !o.retry)
              == Attempt(q, Exchange(old(reply), old(attempts), old(observed), lastError, false), m, u)
    {
      o := ForwardOnce(q, m, u);
      attempts := attempts + [m];
      observed := observed + Observed(m, o);
      if o.error.None? {
        return o, lastError;
      }
      error := o.error;
      if !o.retry && !reply.written {
        WriteError(o.status, error.value);
      }
    }

    /** The inner loop: one candidate, until it has had all its attempts or the exchange is over. */
    method TryCandidate(q: Request, m: ModelConfig, oracle: nat -> Upstream,
                        lastError: Option<Failure>, ghost schedule: seq<ModelConfig>)
      returns (over: bool, error: Option<Failure>)
      requires |attempts| + PerUpstreamAttempts(m) <= |schedule|
      requires forall k :: |attempts| <= k < |attempts| + PerUpstreamAttempts(m) ==> schedule[k] == m
      requires Exchange(reply, attempts, observed, lastError, false) == Play(q, schedule, oracle, |attempts|)
      modifies this
      ensures |attempts| <= |schedule|
      ensures Exchange(reply, attempts, observed, error, over) == Play(q, schedule, oracle, |attempts|)
      ensures !over ==> |attempts| == |old(attempts)| + PerUpstreamAttempts(m)
    {
      error := lastError;
      var maxAttempts := PerUpstreamAttempts(m);
      for attempt := 0 to maxAttempts
        invariant |attempts| == |old(attempts)| + attempt
        invariant Exchange(reply, attempts, observed, error, false) == Play(q, schedule, oracle, |attempts|)
      {
        var o;
        o, error := Round(q, m, oracle(|attempts|), error);
        if !o.retry {
          return true, error;
        }
      }
      over := false;
    }

    /** The outer loop. */
    method TryCandidates(q: Request, candidates: seq<ModelConfig>, oracle: nat -> Upstream)
      requires reply == UNTOUCHED && attempts == [] && observed == []
      modifies this
      ensures var x := Handled(q, candidates, oracle);
              reply == x.reply && attempts == x.attempts && observed == x.observed
    {
      var lastError: Option<Failure> := None;
      ghost var schedule := Schedule(candidates);
      ScheduleSize(candidates);
      for c := 0 to |candidates|
        invariant |attempts| == AttemptsBefore(candidates, c)
        invariant |attempts| <= |schedule|
        invariant Exchange(reply, attempts, observed, lastError, false) == Play(q, schedule, oracle, |attempts|)
      {
        CandidateBlock(candidates, c);
        var over;
        over, lastError := TryCandidate(q, candidates[c], oracle, lastError, schedule);
        if over {
          OverStaysOver(q, schedule, oracle, |attempts|, |schedule|);
          return;
        }
      }
      if lastError.Some? && !reply.written {
        WriteError(502, lastError.value);
      }
    }
  }
}
