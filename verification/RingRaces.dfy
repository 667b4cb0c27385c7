/**
 The rate limit under every interleaving. Cache access, ring lookup, ring creation, clock read and AllowAt are
 separate steps, and rings are shared objects that a request may hold after they have left the registry. What
 drops a key, be it an invalidation, a refused key or an idle eviction, drops its cache entry and its ring in
 two steps.
 */
module RingRaces {
  import opened RateLimit

  const WINDOW: int := MINUTE

  // ---------- State ----------

  /** One ring object; `calls` and `admitted` are its history in the order of its mutex. */
  datatype Ring = Ring(content: string, maxRequests: int, requests: seq<int>, calls: seq<int>, admitted: seq<int>)

  datatype Thread =
    // a request in checkKeyMiddleware
    | Caching(content: string, rpm: int)    // about to find or load its key
    | Looking(content: string, rpm: int)    // about to look its ring up under the read lock
    | Creating(content: string, rpm: int)   // about to take the write lock
    | Reading(ring: nat)                    // has a ring; about to read the clock
    | Calling(ring: nat, now: int)          // about to take the ring's mutex
    // whatever drops a key
    | Forgetting(content: string)           // about to delete the cache entry
    | Removing(content: string)             // about to delete the ring
    | Done

  datatype State = State(
    clock: int,
    cached: set<string>,
    registry: map<string, nat>,
    rings: seq<Ring>,           // every ring ever made
    threads: seq<Thread>,
    // history
    removed: seq<string>,       // the key of every ring that a removal took out of the registry
    replaced: seq<string>,      // the key of every ring that a new limit replaced
    lag: nat)                   // the longest time between a clock read and its AllowAt

  datatype Event =
    | Tick(elapsed: nat)
    | Request(content: string, rpm: int)
    | Remove(content: string)
    | Step(thread: nat)

  predicate Initial(s: State) {
    && s.cached == {} && s.registry == map[] && s.rings == [] && s.threads == []
    && s.removed == [] && s.replaced == [] && s.lag == 0
  }

  predicate Registered(s: State, content: string, rpm: int) {
    content in s.registry && s.registry[content] < |s.rings| && s.rings[s.registry[content]].maxRequests == rpm
  }

  /** The ring after a call at `now`. */
  function Called(r: Ring, now: int): Ring
    requires r.maxRequests > 0
  {
    var v := Admit(WINDOW, r.maxRequests, r.requests, now);
    r.(requests := v.requests, calls := r.calls + [now],
       admitted := if v.allowed then r.admitted + [now] else r.admitted)
  }

  /** Where a thread stands after its next step. */
  function Advance(s: State, t: Thread): Thread {
    match t
    case Caching(c, rpm) => if rpm > 0 then Looking(c, rpm) else Done
    case Looking(c, rpm) => if Registered(s, c, rpm) then Reading(s.registry[c]) else Creating(c, rpm)
    case Creating(c, rpm) => Reading(if Registered(s, c, rpm) then s.registry[c] else |s.rings|)
    case Reading(ring) => Calling(ring, s.clock)
    case Forgetting(c) => Removing(c)
    case _ => Done
  }

  /** What that step does to everything the threads share. */
  function Effect(s: State, t: Thread): State {
    match t
    case Caching(c, _) => s.(cached := s.cached + {c})
    case Creating(c, rpm) =>
      if Registered(s, c, rpm) then s
      else
        s.(rings := s.rings + [Ring(c, rpm, [], [], [])], registry := s.registry[c := |s.rings|],
           replaced := if c in s.registry then s.replaced + [c] else s.replaced)
    case Calling(ring, now) =>
      if ring < |s.rings| && s.rings[ring].maxRequests > 0 then
        s.(rings := s.rings[ring := Called(s.rings[ring], now)],
           lag := if s.clock - now > s.lag then s.clock - now else s.lag)
      else s
    case Forgetting(c) => s.(cached := s.cached - {c})
    case Removing(c) =>
      if c in s.registry then s.(registry := s.registry - {c}, removed := s.removed + [c]) else s
    case _ => s
  }

  function Next(s: State, e: Event): State {
    match e
    case Tick(elapsed) => s.(clock := s.clock + elapsed)
    case Request(c, rpm) => s.(threads := s.threads + [Caching(c, rpm)])
    case Remove(c) => s.(threads := s.threads + [Forgetting(c)])
    case Step(i) =>
      if i < |s.threads| then Effect(s, s.threads[i]).(threads := s.threads[i := Advance(s, s.threads[i])]) else s
  }

  function Run(s: State, events: seq<Event>): State {
    if events == [] then s else Next(Run(s, events[..|events| - 1]), events[|events| - 1])
  }

  // ---------- The invariant ----------

  /** How many rings have been made for a key. */
  function Made(rings: seq<Ring>, content: string): nat {
    if rings == [] then 0
    else Made(rings[..|rings| - 1], content) + if rings[|rings| - 1].content == content then 1 else 0
  }

  function Times(contents: seq<string>, content: string): nat {
    multiset(contents)[content]
  }

  /** The ring is the one its calls make, none of them in the future and none later than `lag`. */
  ghost predicate RingOk(r: Ring, clock: int, lag: nat) {
    && r.maxRequests > 0
    && RunFrom(WINDOW, r.maxRequests, [], r.calls) == RateLimit.Run(r.requests, r.admitted)
    && SkewAtMost(r.calls, lag)
    && forall i :: 0 <= i < |r.calls| ==> r.calls[i] <= clock
  }

  ghost predicate ThreadOk(t: Thread, made: nat, clock: int) {
    match t
    case Looking(_, rpm) => rpm > 0
    case Creating(_, rpm) => rpm > 0
    case Reading(ring) => ring < made
    case Calling(ring, now) => ring < made && now <= clock
    case _ => true
  }

  ghost predicate RingsOk(s: State) {
    AllRingsOk(s.rings, s.clock, s.lag)
  }

  ghost predicate ThreadsOk(s: State) {
    forall i :: 0 <= i < |s.threads| ==> ThreadOk(s.threads[i], |s.rings|, s.clock)
  }

  ghost predicate RegistryOk(s: State) {
    forall c :: c in s.registry ==> s.registry[c] < |s.rings| && s.rings[s.registry[c]].content == c
  }

  /** Every ring of a key but the registered one has been removed or replaced. */
  ghost predicate Counted(s: State, content: string) {
    Made(s.rings, content)
    == Times(s.removed, content) + Times(s.replaced, content) + if content in s.registry then 1 else 0
  }

  ghost predicate Inv(s: State) {
    RingsOk(s) && ThreadsOk(s) && RegistryOk(s) && forall c :: Counted(s, c)
  }

  lemma {:induction false} CallKeepsRing(r: Ring, clock: int, lag: nat, now: int, later: nat)
    requires RingOk(r, clock, lag) && now <= clock && lag <= later && clock - now <= later
    ensures RingOk(Called(r, now), clock, later)
  {
    RunSnoc(WINDOW, r.maxRequests, [], r.calls, now);
  }

  lemma MadeAppend(rings: seq<Ring>, r: Ring, content: string)
    ensures Made(rings + [r], content) == Made(rings, content) + if r.content == content then 1 else 0
  {
    assert (rings + [r])[..|rings|] == rings;
  }

  lemma {:induction false} MadeUpdate(rings: seq<Ring>, i: nat, r: Ring, content: string)
    requires i < |rings| && r.content == rings[i].content
    ensures Made(rings[i := r], content) == Made(rings, content)
  {
    var last := |rings| - 1;
    if i < last {
      assert rings[i := r][..last] == rings[..last][i := r];
      MadeUpdate(rings[..last], i, r, content);
    } else {
      assert rings[i := r][..last] == rings[..last];
    }
  }

  lemma CreateKeepsShared(s: State, c: string, rpm: int)
    requires RingsOk(s) && RegistryOk(s) && rpm > 0
    ensures RingsOk(Effect(s, Creating(c, rpm))) && RegistryOk(Effect(s, Creating(c, rpm)))
  {
    assert RunFrom(WINDOW, rpm, [], []) == RateLimit.Run([], []);
  }

  lemma {:induction false} CreateKeepsCount(s: State, c: string, rpm: int, d: string)
    requires Counted(s, d)
    ensures RegistryOk(s) ==> Counted(Effect(s, Creating(c, rpm)), d)
  {
    MadeAppend(s.rings, Ring(c, rpm, [], [], []), d);
  }

  lemma RingOkLater(r: Ring, clock: int, lag: nat, laterClock: int, laterLag: nat)
    requires RingOk(r, clock, lag) && clock <= laterClock && lag <= laterLag
    ensures RingOk(r, laterClock, laterLag)
  {
  }

  ghost predicate AllRingsOk(rings: seq<Ring>, clock: int, lag: nat) {
    forall i :: 0 <= i < |rings| ==> RingOk(rings[i], clock, lag)
  }

  lemma {:induction false} UpdateKeepsRings(rings: seq<Ring>, i: nat, r: Ring, clock: int, lag: nat, later: nat)
    requires AllRingsOk(rings, clock, lag) && i < |rings| && lag <= later && RingOk(r, clock, later)
    ensures AllRingsOk(rings[i := r], clock, later)
  {
    var updated := rings[i := r];
    forall j | 0 <= j < |updated|
      ensures RingOk(updated[j], clock, later)
    {
      if j != i {
        RingOkLater(rings[j], clock, lag, clock, later);
      }
    }
  }

  lemma CallKeepsShared(s: State, ring: nat, now: int)
    requires RingsOk(s) && RegistryOk(s) && ring < |s.rings| && now <= s.clock
    ensures RingsOk(Effect(s, Calling(ring, now))) && RegistryOk(Effect(s, Calling(ring, now)))
  {
    var lag: nat := if s.clock - now > s.lag then s.clock - now else s.lag;
    assert RingOk(s.rings[ring], s.clock, s.lag);
    CallKeepsRing(s.rings[ring], s.clock, s.lag, now, lag);
    UpdateKeepsRings(s.rings, ring, Called(s.rings[ring], now), s.clock, s.lag, lag);
  }

  lemma {:induction false} CallKeepsCount(s: State, ring: nat, now: int, d: string)
    requires Counted(s, d) && ring < |s.rings| && s.rings[ring].maxRequests > 0
    ensures Counted(Effect(s, Calling(ring, now)), d)
  {
    MadeUpdate(s.rings, ring, Called(s.rings[ring], now), d);
  }

  lemma RemoveKeepsCount(s: State, c: string, d: string)
    requires Counted(s, d)
    ensures Counted(Effect(s, Removing(c)), d)
  {
  }

  lemma {:induction false} EffectKeepsCount(s: State, t: Thread, d: string)
    requires Counted(s, d) && RingsOk(s) && RegistryOk(s) && ThreadOk(t, |s.rings|, s.clock)
    ensures Counted(Effect(s, t), d)
  {
    match t
    case Creating(c, rpm) => CreateKeepsCount(s, c, rpm, d);
    case Calling(ring, now) =>
      assert RingOk(s.rings[ring], s.clock, s.lag);
      CallKeepsCount(s, ring, now, d);
    case Removing(c) => RemoveKeepsCount(s, c, d);
    case _ =>
  }

  lemma EffectKeepsShared(s: State, t: Thread)
    requires RingsOk(s) && RegistryOk(s) && ThreadOk(t, |s.rings|, s.clock)
    ensures RingsOk(Effect(s, t)) && RegistryOk(Effect(s, t))
    ensures |Effect(s, t).rings| >= |s.rings| && Effect(s, t).clock == s.clock
  {
    match t
    case Creating(c, rpm) => CreateKeepsShared(s, c, rpm);
    case Calling(ring, now) => CallKeepsShared(s, ring, now);
    case _ =>
  }

  lemma AdvanceKeepsThread(s: State, t: Thread)
    requires RegistryOk(s) && ThreadOk(t, |s.rings|, s.clock)
    ensures ThreadOk(Advance(s, t), |Effect(s, t).rings|, s.clock)
  {
  }

  lemma {:induction false} StepKeepsInv(s: State, i: nat)
    requires Inv(s) && i < |s.threads|
    ensures Inv(Next(s, Step(i)))
  {
    var t, u := s.threads[i], Next(s, Step(i));
    assert ThreadOk(t, |s.rings|, s.clock);
    EffectKeepsShared(s, t);
    AdvanceKeepsThread(s, t);
    forall j | 0 <= j < |u.threads|
      ensures ThreadOk(u.threads[j], |u.rings|, u.clock)
    {
      assert ThreadOk(s.threads[j], |s.rings|, s.clock);
    }
    forall c
      ensures Counted(u, c)
    {
      assert Counted(s, c);
      EffectKeepsCount(s, t, c);
    }
  }

  lemma TickKeepsInv(s: State, elapsed: nat)
    requires Inv(s)
    ensures Inv(Next(s, Tick(elapsed)))
  {
    var t := Next(s, Tick(elapsed));
    forall i | 0 <= i < |t.rings|
      ensures RingOk(t.rings[i], t.clock, t.lag)
    {
      RingOkLater(s.rings[i], s.clock, s.lag, t.clock, s.lag);
    }
    forall c
      ensures Counted(t, c)
    {
      assert Counted(s, c);
    }
  }

  lemma SpawnKeepsInv(s: State, t: Thread)
    requires Inv(s) && (t.Caching? || t.Forgetting?)
    ensures Inv(s.(threads := s.threads + [t]))
  {
    forall c
      ensures Counted(s.(threads := s.threads + [t]), c)
    {
      assert Counted(s, c);
    }
  }

  lemma {:induction false} RunKeepsInv(s: State, events: seq<Event>)
    requires Initial(s)
    ensures Inv(Run(s, events))
  {
    if events != [] {
      var before := Run(s, events[..|events| - 1]);
      RunKeepsInv(s, events[..|events| - 1]);
      match events[|events| - 1]
      case Tick(elapsed) => TickKeepsInv(before, elapsed);
      case Request(c, rpm) => SpawnKeepsInv(before, Caching(c, rpm));
      case Remove(c) => SpawnKeepsInv(before, Forgetting(c));
      case Step(i) =>
        if i < |before.threads| {
          StepKeepsInv(before, i);
        }
    }
  }

  // ---------- One ring ----------

  /**
   However requests interleave, no ring admits more than its limit in an interval of its safe length, where the
   skew is the longest time any request took from its clock read to the ring's mutex.
   */
  lemma {:induction false} EachRingKeepsItsLimit(s: State, events: seq<Event>, i: nat, lo: int)
    requires Initial(s) && i < |Run(s, events).rings|
    ensures var r := Run(s, events).rings[i];
            CountIn(r.admitted, lo, lo + SafeLength(WINDOW, r.maxRequests, Run(s, events).lag)) <= r.maxRequests
  {
    RunKeepsInv(s, events);
    var r := Run(s, events).rings[i];
    assert RingOk(r, Run(s, events).clock, Run(s, events).lag);
    SafeIntervalBound(WINDOW, r.maxRequests, r.calls, Run(s, events).lag, lo);
  }

  /** A request only ever comes to hold a ring of its own key with the limit it asks for. */
  lemma RingHasAskedLimit(s: State, i: nat)
    requires Inv(s) && i < |s.threads| && (s.threads[i].Looking? || s.threads[i].Creating?)
    ensures var t, u := s.threads[i], Next(s, Step(i));
            u.threads[i].Reading? ==>
              && u.threads[i].ring < |u.rings|
              && u.rings[u.threads[i].ring].content == t.content && u.rings[u.threads[i].ring].maxRequests == t.rpm
    ensures s.threads[i].Creating? ==> Next(s, Step(i)).threads[i].Reading?
  {
  }

  // ---------- One key ----------

  /** What all rings of a key have admitted in the interval. */
  function AdmittedFor(rings: seq<Ring>, content: string, lo: int, hi: int): nat {
    if rings == [] then 0
    else
      var before, r := AdmittedFor(rings[..|rings| - 1], content, lo, hi), rings[|rings| - 1];
      if r.content == content then before + CountIn(r.admitted, lo, hi) else before
  }

  /** No request for the key has a limit above `limit`. */
  ghost predicate LimitedTo(events: seq<Event>, content: string, limit: int) {
    forall i :: 0 <= i < |events| && events[i].Request? && events[i].content == content ==> events[i].rpm <= limit
  }

  /** The limit a thread is going to ask of the registry for the key. */
  predicate Asks(t: Thread, content: string, limit: int) {
    (t.Caching? || t.Looking? || t.Creating?) && t.content == content ==> t.rpm <= limit
  }

  ghost predicate WithinLimit(s: State, content: string, limit: int) {
    && (forall i :: 0 <= i < |s.threads| ==> Asks(s.threads[i], content, limit))
    && (forall i :: 0 <= i < |s.rings| && s.rings[i].content == content ==> s.rings[i].maxRequests <= limit)
  }

  lemma NextKeepsWithin(s: State, e: Event, content: string, limit: int)
    requires WithinLimit(s, content, limit)
    requires e.Request? && e.content == content ==> e.rpm <= limit
    ensures WithinLimit(Next(s, e), content, limit)
  {
    if e.Step? && e.thread < |s.threads| {
      assert Asks(s.threads[e.thread], content, limit);
    }
  }

  lemma {:induction false} RunKeepsWithin(s: State, events: seq<Event>, content: string, limit: int)
    requires Initial(s) && LimitedTo(events, content, limit)
    ensures WithinLimit(Run(s, events), content, limit)
  {
    if events != [] {
      RunKeepsWithin(s, events[..|events| - 1], content, limit);
      NextKeepsWithin(Run(s, events[..|events| - 1]), events[|events| - 1], content, limit);
    }
  }

  ghost predicate EachAtMost(rings: seq<Ring>, content: string, lo: int, hi: int, limit: int) {
    forall i :: 0 <= i < |rings| && rings[i].content == content ==> CountIn(rings[i].admitted, lo, hi) <= limit
  }

  lemma {:induction false} AdmittedAtMost(rings: seq<Ring>, content: string, lo: int, hi: int, limit: int)
    requires EachAtMost(rings, content, lo, hi, limit)
    ensures AdmittedFor(rings, content, lo, hi) <= Made(rings, content) * limit
  {
    if rings != [] {
      var init, last := rings[..|rings| - 1], rings[|rings| - 1];
      AdmittedAtMost(init, content, lo, hi, limit);
      OneMoreRing(Made(init, content), limit);
      assert last.content == content ==> CountIn(last.admitted, lo, hi) <= limit;
    }
  }

  lemma OneMoreRing(made: nat, limit: int)
    ensures (made + 1) * limit == made * limit + limit
  {
  }

  /** The length that is safe for a ring of any limit. */
  function CommonLength(lag: nat): int {
    if lag < WINDOW then WINDOW - lag else 0
  }

  lemma {:induction false} RingsAtMost(s: State, events: seq<Event>, content: string, limit: int, lo: int)
    requires Initial(s) && LimitedTo(events, content, limit)
    ensures var r := Run(s, events);
            EachAtMost(r.rings, content, lo, lo + CommonLength(r.lag), limit)
  {
    RunKeepsWithin(s, events, content, limit);
    var r := Run(s, events);
    forall i | 0 <= i < |r.rings| && r.rings[i].content == content
      ensures CountIn(r.rings[i].admitted, lo, lo + CommonLength(r.lag)) <= limit
    {
      EachRingKeepsItsLimit(s, events, i, lo);
      var safe := SafeLength(WINDOW, r.rings[i].maxRequests, r.lag);
      CountGrows(r.rings[i].admitted, lo, lo + CommonLength(r.lag), lo + safe);
    }
  }

  /**
   However requests and removals interleave, all rings of a key together admit in such an interval at most its
   limit once more than rings of it have been removed or replaced.
   */
  lemma {:induction false} RemovalsBoundAdmissions(s: State, events: seq<Event>, content: string, limit: nat, lo: int)
    requires Initial(s) && LimitedTo(events, content, limit)
    ensures var r := Run(s, events);
            AdmittedFor(r.rings, content, lo, lo + CommonLength(r.lag))
            <= (1 + Times(r.removed, content) + Times(r.replaced, content)) * limit
  {
    var r := Run(s, events);
    RingsAtMost(s, events, content, limit, lo);
    AdmittedAtMost(r.rings, content, lo, lo + CommonLength(r.lag), limit);
    RunKeepsInv(s, events);
    assert Counted(r, content);
    Product(Made(r.rings, content), 1 + Times(r.removed, content) + Times(r.replaced, content), limit);
  }

  lemma Product(a: nat, b: nat, limit: nat)
    requires a <= b
    ensures a * limit <= b * limit
  {
  }

  // ---------- Rings outlive their entries ----------

  lemma {:induction false} Then(s: State, events: seq<Event>, r: State, e: Event)
    returns (more: seq<Event>, next: State)
    requires Run(s, events) == r
    ensures more == events + [e] && next == Next(r, e) && Run(s, more) == next
  {
    more, next := events + [e], Next(r, e);
    assert more[..|more| - 1] == events && more[|more| - 1] == e;
  }

  /** A step of thread `i`. */
  lemma {:induction false} ThenStep(s: State, events: seq<Event>, r: State, i: nat)
    returns (more: seq<Event>, next: State)
    requires Run(s, events) == r && i < |r.threads|
    ensures more == events + [Step(i)] && Run(s, more) == next
    ensures next == Effect(r, r.threads[i]).(threads := r.threads[i := Advance(r, r.threads[i])])
  {
    more, next := Then(s, events, r, Step(i));
  }

  /** A request that has cached its key and found no ring, when the key is dropped again. */
  lemma {:induction false} DropWhileCreating(s: State, c: string, rpm: int) returns (events: seq<Event>, t: State)
    requires Initial(s) && rpm > 0
    ensures Run(s, events) == t
    ensures t == s.(threads := [Creating(c, rpm), Done])
  {
    events, t := Then(s, [], s, Request(c, rpm));
    events, t := ThenStep(s, events, t, 0);
    events, t := ThenStep(s, events, t, 0);
    events, t := Then(s, events, t, Remove(c));
    assert t.threads == [Creating(c, rpm), Forgetting(c)] && t.cached == {c};
    events, t := ThenStep(s, events, t, 1);
    events, t := ThenStep(s, events, t, 1);
    assert t.cached == {} && t.threads == [Creating(c, rpm), Done];
  }

  /**
   Once the steps of requests and removals interleave, rings do not exist for cached keys only: every key with a
   limit can be left with a registered ring and no cache entry, all threads done.
   */
  lemma {:induction false} RingOutlivesEntry(s: State, c: string, rpm: int) returns (events: seq<Event>)
    requires Initial(s) && rpm > 0
    ensures var t := Run(s, events);
            c in t.registry && c !in t.cached && t.threads == [Done, Done]
  {
    var t;
    events, t := DropWhileCreating(s, c, rpm);
    events, t := ThenStep(s, events, t, 0);
    assert t.threads == [Reading(0), Done] && c in t.registry;
    events, t := ThenStep(s, events, t, 0);
    events, t := ThenStep(s, events, t, 0);
  }

  // ---------- The bound on a key is tight ----------

  /** A ring for the key that has admitted `n` calls, all at `at`. */
  function Filled(c: string, limit: int, at: int, n: nat): Ring {
    Ring(c, limit, Repeat(at, n), Repeat(at, n), Repeat(at, n))
  }

  /** Nothing about the state but its rings, threads and cache differs from the other. */
  ghost predicate SameHistory(s: State, t: State) {
    t.clock == s.clock && t.removed == s.removed && t.replaced == s.replaced && t.lag == s.lag
  }

  lemma {:induction false} FillOneMore(c: string, limit: int, at: int, n: nat)
    requires n < limit
    ensures Called(Filled(c, limit, at, n), at) == Filled(c, limit, at, n + 1)
  {
    var ring := Repeat(at, n);
    assert Prune(ring, at - WINDOW) == ring;
    assert Repeat(at, n) + [at] == Repeat(at, n + 1);
  }

  /** A request that comes to hold a ring of its key: the registered one, or a new one. */
  lemma {:induction false} Hold(s: State, before: seq<Event>, a: State, c: string, limit: int)
    returns (events: seq<Event>, t: State)
    requires Run(s, before) == a && limit > 0 && (c in a.registry ==> Registered(a, c, limit))
    requires LimitedTo(before, c, limit)
    ensures Run(s, events) == t && SameHistory(a, t) && LimitedTo(events, c, limit)
    ensures t.rings == if c in a.registry then a.rings else a.rings + [Filled(c, limit, a.clock, 0)]
    ensures t.registry == if c in a.registry then a.registry else a.registry[c := |a.rings|]
    ensures t.threads == a.threads + [Reading(t.registry[c])]
  {
    var i := |a.threads|;
    events, t := Then(s, before, a, Request(c, limit));
    events, t := ThenStep(s, events, t, i);
    events, t := ThenStep(s, events, t, i);
    if c !in a.registry {
      assert t.threads == a.threads + [Creating(c, limit)];
      events, t := ThenStep(s, events, t, i);
      assert Filled(c, limit, a.clock, 0) == Ring(c, limit, [], [], []);
    }
    assert t.threads == a.threads + [Reading(t.registry[c])];
  }

  /** Its call, made at once. */
  lemma {:induction false} Call(s: State, before: seq<Event>, a: State, ring: nat, ts: seq<Thread>,
                                c: string, limit: int)
    returns (events: seq<Event>, t: State)
    requires Run(s, before) == a && a.threads == ts + [Reading(ring)] && LimitedTo(before, c, limit)
    requires ring < |a.rings| && a.rings[ring].maxRequests > 0
    ensures Run(s, events) == t && SameHistory(a, t) && LimitedTo(events, c, limit)
    ensures t.rings == a.rings[ring := Called(a.rings[ring], a.clock)] && t.registry == a.registry
  {
    events, t := ThenStep(s, before, a, |ts|);
    assert t.threads == ts + [Calling(ring, a.clock)];
    events, t := ThenStep(s, events, t, |ts|);
  }

  /** A key's whole limit, admitted at one instant into a new last ring. */
  lemma {:induction false} Fill(s: State, before: seq<Event>, a: State, c: string, limit: int, n: nat)
    returns (events: seq<Event>, t: State)
    requires Run(s, before) == a && c !in a.registry && 0 < n <= limit && LimitedTo(before, c, limit)
    ensures Run(s, events) == t && SameHistory(a, t) && LimitedTo(events, c, limit)
    ensures t.registry == a.registry[c := |a.rings|]
    ensures t.rings == a.rings + [Filled(c, limit, a.clock, n)]
  {
    var last := |a.rings|;
    if n == 1 {
      events, t := Hold(s, before, a, c, limit);
    } else {
      events, t := Fill(s, before, a, c, limit, n - 1);
      events, t := Hold(s, events, t, c, limit);
    }
    FillOneMore(c, limit, a.clock, n - 1);
    var rings := t.rings;
    assert rings == a.rings + [Filled(c, limit, a.clock, n - 1)];
    events, t := Call(s, events, t, last, t.threads[..|t.threads| - 1], c, limit);
    assert t.rings == rings[last := Filled(c, limit, a.clock, n)];
  }

  /** A removal, run to its end. */
  lemma {:induction false} Drop(s: State, before: seq<Event>, a: State, c: string, limit: int)
    returns (events: seq<Event>, t: State)
    requires Run(s, before) == a && c in a.registry && LimitedTo(before, c, limit)
    ensures Run(s, events) == t && LimitedTo(events, c, limit)
    ensures t.clock == a.clock && t.replaced == a.replaced && t.lag == a.lag && t.rings == a.rings
    ensures t.removed == a.removed + [c] && t.registry == a.registry - {c}
  {
    var i := |a.threads|;
    events, t := Then(s, before, a, Remove(c));
    events, t := ThenStep(s, events, t, i);
    events, t := ThenStep(s, events, t, i);
  }

  lemma {:induction false} FilledCounts(c: string, limit: int, at: int, n: nat, rings: seq<Ring>)
    ensures AdmittedFor(rings + [Filled(c, limit, at, n)], c, at, at + 1) == AdmittedFor(rings, c, at, at + 1) + n
  {
    assert (rings + [Filled(c, limit, at, n)])[..|rings|] == rings;
    CountBounds(Repeat(at, n), at, at + 1);
  }

  /** A ring of the key is removed, and a new one takes the whole limit again. */
  lemma {:induction false} DropAndFill(s: State, before: seq<Event>, a: State, c: string, limit: int)
    returns (events: seq<Event>, t: State)
    requires Run(s, before) == a && c in a.registry && limit > 0 && LimitedTo(before, c, limit)
    ensures Run(s, events) == t && LimitedTo(events, c, limit)
    ensures t.clock == a.clock && t.replaced == a.replaced && t.lag == a.lag
    ensures t.removed == a.removed + [c] && c in t.registry
    ensures AdmittedFor(t.rings, c, a.clock, a.clock + 1) == AdmittedFor(a.rings, c, a.clock, a.clock + 1) + limit
  {
    events, t := Drop(s, before, a, c, limit);
    events, t := Fill(s, events, t, c, limit, limit);
    FilledCounts(c, limit, a.clock, limit, a.rings);
  }

  lemma {:induction false} FillFirst(s: State, c: string, limit: int) returns (events: seq<Event>, t: State)
    requires Initial(s) && limit > 0
    ensures Run(s, events) == t && LimitedTo(events, c, limit) && SameHistory(s, t) && c in t.registry
    ensures AdmittedFor(t.rings, c, s.clock, s.clock + 1) == limit
  {
    events, t := Fill(s, [], s, c, limit, limit);
    FilledCounts(c, limit, s.clock, limit, []);
    assert s.rings + [Filled(c, limit, s.clock, limit)] == [] + [Filled(c, limit, s.clock, limit)];
  }

  /** What that many full rings have admitted. */
  function Allowance(limit: int, rings: nat): int {
    if rings == 0 then 0 else Allowance(limit, rings - 1) + limit
  }

  lemma {:induction false} AllowanceIsProduct(limit: int, rings: nat)
    ensures Allowance(limit, rings) == rings * limit
  {
    if rings > 0 {
      AllowanceIsProduct(limit, rings - 1);
      OneMoreRing(rings - 1, limit);
    }
  }

  /** A run that has removed the key's ring that often, and filled it before and after every time. */
  ghost predicate FilledUp(s: State, events: seq<Event>, t: State, c: string, limit: int, removals: nat) {
    && Run(s, events) == t && LimitedTo(events, c, limit)
    && t.clock == s.clock && t.replaced == [] && t.lag == 0 && c in t.registry
    && Times(t.removed, c) == removals
    && AdmittedFor(t.rings, c, s.clock, s.clock + 1) == Allowance(limit, removals + 1)
  }

  lemma {:induction false} FillOnce(s: State, c: string, limit: int) returns (events: seq<Event>, t: State)
    requires Initial(s) && limit > 0
    ensures FilledUp(s, events, t, c, limit, 0)
  {
    events, t := FillFirst(s, c, limit);
  }

  lemma {:induction false} FillAgain(s: State, before: seq<Event>, a: State, c: string, limit: int, removals: nat)
    returns (events: seq<Event>, t: State)
    requires limit > 0 && FilledUp(s, before, a, c, limit, removals)
    ensures FilledUp(s, events, t, c, limit, removals + 1)
  {
    TimesAppend(a.removed, c);
    events, t := DropAndFill(s, before, a, c, limit);
  }

  lemma TimesAppend(contents: seq<string>, c: string)
    ensures Times(contents + [c], c) == Times(contents, c) + 1
  {
  }

  lemma {:induction false} FillAfterRemovals(s: State, c: string, limit: int, removals: nat)
    returns (events: seq<Event>, t: State)
    requires Initial(s) && limit > 0
    ensures FilledUp(s, events, t, c, limit, removals)
  {
    if removals == 0 {
      events, t := FillOnce(s, c, limit);
    } else {
      events, t := FillAfterRemovals(s, c, limit, removals - 1);
      events, t := FillAgain(s, events, t, c, limit, removals - 1);
    }
  }

  /**
   The bound cannot be improved: for every limit and every number of removals there is a run without lag or
   change of limit that admits the limit once more than it removes the key's ring, all at one instant.
   */
  lemma {:induction false} RemovalsBoundIsTight(s: State, c: string, limit: nat, removals: nat)
    returns (events: seq<Event>, t: State)
    requires Initial(s) && limit > 0
    ensures Run(s, events) == t && LimitedTo(events, c, limit)
    ensures t.replaced == [] && t.lag == 0 && Times(t.removed, c) == removals
    ensures AdmittedFor(t.rings, c, t.clock, t.clock + 1) == (1 + removals) * limit
  {
    events, t := FillAfterRemovals(s, c, limit, removals);
    AllowanceIsProduct(limit, removals + 1);
  }
}
