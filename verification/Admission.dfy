/**
 The key check and the rate limit together, with every request and every refresh run as one step: the
 key cache, the registry of rings beside it, idle eviction, and the bound that survives it.
 */
module Admission {
  import opened Basics
  import opened KeyCache
  import opened RateLimit

  const WINDOW: int := MINUTE

  /** How far a request's second clock read may be from its first; see SlidingBoundSurvivesEviction. */
  const MAX_GAP: int := IDLE_TTL + 1 - WINDOW

  // ---------- The steps as functions ----------

  datatype RingState = RingState(maxRequests: int, requests: seq<int>)

  datatype Tables = Tables(cache: Cache, rings: map<string, RingState>)

  datatype KeyResult = Valid(key: Key) | Invalid(failure: Failure) | Unchecked

  datatype Answer = Passed(key: Key) | Refused(failure: Failure) | CheckUnavailable | RateLimited(retryAfter: int)

  /** A cached key and its ring go together. */
  function Forget(g: Tables, contents: set<string>): Tables {
    Tables(g.cache - contents, g.rings - contents)
  }

  /** getValidKeyForRequest, with `loaded` as what the query would return. */
  function ValidKey(g: Tables, content: string, now: int, loaded: LoadResult): (Tables, KeyResult) {
    match OnLookup(Lookup(g.cache, content), now)
    case Deny(failure) => (Forget(g, {content}), Invalid(failure))
    case Hit(key) => (g.(cache := Touch(g.cache, content, now)), Valid(key))
    case Miss =>
      match OnLoad(loaded, now)
      case Unavailable => (g, Unchecked)
      case Reject(failure) => (Forget(g, {content}), Invalid(failure))
      case Store(key) => (g.(cache := Upsert(g.cache, key, now, now)), Valid(key))
  }

  /** GetOrCreateRequestRing */
  function RingFor(rings: map<string, RingState>, content: string, rpm: int): RingState {
    if content in rings && rings[content].maxRequests == rpm then rings[content] else RingState(rpm, [])
  }

  /** The rate-limit half of checkKeyMiddleware. */
  function Limit(g: Tables, content: string, key: Key, ringNow: int): (Tables, Answer) {
    if key.requestPerMinute <= 0 then (g, Passed(key))
    else
      var v := Admit(WINDOW, key.requestPerMinute, RingFor(g.rings, content, key.requestPerMinute).requests, ringNow);
      (g.(rings := g.rings[content := RingState(key.requestPerMinute, v.requests)]),
       if v.allowed then Passed(key) else RateLimited(v.retryAfter))
  }

  /** checkKeyMiddleware up to the model check: the key at `now`, the ring at `ringNow`. */
  function Check(g: Tables, content: string, now: int, ringNow: int, loaded: LoadResult): (Tables, Answer) {
    var (g', result) := ValidKey(g, content, now, loaded);
    match result
    case Invalid(failure) => (g', Refused(failure))
    case Unchecked => (g', CheckUnavailable)
    case Valid(key) => Limit(g', content, key, ringNow)
  }

  type Loads = map<string, LoadResult>

  function LoadFor(loads: Loads, content: string): LoadResult {
    if content in loads then loads[content] else LoadError
  }

  datatype Swept = Idle | Gone | Kept(entry: CachedKey)

  /** What one refresh makes of one entry. */
  function Sweep(entry: CachedKey, now: int, loaded: LoadResult): Swept {
    match OnSweep(entry, now)
    case Evict => Idle
    case Fresh => Kept(entry)
    case Reload =>
      match loaded
      case LoadError => Kept(entry)
      case NotFound => Gone
      case Found(key) =>
        Kept(CachedKey(ApplyEffectiveModelPermissions(key), now,
                       if entry.lastAccessAt == ZERO_TIME then now else entry.lastAccessAt))
  }

  /** refreshCachedKeys, after it has handled the entries in `done`. */
  function RefreshOf(g: Tables, now: int, loads: Loads, done: set<string>): Tables {
    Tables(
      map c | c in g.cache && (c in done ==> Sweep(g.cache[c], now, LoadFor(loads, c)).Kept?)
        :: if c in done then Sweep(g.cache[c], now, LoadFor(loads, c)).entry else g.cache[c],
      map c | c in g.rings && (c in done && c in g.cache ==> Sweep(g.cache[c], now, LoadFor(loads, c)).Kept?)
        :: g.rings[c])
  }

  function Refresh(g: Tables, now: int, loads: Loads): Tables {
    RefreshOf(g, now, loads, g.cache.Keys)
  }

  /** Handling one more entry drops it, leaves it alone or replaces it, and touches nothing else. */
  lemma {:induction false} RefreshOneMore(g: Tables, now: int, loads: Loads, done: set<string>, c: string)
    requires c in g.cache && c !in done
    ensures var before, after := RefreshOf(g, now, loads, done), RefreshOf(g, now, loads, done + {c});
            match Sweep(g.cache[c], now, LoadFor(loads, c))
            case Kept(entry) => after == before.(cache := before.cache[c := entry])
            case _ => after == Forget(before, {c})
    ensures RefreshOf(g, now, loads, done).cache[c := g.cache[c]] == RefreshOf(g, now, loads, done).cache
  {
    var before, after := RefreshOf(g, now, loads, done), RefreshOf(g, now, loads, done + {c});
    if Sweep(g.cache[c], now, LoadFor(loads, c)).Kept? {
      assert after.rings == before.rings;
      assert after.cache == before.cache[c := Sweep(g.cache[c], now, LoadFor(loads, c)).entry];
    } else {
      assert after.rings == before.rings - {c};
      assert after.cache == before.cache - {c};
    }
  }

  // ---------- Runs ----------

  /** The admissions of one key since its ring was last reset, and the limit in force since then. */
  datatype Epoch = Epoch(rpm: int, admitted: seq<int>)

  datatype System = System(tables: Tables, book: map<string, Epoch>, clock: int)

  datatype Event =
    | CheckKey(content: string, now: int, ringNow: int, loaded: LoadResult)
    | RefreshKeys(now: int, loads: Loads)
    | InvalidateKeys(contents: set<string>)

  /** The query for a key returns a row with that key's content. */
  predicate LoadMatches(content: string, loaded: LoadResult) {
    loaded.Found? ==> loaded.key.content == content
  }

  /** Time does not run backwards, and a request's two clock reads are no further apart than MAX_GAP. */
  predicate Enabled(s: System, e: Event) {
    match e
    case CheckKey(content, now, ringNow, loaded) =>
      s.clock <= now <= ringNow <= now + MAX_GAP && LoadMatches(content, loaded)
    case RefreshKeys(now, loads) => s.clock <= now && forall c :: c in loads ==> LoadMatches(c, loads[c])
    case InvalidateKeys(_) => true
  }

  function EpochFor(book: map<string, Epoch>, content: string, rpm: int): Epoch {
    if content in book && book[content].rpm == rpm then book[content] else Epoch(rpm, [])
  }

  /** A refused key, an invalidation and a change of limit start a new epoch; an idle eviction does not. */
  function BookAfterCheck(book: map<string, Epoch>, content: string, ringNow: int, result: KeyResult, answer: Answer)
    : map<string, Epoch>
  {
    match result
    case Unchecked => book
    case Invalid(_) => book - {content}
    case Valid(key) =>
      if key.requestPerMinute <= 0 then book
      else
        var epoch := EpochFor(book, content, key.requestPerMinute);
        book[content := if answer.Passed? then epoch.(admitted := epoch.admitted + [ringNow]) else epoch]
  }

  function Next(s: System, e: Event): System {
    if !Enabled(s, e) then s
    else
      match e
      case CheckKey(content, now, ringNow, loaded) =>
        var result := ValidKey(s.tables, content, now, loaded).1;
        var (tables, answer) := Check(s.tables, content, now, ringNow, loaded);
        System(tables, BookAfterCheck(s.book, content, ringNow, result, answer), ringNow)
      case RefreshKeys(now, loads) =>
        var gone := set c | c in s.tables.cache && Sweep(s.tables.cache[c], now, LoadFor(loads, c)).Gone?;
        System(Refresh(s.tables, now, loads), s.book - gone, now)
      case InvalidateKeys(contents) => System(Forget(s.tables, contents), s.book - contents, s.clock)
  }

  function Run(s: System, events: seq<Event>): System {
    if events == [] then s else Next(Run(s, events[..|events| - 1]), events[|events| - 1])
  }

  predicate Initial(s: System) {
    s.tables == Tables(map[], map[]) && s.book == map[]
  }

  // ---------- The invariant ----------

  ghost predicate AllAtMost(s: seq<int>, limit: int) {
    forall t :: t in s ==> t <= limit
  }

  /** How many of the instants lie in the window that starts at `lo`. */
  function InWindow(s: seq<int>, lo: int): nat {
    CountIn(s, lo, lo + WINDOW)
  }

  /** No window-long interval holds more admissions than the limit. */
  ghost predicate Sliding(epoch: Epoch) {
    epoch.rpm > 0 && forall lo :: InWindow(epoch.admitted, lo) <= epoch.rpm
  }

  /** The ring holds every admission of its epoch that is still inside the window. */
  ghost predicate RingHolds(ring: RingState, epoch: Epoch, clock: int) {
    && ring.maxRequests == epoch.rpm
    && |ring.requests| <= epoch.rpm
    && exists gone :: epoch.admitted == gone + ring.requests && AllAtMost(gone, clock - WINDOW)
  }

  ghost predicate KeyOk(s: System, c: string) {
    && (c in s.tables.cache ==> s.tables.cache[c].lastAccessAt <= s.clock && s.tables.cache[c].key.content == c)
    && (c in s.tables.rings ==>
          && c in s.tables.cache && c in s.book
          && RingHolds(s.tables.rings[c], s.book[c], s.clock)
          && AllAtMost(s.tables.rings[c].requests, s.tables.cache[c].lastAccessAt + MAX_GAP))
    && (c in s.book ==> Sliding(s.book[c]) && AllAtMost(s.book[c].admitted, s.clock))
    && (c in s.book && c !in s.tables.rings ==> AllAtMost(s.book[c].admitted, s.clock - WINDOW))
  }

  ghost predicate Inv(s: System) {
    forall c :: KeyOk(s, c)
  }

  // ---------- Each step keeps it ----------

  /** Admitting at `now` keeps the window bound when everything outside the ring is a window old. */
  lemma AdmitKeepsSliding(gone: seq<int>, live: seq<int>, now: int, epoch: Epoch)
    requires Sliding(epoch) && epoch.admitted == gone + live
    requires AllAtMost(gone, now - WINDOW) && |live| < epoch.rpm
    ensures Sliding(epoch.(admitted := epoch.admitted + [now]))
  {
    forall lo
      ensures InWindow(epoch.admitted + [now], lo) <= epoch.rpm
    {
      assert InWindow(epoch.admitted, lo) <= epoch.rpm;
      CountAppend(epoch.admitted, [now], lo, lo + WINDOW);
      CountBounds([now], lo, lo + WINDOW);
      if lo <= now < lo + WINDOW {
        forall i | 0 <= i < |gone|
          ensures gone[i] < lo
        {
          assert gone[i] in gone;
        }
        CountOutside(gone, live, lo, lo + WINDOW);
      }
    }
  }

  /** One call on a ring that holds its epoch's live admissions, whether or not it is admitted. */
  lemma LimitKeepsRing(ring: RingState, epoch: Epoch, clock: int, now: int)
    requires Sliding(epoch) && RingHolds(ring, epoch, clock) && clock <= now
    ensures var v := Admit(WINDOW, epoch.rpm, ring.requests, now);
            var after := if v.allowed then epoch.(admitted := epoch.admitted + [now]) else epoch;
            Sliding(after) && RingHolds(RingState(epoch.rpm, v.requests), after, now)
  {
    var before :| epoch.admitted == before + ring.requests && AllAtMost(before, clock - WINDOW);
    var k := FirstValid(ring.requests, now - WINDOW);
    var gone := before + ring.requests[..k];
    assert epoch.admitted == gone + ring.requests[k..];
    PrunedIsOld(before, ring.requests, clock, now);
    AdmitKeepsRing(gone, ring.requests, epoch, now);
  }

  lemma PrunedIsOld(before: seq<int>, requests: seq<int>, clock: int, now: int)
    requires AllAtMost(before, clock - WINDOW) && clock <= now
    ensures AllAtMost(before + requests[..FirstValid(requests, now - WINDOW)], now - WINDOW)
  {
  }

  lemma AdmitKeepsRing(gone: seq<int>, requests: seq<int>, epoch: Epoch, now: int)
    requires Sliding(epoch) && |requests| <= epoch.rpm
    requires epoch.admitted == gone + Prune(requests, now - WINDOW) && AllAtMost(gone, now - WINDOW)
    ensures var v := Admit(WINDOW, epoch.rpm, requests, now);
            var after := if v.allowed then epoch.(admitted := epoch.admitted + [now]) else epoch;
            Sliding(after) && RingHolds(RingState(epoch.rpm, v.requests), after, now)
  {
    var v := Admit(WINDOW, epoch.rpm, requests, now);
    if v.allowed {
      AdmitKeepsSliding(gone, Prune(requests, now - WINDOW), now, epoch);
      assert epoch.admitted + [now] == gone + v.requests;
    }
  }

  /** A ring created on demand starts out holding what is live of its epoch, which is nothing. */
  lemma RingForHolds(s: System, c: string, rpm: int)
    requires KeyOk(s, c) && rpm > 0
    ensures Sliding(EpochFor(s.book, c, rpm))
    ensures RingHolds(RingFor(s.tables.rings, c, rpm), EpochFor(s.book, c, rpm), s.clock)
    ensures AllAtMost(EpochFor(s.book, c, rpm).admitted, s.clock)
  {
    var epoch := EpochFor(s.book, c, rpm);
    assert Sliding(Epoch(rpm, []));
    if !(c in s.tables.rings && s.tables.rings[c].maxRequests == rpm) {
      assert epoch.admitted == epoch.admitted + [];
    }
  }

  ghost predicate SameAt(s: System, t: System, c: string) {
    && Lookup(s.tables.cache, c) == Lookup(t.tables.cache, c)
    && (c in s.tables.rings <==> c in t.tables.rings)
    && (c in s.tables.rings ==> s.tables.rings[c] == t.tables.rings[c])
    && (c in s.book <==> c in t.book)
    && (c in s.book ==> s.book[c] == t.book[c])
  }

  lemma RingHoldsLater(ring: RingState, epoch: Epoch, clock: int, later: int)
    requires RingHolds(ring, epoch, clock) && clock <= later
    ensures RingHolds(ring, epoch, later)
  {
    var gone :| epoch.admitted == gone + ring.requests && AllAtMost(gone, clock - WINDOW);
    assert AllAtMost(gone, later - WINDOW);
  }

  lemma KeyOkLater(s: System, t: System, c: string)
    requires KeyOk(s, c) && SameAt(s, t, c) && s.clock <= t.clock
    ensures KeyOk(t, c)
  {
    if c in s.tables.rings {
      RingHoldsLater(s.tables.rings[c], s.book[c], s.clock, t.clock);
    }
  }

  /** The key half of a check, for the key it is about. */
  lemma ValidKeyKeepsKey(s: System, c: string, now: int, loaded: LoadResult)
    requires KeyOk(s, c) && s.clock <= now && LoadMatches(c, loaded)
    ensures var (g, result) := ValidKey(s.tables, c, now, loaded);
            && KeyOk(System(g, if result.Invalid? then s.book - {c} else s.book, now), c)
            && (result.Valid? ==> c in g.cache && g.cache[c].lastAccessAt == now && result.key.requestPerMinute >= 0)
  {
    var (g, result) := ValidKey(s.tables, c, now, loaded);
    if c in s.tables.rings {
      RingHoldsLater(s.tables.rings[c], s.book[c], s.clock, now);
    }
  }

  /** The ring half of a check, for the key it is about. */
  lemma LimitKeepsKey(s: System, c: string, key: Key, ringNow: int)
    requires KeyOk(s, c) && c in s.tables.cache && s.tables.cache[c].lastAccessAt == s.clock
    requires s.clock <= ringNow <= s.clock + MAX_GAP && key.requestPerMinute > 0
    ensures var (g, answer) := Limit(s.tables, c, key, ringNow);
            KeyOk(System(g, BookAfterCheck(s.book, c, ringNow, Valid(key), answer), ringNow), c)
  {
    var rpm := key.requestPerMinute;
    var ring, epoch := RingFor(s.tables.rings, c, rpm), EpochFor(s.book, c, rpm);
    RingForHolds(s, c, rpm);
    LimitKeepsRing(ring, epoch, s.clock, ringNow);
    AdmittedAtMost(rpm, ring.requests, ringNow, s.clock + MAX_GAP);
    EpochAtMost(epoch, ringNow);
  }

  lemma AdmittedAtMost(rpm: int, requests: seq<int>, now: int, limit: int)
    requires rpm > 0 && AllAtMost(requests, limit) && now <= limit
    ensures AllAtMost(Admit(WINDOW, rpm, requests, now).requests, limit)
  {
    var live := Prune(requests, now - WINDOW);
    var k := FirstValid(requests, now - WINDOW);
    forall t | t in live
      ensures t <= limit
    {
      var i :| 0 <= i < |live| && live[i] == t;
      assert requests[k + i] in requests;
    }
    assert forall t :: t in live + [now] ==> t in live || t == now;
  }

  lemma EpochAtMost(epoch: Epoch, now: int)
    ensures forall t :: t <= now && AllAtMost(epoch.admitted, t) ==> AllAtMost(epoch.admitted, now)
    ensures forall t :: t <= now && AllAtMost(epoch.admitted, t) ==> AllAtMost(epoch.admitted + [now], now)
  {
  }

  lemma CheckKeepsKey(s: System, c: string, now: int, ringNow: int, loaded: LoadResult)
    requires KeyOk(s, c) && Enabled(s, CheckKey(c, now, ringNow, loaded))
    ensures KeyOk(Next(s, CheckKey(c, now, ringNow, loaded)), c)
  {
    ValidKeyKeepsKey(s, c, now, loaded);
    var (g, result) := ValidKey(s.tables, c, now, loaded);
    var mid := System(g, if result.Invalid? then s.book - {c} else s.book, now);
    if result.Valid? && result.key.requestPerMinute > 0 {
      LimitKeepsKey(mid, c, result.key, ringNow);
    } else {
      KeyOkLater(mid, mid.(clock := ringNow), c);
    }
  }

  lemma CheckKeepsInv(s: System, c: string, now: int, ringNow: int, loaded: LoadResult)
    requires Inv(s) && Enabled(s, CheckKey(c, now, ringNow, loaded))
    ensures Inv(Next(s, CheckKey(c, now, ringNow, loaded)))
  {
    var t := Next(s, CheckKey(c, now, ringNow, loaded));
    forall d
      ensures KeyOk(t, d)
    {
      assert KeyOk(s, d);
      if d == c {
        CheckKeepsKey(s, c, now, ringNow, loaded);
      } else {
        CheckLeavesOthers(s, c, now, ringNow, loaded, d);
        KeyOkLater(s, t, d);
      }
    }
  }

  lemma CheckLeavesOthers(s: System, c: string, now: int, ringNow: int, loaded: LoadResult, d: string)
    requires Enabled(s, CheckKey(c, now, ringNow, loaded)) && d != c
    ensures SameAt(s, Next(s, CheckKey(c, now, ringNow, loaded)), d)
  {
  }

  /** An idle eviction drops only rings with nothing live in them. */
  lemma {:induction false} IdleRingIsEmpty(s: System, c: string, now: int)
    requires KeyOk(s, c) && s.clock <= now && c in s.tables.cache && OnSweep(s.tables.cache[c], now) == Evict
    ensures c in s.tables.rings ==> AllAtMost(s.tables.rings[c].requests, now - WINDOW)
    ensures c in s.book ==> AllAtMost(s.book[c].admitted, now - WINDOW)
  {
    if c in s.tables.rings {
      var gone :| s.book[c].admitted == gone + s.tables.rings[c].requests && AllAtMost(gone, s.clock - WINDOW);
    }
  }

  lemma RefreshKeepsKey(s: System, now: int, loads: Loads, c: string)
    requires KeyOk(s, c) && Enabled(s, RefreshKeys(now, loads))
    ensures KeyOk(Next(s, RefreshKeys(now, loads)), c)
  {
    if c in s.tables.rings {
      RingHoldsLater(s.tables.rings[c], s.book[c], s.clock, now);
    }
    if c in s.tables.cache && OnSweep(s.tables.cache[c], now) == Evict {
      IdleRingIsEmpty(s, c, now);
    }
  }

  lemma NextKeepsInv(s: System, e: Event)
    requires Inv(s)
    ensures Inv(Next(s, e))
  {
    if Enabled(s, e) {
      match e
      case CheckKey(content, now, ringNow, loaded) => CheckKeepsInv(s, content, now, ringNow, loaded);
      case RefreshKeys(now, loads) =>
        forall c
          ensures KeyOk(Next(s, e), c)
        {
          assert KeyOk(s, c);
          RefreshKeepsKey(s, now, loads, c);
        }
      case InvalidateKeys(contents) =>
        forall c
          ensures KeyOk(Next(s, e), c)
        {
          assert KeyOk(s, c);
        }
    }
  }

  lemma {:induction false} RunKeepsInv(s: System, events: seq<Event>)
    requires Initial(s)
    ensures Inv(Run(s, events))
  {
    if events != [] {
      RunKeepsInv(s, events[..|events| - 1]);
      NextKeepsInv(Run(s, events[..|events| - 1]), events[|events| - 1]);
    }
  }

  // ---------- Main results ----------

  /** Rings exist only for cached keys. */
  lemma {:induction false} RingsOnlyForCachedKeys(s: System, events: seq<Event>)
    requires Initial(s)
    ensures var r := Run(s, events); r.tables.rings.Keys <= r.tables.cache.Keys
  {
    RunKeepsInv(s, events);
    var r := Run(s, events);
    forall c | c in r.tables.rings
      ensures c in r.tables.cache
    {
      assert KeyOk(r, c);
    }
  }

  /**
   Over any run, across any number of idle evictions, no interval of 60 s holds more
   admissions of a key than its limit, until an invalidation, a refused key or a new limit resets it.
   */
  lemma SlidingBoundSurvivesEviction(s: System, events: seq<Event>, c: string, lo: int)
    requires Initial(s) && c in Run(s, events).book
    ensures var epoch := Run(s, events).book[c];
            CountIn(epoch.admitted, lo, lo + 60_000_000_000) <= epoch.rpm
  {
    RunKeepsInv(s, events);
    assert KeyOk(Run(s, events), c);
    assert InWindow(Run(s, events).book[c].admitted, lo) <= Run(s, events).book[c].rpm;
  }

  /** The first instant at which a key accessed at `now`, with its ring called `gap` later, can be evicted as idle. */
  function EvictionAfter(now: int, gap: int): int {
    if gap <= IDLE_TTL + 1 then now + IDLE_TTL + 1 else now + gap
  }

  /**
   MAX_GAP is the exact threshold: with any larger gap, one idle eviction lets a key limited to one request
   per minute through twice within a minute.
   */
  lemma {:induction false} LargerGapBreaksTheBound(key: Key, now: int, gap: int)
    requires gap > MAX_GAP
    requires now > ZERO_TIME && key.requestPerMinute == 1
    requires InvalidKeyResult(key, EvictionAfter(now, gap)) == None && InvalidKeyResult(key, now) == None
    ensures var evictAt := EvictionAfter(now, gap);
            var first := Check(Tables(map[], map[]), key.content, now, now + gap, Found(key));
            var second := Check(Refresh(first.0, evictAt, map[]), key.content, evictAt, evictAt, Found(key));
            && first.1.Passed? && second.1.Passed? && now + gap <= evictAt
            && CountIn([now + gap, evictAt], now + gap, now + gap + WINDOW) == 2
  {
    var k, evictAt := key.content, EvictionAfter(now, gap);
    FirstCheckPasses(key, now, now + gap);
    var first := Check(Tables(map[], map[]), k, now, now + gap, Found(key)).0;
    LoneKeyIsEvicted(first, k, now, evictAt);
    EmptyCheckPasses(Refresh(first, evictAt, map[]), key, evictAt);
    TwoInWindow(now + gap, evictAt);
  }

  /** A usable limited key with nothing cached is loaded, given an empty ring and let through. */
  lemma FirstCheckPasses(key: Key, now: int, ringNow: int)
    requires now > ZERO_TIME && key.requestPerMinute == 1 && InvalidKeyResult(key, now) == None
    ensures Check(Tables(map[], map[]), key.content, now, ringNow, Found(key))
            == (Tables(map[key.content := CachedKey(ApplyEffectiveModelPermissions(key), now, now)],
                       map[key.content := RingState(1, [ringNow])]),
                Passed(ApplyEffectiveModelPermissions(key)))
  {
    FirstLoad(key, now);
    FirstCall(ValidKey(Tables(map[], map[]), key.content, now, Found(key)).0, key.content,
              ApplyEffectiveModelPermissions(key), ringNow);
  }

  lemma FirstLoad(key: Key, now: int)
    requires now > ZERO_TIME && InvalidKeyResult(key, now) == None
    ensures ValidKey(Tables(map[], map[]), key.content, now, Found(key))
            == (Tables(map[key.content := CachedKey(ApplyEffectiveModelPermissions(key), now, now)], map[]),
                Valid(ApplyEffectiveModelPermissions(key)))
  {
  }

  lemma FirstCall(g: Tables, content: string, key: Key, ringNow: int)
    requires g.rings == map[] && key.requestPerMinute == 1
    ensures Limit(g, content, key, ringNow) == (g.(rings := map[content := RingState(1, [ringNow])]), Passed(key))
  {
    EmptyRingAdmits(WINDOW, RingFor(g.rings, content, 1).requests, ringNow);
    assert g.rings[content := RingState(1, [ringNow])] == map[content := RingState(1, [ringNow])];
  }

  lemma EmptyRingAdmits(window: int, ring: seq<int>, now: int)
    requires ring == []
    ensures Admit(window, 1, ring, now) == Verdict(true, 0, [now])
  {
  }

  lemma EmptyCheckPasses(g: Tables, key: Key, now: int)
    requires g == Tables(map[], map[])
    requires now > ZERO_TIME && key.requestPerMinute == 1 && InvalidKeyResult(key, now) == None
    ensures Check(g, key.content, now, now, Found(key)).1.Passed?
  {
    FirstCheckPasses(key, now, now);
  }

  lemma LoneKeyIsEvicted(g: Tables, content: string, accessAt: int, now: int)
    requires g.cache.Keys == {content} == g.rings.Keys
    requires accessAt > ZERO_TIME && g.cache[content].lastAccessAt == accessAt && now > accessAt + IDLE_TTL
    ensures Refresh(g, now, map[]) == Tables(map[], map[])
  {
    var t := Refresh(g, now, map[]);
    assert t.cache.Keys == {} && t.rings.Keys == {};
    assert t.cache == map[] && t.rings == map[];
  }

  lemma TwoInWindow(first: int, second: int)
    requires first <= second < first + WINDOW
    ensures CountIn([first, second], first, first + WINDOW) == 2
  {
    CountBounds([first, second], first, first + WINDOW);
  }

  // ---------- The code, which updates the two tables in place ----------

  class Gateway {
    var validKeys: Cache
    var rings: map<string, RingState>

    constructor ()
      ensures validKeys == map[] && rings == map[]
    {
      validKeys, rings := map[], map[];
    }

    ghost function Now(): Tables
      reads this
    {
      Tables(validKeys, rings)
    }

    method InvalidateKeyCache(content: string)
      modifies this
      ensures Now() == Forget(old(Now()), {content})
    {
      validKeys := validKeys - {content};
      rings := rings - {content};
    }

    method InvalidateTeamKeyCache(contents: seq<string>)
      modifies this
      ensures Now() == Forget(old(Now()), set c | c in contents)
    {
      assert Now() == Forget(Now(), {});
      for i := 0 to |contents|
        invariant Now() == Forget(old(Now()), set c | c in contents[..i])
      {
        InvalidateKeyCache(contents[i]);
        assert contents[..i + 1] == contents[..i] + [contents[i]];
      }
      assert contents[..|contents|] == contents;
    }

    /** `loaded` is what the query returns if it is made. */
    method GetValidKeyForRequest(content: string, now: int, loaded: LoadResult) returns (result: KeyResult)
      requires LoadMatches(content, loaded)
      modifies this
      ensures (Now(), result) == ValidKey(old(Now()), content, now, loaded)
    {
      if content in validKeys {
        var cached := validKeys[content];
        var failure := InvalidKeyResult(cached.key, now);
        if failure.Some? {
          InvalidateKeyCache(content);
          return Invalid(failure.value);
        }
        if now - cached.lastSyncAt <= SYNC_TTL {
          validKeys := validKeys[content := cached.(lastAccessAt := now)];
          return Valid(cached.key);
        }
      }
      if loaded.LoadError? {
        return Unchecked;
      }
      if loaded.NotFound? {
        InvalidateKeyCache(content);
        return Invalid(UnknownKey);
      }
      var failure := InvalidKeyResult(loaded.key, now);
      if failure.Some? {
        InvalidateKeyCache(content);
        return Invalid(failure.value);
      }
      var effective := ApplyEffectiveModelPermissions(loaded.key);
      validKeys := validKeys[effective.content := CachedKey(effective, now, now)];
      return Valid(effective);
    }

    /** The key and rate-limit checks of checkKeyMiddleware. */
    method CheckKey(content: string, now: int, ringNow: int, loaded: LoadResult) returns (answer: Answer)
      requires LoadMatches(content, loaded)
      modifies this
      ensures (Now(), answer) == Check(old(Now()), content, now, ringNow, loaded)
    {
      var result := GetValidKeyForRequest(content, now, loaded);
      if result.Unchecked? {
        return CheckUnavailable;
      }
      if result.Invalid? {
        return Refused(result.failure);
      }
      var key := result.key;
      if key.requestPerMinute > 0 {
        if content !in rings || rings[content].maxRequests != key.requestPerMinute {
          rings := rings[content := RingState(key.requestPerMinute, [])];
        }
        var v := Admit(WINDOW, key.requestPerMinute, rings[content].requests, ringNow);
        rings := rings[content := RingState(key.requestPerMinute, v.requests)];
        assert rings == old(rings)[content := RingState(key.requestPerMinute, v.requests)];
        if !v.allowed {
          return RateLimited(v.retryAfter);
        }
      }
      return Passed(key);
    }

    /** `loads` is what the queries return, by key. */
    method RefreshCachedKeys(now: int, loads: Loads)
      requires forall c :: c in loads ==> LoadMatches(c, loads[c])
      requires forall c :: c in validKeys ==> validKeys[c].key.content == c
      modifies this
      ensures Now() == Refresh(old(Now()), now, loads)
    {
      var cache := validKeys;
      ghost var g := Now();
      var todo := cache.Keys;
      assert Now() == RefreshOf(g, now, loads, {});
      while todo != {}
        invariant todo <= cache.Keys && cache == g.cache
        invariant Now() == RefreshOf(g, now, loads, cache.Keys - todo)
        decreases todo
      {
        var content :| content in todo;
        ghost var done := cache.Keys - todo;
        todo := todo - {content};
        assert cache.Keys - todo == done + {content};
        RefreshOneMore(g, now, loads, done, content);
        var entry := cache[content];
        if entry.lastAccessAt != ZERO_TIME && now - entry.lastAccessAt > IDLE_TTL {
          InvalidateKeyCache(content);
          continue;
        }
        if now - entry.lastSyncAt <= SYNC_TTL {
          continue;
        }
        var latest := LoadFor(loads, content);
        if latest.LoadError? {
          continue;
        }
        if latest.NotFound? {
          InvalidateKeyCache(content);
          continue;
        }
        validKeys := Upsert(validKeys, ApplyEffectiveModelPermissions(latest.key), now, entry.lastAccessAt);
      }
      assert cache.Keys - {} == cache.Keys;
    }
  }
}
