/**
 What a key check and a refresh come to, in the fields of the key: which keys are refused and why, which are
 let through, how long a limited one has to wait, and what a refresh leaves in the cache.
 */
module KeyChecks {
  import opened Basics
  import opened KeyCache
  import opened RateLimit
  import opened Admission

  // ---------- The key ----------

  /** The failure a key is refused with: its limit is looked at before its balance, and that before its expiry. */
  ghost predicate RefusedFor(key: Key, now: int, failure: Failure) {
    match failure
    case InvalidRateLimitConfig => key.requestPerMinute < 0
    case BalanceExhausted => key.requestPerMinute >= 0 && key.balance <= 0
    case KeyExpired =>
      key.requestPerMinute >= 0 && key.balance > 0 && key.expireTime != ZERO_TIME && key.expireTime <= now
    case UnknownKey => false
  }

  /**
   A cached key that is not in order is refused with the failure of its fields, and forgotten; one that is in
   order and was synced at most SYNC_TTL ago is used as it is, and counts as accessed.
   */
  lemma CachedKeyOutcome(g: Tables, content: string, now: int, loaded: LoadResult)
    requires content in g.cache
    ensures var entry := g.cache[content];
            var (t, r) := ValidKey(g, content, now, loaded);
            && (!InOrder(entry.key, now) ==>
                  && r.Invalid? && RefusedFor(entry.key, now, r.failure)
                  && t == Tables(g.cache - {content}, g.rings - {content}))
            && (InOrder(entry.key, now) && now - entry.lastSyncAt <= SYNC_TTL ==>
                  && r == Valid(entry.key)
                  && t == g.(cache := g.cache[content := entry.(lastAccessAt := now)]))
  {
  }

  /** A key that is not cached, or whose entry is in order but older than SYNC_TTL, is decided by its row. */
  lemma LoadedKeyOutcome(g: Tables, content: string, now: int, loaded: LoadResult)
    requires LoadMatches(content, loaded)
    requires content in g.cache ==> InOrder(g.cache[content].key, now) && now - g.cache[content].lastSyncAt > SYNC_TTL
    ensures var (t, r) := ValidKey(g, content, now, loaded);
            && (loaded.LoadError? ==> r == Unchecked && t == g)
            && (!loaded.LoadError? && !(loaded.Found? && InOrder(loaded.key, now)) ==>
                  && r.Invalid? && t == Tables(g.cache - {content}, g.rings - {content})
                  && (if loaded.Found? then RefusedFor(loaded.key, now, r.failure) else r.failure == UnknownKey))
            && (loaded.Found? && InOrder(loaded.key, now) ==>
                  && r.Valid? && IsEffective(loaded.key, r.key)
                  && t == g.(cache := g.cache[content := CachedKey(r.key, now, now)]))
  {
    if loaded.Found? {
      EffectiveMeets(loaded.key);
    }
  }

  // ---------- Its limit ----------

  /** The live calls of the ring the key is checked against. */
  function LiveCalls(g: Tables, content: string, rpm: int, ringNow: int): seq<int> {
    if content in g.rings && g.rings[content].maxRequests == rpm then Prune(g.rings[content].requests, ringNow - WINDOW)
    else []
  }

  /** A valid key passes exactly when it has no limit or fewer live calls than its limit. */
  lemma LimitOutcome(g: Tables, content: string, key: Key, ringNow: int)
    ensures var (t, answer) := Limit(g, content, key, ringNow);
            var live := LiveCalls(g, content, key.requestPerMinute, ringNow);
            && t.cache == g.cache
            && (answer == Passed(key) <==> key.requestPerMinute <= 0 || |live| < key.requestPerMinute)
            && (answer != Passed(key) ==> answer.RateLimited?)
            && (key.requestPerMinute <= 0 ==> t == g)
            && (key.requestPerMinute > 0 ==>
                  t.rings == g.rings[content := RingState(key.requestPerMinute,
                                                         if answer.Passed? then live + [ringNow] else live)])
  {
    NothingToPrune(RingFor(g.rings, content, key.requestPerMinute).requests, ringNow - WINDOW);
  }

  lemma NothingToPrune(requests: seq<int>, cutoff: int)
    ensures requests == [] ==> Prune(requests, cutoff) == []
  {
  }

  /**
   The wait a limited client is told, in any state a run can reach: it is positive, every call of the key before
   it is over is denied too, however many there are, and a call when it is over is admitted.
   */
  lemma {:induction false} WaitIsExact(s: System, c: string, key: Key, ringNow: int, later: seq<int>)
    requires KeyOk(s, c) && key.requestPerMinute > 0 && Limit(s.tables, c, key, ringNow).1.RateLimited?
    requires forall i :: 0 <= i < |later| ==> later[i] < ringNow + Limit(s.tables, c, key, ringNow).1.retryAfter
    ensures var (t, answer) := Limit(s.tables, c, key, ringNow);
            var ring := t.rings[c].requests;
            && answer.retryAfter > 0
            && RunFrom(WINDOW, key.requestPerMinute, ring, later) == RateLimit.Run(ring, [])
            && Limit(t, c, key, ringNow + answer.retryAfter).1 == Passed(key)
  {
    var rpm := key.requestPerMinute;
    var requests := RingFor(s.tables.rings, c, rpm).requests;
    DenialWaitIsPositive(WINDOW, rpm, requests, ringNow);
    RetryAfterIsTight(WINDOW, rpm, requests, ringNow, later);
  }

  // ---------- The refresh ----------

  /** What a refresh does to an entry and its ring. */
  lemma RefreshOutcome(g: Tables, now: int, loads: Loads, c: string)
    requires c in g.cache
    ensures var e, loaded, t := g.cache[c], LoadFor(loads, c), Refresh(g, now, loads);
            var stale := !IsIdle(e, now) && now - e.lastSyncAt > SYNC_TTL;
            && (c in t.cache <==> !IsIdle(e, now) && !(stale && loaded.NotFound?))
            && (c in t.rings <==> c in g.rings && c in t.cache)
            && (c in t.rings ==> t.rings[c] == g.rings[c])
            && (c in t.cache && !(stale && loaded.Found?) ==> t.cache[c] == e)
            && (c in t.cache && stale && loaded.Found? ==>
                  && IsEffective(loaded.key, t.cache[c].key) && t.cache[c].lastSyncAt == now
                  && t.cache[c].lastAccessAt == if e.lastAccessAt == ZERO_TIME then now else e.lastAccessAt)
  {
    if LoadFor(loads, c).Found? {
      EffectiveMeets(LoadFor(loads, c).key);
    }
  }

  /** When every query gets through, a refresh leaves only entries synced within 60 s and used within 30 min. */
  lemma {:induction false} RefreshLeavesFresh(g: Tables, now: int, loads: Loads, c: string)
    requires forall d :: d in g.cache ==> !LoadFor(loads, d).LoadError?
    requires c in Refresh(g, now, loads).cache
    ensures var e := Refresh(g, now, loads).cache[c];
            && c in g.cache && now - e.lastSyncAt <= 60_000_000_000
            && (e.lastAccessAt == now || e.lastAccessAt == ZERO_TIME || now - e.lastAccessAt <= 1_800_000_000_000)
  {
    RefreshOutcome(g, now, loads, c);
  }
}
