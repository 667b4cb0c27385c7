/**
 The key cache under every interleaving of requests, background refreshes, admin invalidations and
 database writes. Each thread is split at its clock read, its cache accesses and its database query, so
 that an older load may overwrite a newer one and an invalidation may lose a race with an upsert.
 */
module Freshness {
  import opened Basics
  import opened KeyCache

  // ---------- State ----------

  /** The rows the database holds from `time` until the next version. */
  datatype Version = Version(time: int, table: map<string, Key>)

  /** A request that passed the key check, by the clock reading it made on entry. */
  datatype Accept = Accept(content: string, now: int, key: Key, fromCache: bool)

  datatype Thread =
    // a request inside getValidKeyForRequest
    | Looking(content: string, now: int)
    | Touching(content: string, now: int, key: Key)
    | Loading(content: string, now: int)
    | Storing(content: string, now: int, key: Key)
    | Dropping(content: string)
    // the background refresh
    | Snapshotting(now: int)
    | Sweeping(now: int, todo: Cache)
    | SweepLoading(now: int, todo: Cache, content: string, accessAt: int)
    | SweepStoring(now: int, todo: Cache, key: Key, accessAt: int)
    | SweepDropping(now: int, todo: Cache, content: string)
    // an admin handler after its database write
    | Invalidating(contents: set<string>)
    | Done

  datatype State = State(
    clock: int,
    history: seq<Version>,
    cache: Cache,
    threads: seq<Thread>,
    accepts: seq<Accept>)

  datatype Event =
    | Tick(elapsed: nat)
    | DbWrite(table: map<string, Key>)
    | Request(content: string)
    | Refresh
    | Invalidate(contents: set<string>)
    | Step(thread: nat, pick: string, dbError: bool)

  predicate WellKeyed(table: map<string, Key>) {
    forall content :: content in table ==> table[content].content == content
  }

  predicate Initial(s: State) {
    && |s.history| == 1 && s.history[0].time == s.clock && WellKeyed(s.history[0].table)
    && s.cache == map[] && s.threads == [] && s.accepts == []
  }

  function Rows(s: State): map<string, Key>
    requires s.history != []
  {
    s.history[|s.history| - 1].table
  }

  function Become(s: State, tid: nat, t: Thread): State
    requires tid < |s.threads|
  {
    s.(threads := s.threads[tid := t])
  }

  /** One event. An event that cannot happen in this state changes nothing. */
  function Next(s: State, e: Event): State
    requires s.history != []
    ensures Next(s, e).history != []
  {
    match e
    case Tick(elapsed) => s.(clock := s.clock + elapsed)
    case DbWrite(table) => if WellKeyed(table) then s.(history := s.history + [Version(s.clock, table)]) else s
    case Request(content) => s.(threads := s.threads + [Looking(content, s.clock)])
    case Refresh => s.(threads := s.threads + [Snapshotting(s.clock)])
    case Invalidate(contents) => s.(threads := s.threads + [Invalidating(contents)])
    case Step(tid, pick, dbError) => if tid < |s.threads| then NextThread(s, tid, pick, dbError) else s
  }

  function NextThread(s: State, tid: nat, pick: string, dbError: bool): State
    requires s.history != [] && tid < |s.threads|
    ensures NextThread(s, tid, pick, dbError).history == s.history
  {
    match s.threads[tid]
    case Looking(content, now) => (
      match OnLookup(Lookup(s.cache, content), now)
      case Deny(_) => Become(s, tid, Dropping(content))
      case Hit(key) => Become(s, tid, Touching(content, now, key))
      case Miss => Become(s, tid, Loading(content, now)))
    case Touching(content, now, key) =>
      Become(s, tid, Done).(cache := Touch(s.cache, content, now),
                            accepts := s.accepts + [Accept(content, now, key, true)])
    case Loading(content, now) => (
      match OnLoad(if dbError then LoadError else QueryKey(Rows(s), content), now)
      case Unavailable => Become(s, tid, Done)
      case Reject(_) => Become(s, tid, Dropping(content))
      case Store(key) => Become(s, tid, Storing(content, now, key)))
    case Storing(content, now, key) =>
      Become(s, tid, Done).(cache := Upsert(s.cache, key, now, now),
                            accepts := s.accepts + [Accept(content, now, key, false)])
    case Dropping(content) => Become(s, tid, Done).(cache := s.cache - {content})
    case Snapshotting(now) => Become(s, tid, Sweeping(now, s.cache))
    case Sweeping(now, todo) =>
      if todo == map[] then Become(s, tid, Done)
      else if pick !in todo then s
      else (
        match OnSweep(todo[pick], now)
        case Evict => Become(s, tid, SweepDropping(now, todo - {pick}, pick))
        case Fresh => Become(s, tid, Sweeping(now, todo - {pick}))
        case Reload => Become(s, tid, SweepLoading(now, todo - {pick}, pick, todo[pick].lastAccessAt)))
    case SweepLoading(now, todo, content, accessAt) => (
      match if dbError then LoadError else QueryValidKey(Rows(s), content, s.clock)
      case LoadError => Become(s, tid, Sweeping(now, todo))
      case NotFound => Become(s, tid, SweepDropping(now, todo, content))
      case Found(key) => Become(s, tid, SweepStoring(now, todo, ApplyEffectiveModelPermissions(key), accessAt)))
    case SweepStoring(now, todo, key, accessAt) =>
      Become(s, tid, Sweeping(now, todo)).(cache := Upsert(s.cache, key, now, accessAt))
    case SweepDropping(now, todo, content) =>
      Become(s, tid, Sweeping(now, todo)).(cache := s.cache - {content})
    case Invalidating(contents) =>
      if pick in contents then Become(s, tid, Invalidating(contents - {pick})).(cache := s.cache - {pick})
      else if contents == {} then Become(s, tid, Done)
      else s
    case Done => s
  }

  function Run(s: State, events: seq<Event>): (r: State)
    requires s.history != []
    ensures r.history != []
  {
    if events == [] then s else Next(Run(s, events[..|events| - 1]), events[|events| - 1])
  }

  // ---------- What must hold ----------

  /** Version `i` of the database was still current at or after `t`. */
  predicate CurrentAfter(history: seq<Version>, i: nat, t: int) {
    i < |history| && (i + 1 < |history| ==> t <= history[i + 1].time)
  }

  predicate IsRow(history: seq<Version>, i: nat, content: string, key: Key) {
    && i < |history| && content in history[i].table
    && ApplyEffectiveModelPermissions(history[i].table[content]) == key
  }

  /** `key` is the effective row the database held for `content` at some instant no earlier than `t`. */
  ghost predicate HeldSince(history: seq<Version>, content: string, key: Key, t: int) {
    exists i: nat :: CurrentAfter(history, i, t) && IsRow(history, i, content, key)
  }

  ghost predicate EntryOk(history: seq<Version>, clock: int, content: string, entry: CachedKey) {
    && entry.key.content == content
    && entry.lastSyncAt <= clock
    && HeldSince(history, content, entry.key, entry.lastSyncAt)
  }

  /** What an accepted request relied on. */
  ghost predicate AcceptOk(history: seq<Version>, a: Accept) {
    && HeldSince(history, a.content, a.key, if a.fromCache then a.now - SYNC_TTL else a.now)
    && InvalidKeyResult(a.key, a.now) == None
  }

  ghost predicate ThreadOk(history: seq<Version>, clock: int, t: Thread) {
    match t
    case Looking(_, now) => now <= clock
    case Touching(content, now, key) => now <= clock && AcceptOk(history, Accept(content, now, key, true))
    case Loading(_, now) => now <= clock
    case Storing(content, now, key) =>
      now <= clock && key.content == content && AcceptOk(history, Accept(content, now, key, false))
    case Snapshotting(now) => now <= clock
    case Sweeping(now, _) => now <= clock
    case SweepLoading(now, _, _, _) => now <= clock
    case SweepStoring(now, _, key, _) => now <= clock && HeldSince(history, key.content, key, now)
    case SweepDropping(now, _, _) => now <= clock
    case _ => true
  }

  ghost predicate HistoryOk(history: seq<Version>, clock: int) {
    && history != []
    && (forall i :: 0 <= i < |history| ==> history[i].time <= clock && WellKeyed(history[i].table))
    && (forall i, j :: 0 <= i < j < |history| ==> history[i].time <= history[j].time)
  }

  ghost predicate Inv(s: State) {
    && HistoryOk(s.history, s.clock)
    && (forall content :: content in s.cache ==> EntryOk(s.history, s.clock, content, s.cache[content]))
    && (forall i :: 0 <= i < |s.threads| ==> ThreadOk(s.history, s.clock, s.threads[i]))
    && (forall i :: 0 <= i < |s.accepts| ==> AcceptOk(s.history, s.accepts[i]))
    && (forall i :: 0 <= i < |s.accepts| ==> s.accepts[i].now <= s.clock)
  }

  // ---------- Each step keeps it ----------

  lemma HeldSinceGrows(history: seq<Version>, v: Version, content: string, key: Key, t: int)
    requires HeldSince(history, content, key, t) && t <= v.time
    ensures HeldSince(history + [v], content, key, t)
  {
    var i: nat :| CurrentAfter(history, i, t) && IsRow(history, i, content, key);
    assert CurrentAfter(history + [v], i, t) && IsRow(history + [v], i, content, key);
  }

  lemma HeldSinceNow(history: seq<Version>, content: string, t: int)
    requires history != [] && content in history[|history| - 1].table
    ensures HeldSince(history, content, ApplyEffectiveModelPermissions(history[|history| - 1].table[content]), t)
  {
    assert CurrentAfter(history, |history| - 1, t);
    assert IsRow(history, |history| - 1, content,
                 ApplyEffectiveModelPermissions(history[|history| - 1].table[content]));
  }

  lemma HeldSinceEarlier(history: seq<Version>, content: string, key: Key, t: int, u: int)
    requires HeldSince(history, content, key, t) && u <= t
    ensures HeldSince(history, content, key, u)
  {
    var i: nat :| CurrentAfter(history, i, t) && IsRow(history, i, content, key);
    assert CurrentAfter(history, i, u);
  }

  lemma ThreadOkGrows(history: seq<Version>, v: Version, clock: int, t: Thread)
    requires ThreadOk(history, clock, t) && v.time == clock
    ensures ThreadOk(history + [v], clock, t)
  {
    match t
    case Touching(content, now, key) => HeldSinceGrows(history, v, content, key, now - SYNC_TTL);
    case Storing(content, now, key) => HeldSinceGrows(history, v, content, key, now);
    case SweepStoring(now, _, key, _) => HeldSinceGrows(history, v, key.content, key, now);
    case _ =>
  }

  lemma EntryOkGrows(history: seq<Version>, v: Version, clock: int, content: string, entry: CachedKey)
    requires EntryOk(history, clock, content, entry) && v.time == clock
    ensures EntryOk(history + [v], clock, content, entry)
  {
    HeldSinceGrows(history, v, content, entry.key, entry.lastSyncAt);
  }

  lemma AcceptOkGrows(history: seq<Version>, v: Version, a: Accept)
    requires AcceptOk(history, a) && a.now <= v.time
    ensures AcceptOk(history + [v], a)
  {
    HeldSinceGrows(history, v, a.content, a.key, if a.fromCache then a.now - SYNC_TTL else a.now);
  }

  lemma HistoryOkGrows(history: seq<Version>, clock: int, table: map<string, Key>)
    requires HistoryOk(history, clock) && WellKeyed(table)
    ensures HistoryOk(history + [Version(clock, table)], clock)
  {
  }

  lemma {:induction false} VersionKeepsInv(s: State, v: Version)
    requires Inv(s) && v.time == s.clock && WellKeyed(v.table)
    ensures Inv(s.(history := s.history + [v]))
  {
    HistoryOkGrows(s.history, s.clock, v.table);
    forall content | content in s.cache
      ensures EntryOk(s.history + [v], s.clock, content, s.cache[content])
    {
      EntryOkGrows(s.history, v, s.clock, content, s.cache[content]);
    }
    forall i | 0 <= i < |s.threads|
      ensures ThreadOk(s.history + [v], s.clock, s.threads[i])
    {
      ThreadOkGrows(s.history, v, s.clock, s.threads[i]);
    }
    forall i | 0 <= i < |s.accepts|
      ensures AcceptOk(s.history + [v], s.accepts[i])
    {
      AcceptOkGrows(s.history, v, s.accepts[i]);
    }
  }

  lemma BecomeKeepsInv(s: State, tid: nat, t: Thread)
    requires Inv(s) && tid < |s.threads| && ThreadOk(s.history, s.clock, t)
    ensures Inv(Become(s, tid, t))
  {
  }

  lemma CacheKeepsInv(s: State, cache: Cache)
    requires Inv(s)
    requires forall content :: content in cache ==> EntryOk(s.history, s.clock, content, cache[content])
    ensures Inv(s.(cache := cache))
  {
  }

  lemma UpsertKeepsInv(s: State, key: Key, syncAt: int, accessAt: int)
    requires Inv(s) && syncAt <= s.clock && HeldSince(s.history, key.content, key, syncAt)
    ensures Inv(s.(cache := Upsert(s.cache, key, syncAt, accessAt)))
  {
    CacheKeepsInv(s, Upsert(s.cache, key, syncAt, accessAt));
  }

  lemma AcceptKeepsInv(s: State, a: Accept)
    requires Inv(s) && a.now <= s.clock && AcceptOk(s.history, a)
    ensures Inv(s.(accepts := s.accepts + [a]))
  {
  }

  /** The thread a load turns into. */
  lemma LoadedThreadOk(s: State, content: string, now: int, loaded: LoadResult)
    requires HistoryOk(s.history, s.clock) && now <= s.clock
    requires loaded.Found? ==> content in Rows(s) && loaded.key == Rows(s)[content]
    ensures OnLoad(loaded, now).Store? ==> ThreadOk(s.history, s.clock, Storing(content, now, OnLoad(loaded, now).key))
    ensures loaded.Found? ==>
              var key := ApplyEffectiveModelPermissions(loaded.key);
              key.content == content && HeldSince(s.history, content, key, now)
  {
    if loaded.Found? {
      LoadedRowOk(s.history, s.clock, content, now);
    }
  }

  lemma LoadedRowOk(history: seq<Version>, clock: int, content: string, now: int)
    requires HistoryOk(history, clock) && content in history[|history| - 1].table
    ensures var key := ApplyEffectiveModelPermissions(history[|history| - 1].table[content]);
            key.content == content && HeldSince(history, content, key, now)
  {
    HeldSinceNow(history, content, now);
    assert WellKeyed(history[|history| - 1].table);
  }

  lemma LookedThreadOk(s: State, content: string, now: int)
    requires Inv(s) && now <= s.clock
    ensures var d := OnLookup(Lookup(s.cache, content), now);
            d.Hit? ==> ThreadOk(s.history, s.clock, Touching(content, now, d.key))
  {
    if OnLookup(Lookup(s.cache, content), now).Hit? {
      var entry := s.cache[content];
      assert EntryOk(s.history, s.clock, content, entry);
      HeldSinceEarlier(s.history, content, entry.key, entry.lastSyncAt, now - SYNC_TTL);
    }
  }

  lemma {:induction false} LookKeepsInv(s: State, tid: nat, pick: string, dbError: bool)
    requires Inv(s) && tid < |s.threads| && s.threads[tid].Looking?
    ensures Inv(NextThread(s, tid, pick, dbError))
  {
    assert ThreadOk(s.history, s.clock, s.threads[tid]);
    LookedThreadOk(s, s.threads[tid].content, s.threads[tid].now);
    BecomeKeepsInv(s, tid, NextThread(s, tid, pick, dbError).threads[tid]);
  }

  lemma LoadKeepsInv(s: State, tid: nat, pick: string, dbError: bool)
    requires Inv(s) && tid < |s.threads| && s.threads[tid].Loading?
    ensures Inv(NextThread(s, tid, pick, dbError))
  {
    assert ThreadOk(s.history, s.clock, s.threads[tid]);
    var Loading(content, now) := s.threads[tid];
    LoadedThreadOk(s, content, now, if dbError then LoadError else QueryKey(Rows(s), content));
    BecomeKeepsInv(s, tid, NextThread(s, tid, pick, dbError).threads[tid]);
  }

  lemma AcceptStepKeepsInv(s: State, tid: nat, pick: string, dbError: bool)
    requires Inv(s) && tid < |s.threads| && (s.threads[tid].Touching? || s.threads[tid].Storing?)
    ensures Inv(NextThread(s, tid, pick, dbError))
  {
    assert ThreadOk(s.history, s.clock, s.threads[tid]);
    BecomeKeepsInv(s, tid, Done);
    var done := Become(s, tid, Done);
    match s.threads[tid]
    case Touching(content, now, key) =>
      var a := Accept(content, now, key, true);
      AcceptKeepsInv(done, a);
      TouchKeepsInv(done.(accepts := done.accepts + [a]), content, now);
    case Storing(content, now, key) =>
      var a := Accept(content, now, key, false);
      AcceptKeepsInv(done, a);
      UpsertKeepsInv(done.(accepts := done.accepts + [a]), key, now, now);
  }

  lemma TouchKeepsInv(s: State, content: string, now: int)
    requires Inv(s)
    ensures Inv(s.(cache := Touch(s.cache, content, now)))
  {
    if content in s.cache {
      assert EntryOk(s.history, s.clock, content, s.cache[content]);
    }
    CacheKeepsInv(s, Touch(s.cache, content, now));
  }

  lemma SweepLoadKeepsInv(s: State, tid: nat, pick: string, dbError: bool)
    requires Inv(s) && tid < |s.threads| && (s.threads[tid].SweepLoading? || s.threads[tid].SweepStoring?)
    ensures Inv(NextThread(s, tid, pick, dbError))
  {
    var r := NextThread(s, tid, pick, dbError);
    assert ThreadOk(s.history, s.clock, s.threads[tid]);
    match s.threads[tid]
    case SweepLoading(now, _, content, _) =>
      LoadedThreadOk(s, content, now, if dbError then LoadError else QueryValidKey(Rows(s), content, s.clock));
      BecomeKeepsInv(s, tid, r.threads[tid]);
    case SweepStoring(now, todo, key, accessAt) =>
      BecomeKeepsInv(s, tid, Sweeping(now, todo));
      UpsertKeepsInv(Become(s, tid, Sweeping(now, todo)), key, now, accessAt);
  }

  /** The remaining steps write no row into the cache. */
  lemma DropStepShape(s: State, tid: nat, pick: string, dbError: bool) returns (t: Thread, gone: set<string>)
    requires s.history != [] && tid < |s.threads| && ThreadOk(s.history, s.clock, s.threads[tid])
    requires var t := s.threads[tid];
             t.Dropping? || t.Snapshotting? || t.Sweeping? || t.SweepDropping? || t.Invalidating? || t.Done?
    ensures ThreadOk(s.history, s.clock, t)
    ensures NextThread(s, tid, pick, dbError) == Become(s, tid, t).(cache := s.cache - gone)
  {
    t := NextThread(s, tid, pick, dbError).threads[tid];
    assert s.threads == s.threads[tid := s.threads[tid]];
    assert s.cache - {} == s.cache;
    match s.threads[tid]
    case Dropping(content) => gone := {content};
    case SweepDropping(_, _, content) => gone := {content};
    case Invalidating(contents) => gone := if pick in contents then {pick} else {};
    case _ => gone := {};
  }

  lemma {:induction false} DropStepKeepsInv(s: State, tid: nat, pick: string, dbError: bool)
    requires Inv(s) && tid < |s.threads|
    requires var t := s.threads[tid];
             t.Dropping? || t.Snapshotting? || t.Sweeping? || t.SweepDropping? || t.Invalidating? || t.Done?
    ensures Inv(NextThread(s, tid, pick, dbError))
  {
    var t, gone := DropStepShape(s, tid, pick, dbError);
    BecomeKeepsInv(s, tid, t);
    CacheKeepsInv(Become(s, tid, t), s.cache - gone);
  }

  lemma {:induction false} NextKeepsInv(s: State, e: Event)
    requires Inv(s)
    ensures Inv(Next(s, e))
  {
    match e
    case DbWrite(table) =>
      if WellKeyed(table) {
        VersionKeepsInv(s, Version(s.clock, table));
      }
    case Step(tid, pick, dbError) =>
      if tid < |s.threads| {
        var t := s.threads[tid];
        if t.Looking? {
          LookKeepsInv(s, tid, pick, dbError);
        } else if t.Loading? {
          LoadKeepsInv(s, tid, pick, dbError);
        } else if t.Touching? || t.Storing? {
          AcceptStepKeepsInv(s, tid, pick, dbError);
        } else if t.SweepLoading? || t.SweepStoring? {
          SweepLoadKeepsInv(s, tid, pick, dbError);
        } else {
          DropStepKeepsInv(s, tid, pick, dbError);
        }
      }
    case _ =>
  }

  /** From any state that satisfies the invariant, and so from any initial one. */
  lemma {:induction false} RunKeepsInv(s: State, events: seq<Event>)
    requires Inv(s)
    ensures Inv(Run(s, events))
  {
    if events != [] {
      RunKeepsInv(s, events[..|events| - 1]);
      NextKeepsInv(Run(s, events[..|events| - 1]), events[|events| - 1]);
    }
  }

  // ---------- Main results ----------

  /**
   In every interleaving, a cached entry is the effective row the database held at some instant no
   earlier than the entry's LastSyncAt.
   */
  lemma CacheIsFresh(s: State, events: seq<Event>, content: string)
    requires Initial(s)
    requires content in Run(s, events).cache
    ensures var r := Run(s, events);
            && r.cache[content].lastSyncAt <= r.clock
            && HeldSince(r.history, content, r.cache[content].key, r.cache[content].lastSyncAt)
  {
    RunKeepsInv(s, events);
  }

  /**
   In every interleaving, a request accepted from the cache at `now` uses a row the database still held
   no more than 60 s before `now`, one accepted from the database a row it held at `now` or later;
   either way the row has a limit that makes sense, money left, and no expiry or one after `now`.
   */
  lemma AcceptsAreFresh(s: State, events: seq<Event>, i: nat)
    requires Initial(s)
    requires i < |Run(s, events).accepts|
    ensures var r := Run(s, events);
            var a := r.accepts[i];
            && HeldSince(r.history, a.content, a.key, if a.fromCache then a.now - 60_000_000_000 else a.now)
            && a.key.requestPerMinute >= 0 && a.key.balance > 0
            && (a.key.expireTime == ZERO_TIME || a.now < a.key.expireTime)
  {
    RunKeepsInv(s, events);
    assert AcceptOk(Run(s, events).history, Run(s, events).accepts[i]);
  }

  /**
   What an accepted request may use: exactly the models that both the team list and the key list of a row the
   database held late enough allow. Everything else is as in that row.
   */
  lemma {:induction false} AcceptsGrantWhatRowsGrant(s: State, events: seq<Event>, i: nat)
    returns (version: nat, row: Key)
    requires Initial(s) && i < |Run(s, events).accepts|
    ensures var r := Run(s, events);
            var a := r.accepts[i];
            && CurrentAfter(r.history, version, if a.fromCache then a.now - SYNC_TTL else a.now)
            && a.content in r.history[version].table && row == r.history[version].table[a.content]
            && IsEffective(row, a.key)
  {
    RunKeepsInv(s, events);
    var r := Run(s, events);
    var a := r.accepts[i];
    assert AcceptOk(r.history, a);
    version :| CurrentAfter(r.history, version, if a.fromCache then a.now - SYNC_TTL else a.now)
               && IsRow(r.history, version, a.content, a.key);
    row := r.history[version].table[a.content];
    EffectiveMeets(row);
  }

  /**
   No request accepted later than SYNC_TTL after a database write relies on a version from before that
   write, even when the invalidation that follows the write loses a race with an upsert.
   */
  lemma {:induction false} OldRowsExpire(s: State, events: seq<Event>, i: nat, write: nat) returns (version: nat)
    requires Initial(s)
    requires i < |Run(s, events).accepts| && write < |Run(s, events).history|
    requires Run(s, events).accepts[i].now > Run(s, events).history[write].time + SYNC_TTL
    ensures version >= write
    ensures var r := Run(s, events);
            IsRow(r.history, version, r.accepts[i].content, r.accepts[i].key)
  {
    RunKeepsInv(s, events);
    var r := Run(s, events);
    assert AcceptOk(r.history, r.accepts[i]);
    version := VersionBehind(r.history, r.clock, r.accepts[i], write);
  }

  lemma VersionBehind(history: seq<Version>, clock: int, a: Accept, write: nat) returns (version: nat)
    requires HistoryOk(history, clock) && AcceptOk(history, a)
    requires write < |history| && a.now > history[write].time + SYNC_TTL
    ensures version >= write && IsRow(history, version, a.content, a.key)
  {
    var t := if a.fromCache then a.now - SYNC_TTL else a.now;
    version :| CurrentAfter(history, version, t) && IsRow(history, version, a.content, a.key);
    NotReplaced(history, clock, version, t, write);
  }

  /** A version still current after a write is the write's own or a later one. */
  lemma NotReplaced(history: seq<Version>, clock: int, version: nat, t: int, write: nat)
    requires HistoryOk(history, clock) && CurrentAfter(history, version, t)
    requires write < |history| && t > history[write].time
    ensures version >= write
  {
    var next := if version + 1 < write then version + 1 else write;
    assert history[next].time <= history[write].time;
  }

  // ---------- Invalidations that win their race ----------

  /** The row was in the database at version `write` or later. */
  ghost predicate RowSince(history: seq<Version>, write: nat, content: string, key: Key) {
    exists i: nat :: i >= write && IsRow(history, i, content, key)
  }

  /** Whatever the thread holds for the content and may still store or accept is from version `write` or later. */
  ghost predicate HoldsSince(history: seq<Version>, write: nat, content: string, t: Thread) {
    match t
    case Touching(c, _, key) => c == content ==> RowSince(history, write, content, key)
    case Storing(c, _, key) => c == content ==> RowSince(history, write, content, key)
    case SweepStoring(_, _, key, _) => key.content == content ==> RowSince(history, write, content, key)
    case _ => true
  }

  /** Nothing from before the write is left for the content, and nothing accepted since `from` relied on it. */
  ghost predicate Renewed(s: State, write: nat, content: string, from: nat) {
    && write < |s.history|
    && (content in s.cache ==> RowSince(s.history, write, content, s.cache[content].key))
    && (forall i :: 0 <= i < |s.threads| ==> HoldsSince(s.history, write, content, s.threads[i]))
    && (forall i :: from <= i < |s.accepts| && s.accepts[i].content == content
                    ==> RowSince(s.history, write, content, s.accepts[i].key))
  }

  lemma RowSinceGrows(history: seq<Version>, v: Version, write: nat, content: string, key: Key)
    requires RowSince(history, write, content, key)
    ensures RowSince(history + [v], write, content, key)
  {
    var i: nat :| i >= write && IsRow(history, i, content, key);
    assert IsRow(history + [v], i, content, key);
  }

  lemma HoldsSinceGrows(history: seq<Version>, v: Version, write: nat, content: string, t: Thread)
    requires HoldsSince(history, write, content, t)
    ensures HoldsSince(history + [v], write, content, t)
  {
    match t
    case Touching(c, _, key) => if c == content { RowSinceGrows(history, v, write, content, key); }
    case Storing(c, _, key) => if c == content { RowSinceGrows(history, v, write, content, key); }
    case SweepStoring(_, _, key, _) => if key.content == content { RowSinceGrows(history, v, write, content, key); }
    case _ =>
  }

  lemma {:induction false} WriteKeepsRenewed(s: State, v: Version, write: nat, content: string, from: nat)
    requires Renewed(s, write, content, from)
    ensures Renewed(s.(history := s.history + [v]), write, content, from)
  {
    if content in s.cache {
      RowSinceGrows(s.history, v, write, content, s.cache[content].key);
    }
    forall i | 0 <= i < |s.threads|
      ensures HoldsSince(s.history + [v], write, content, s.threads[i])
    {
      HoldsSinceGrows(s.history, v, write, content, s.threads[i]);
    }
    forall i | from <= i < |s.accepts| && s.accepts[i].content == content
      ensures RowSince(s.history + [v], write, content, s.accepts[i].key)
    {
      RowSinceGrows(s.history, v, write, content, s.accepts[i].key);
    }
  }

  /** What a query returns now is from the newest version. */
  lemma LoadedRowIsNew(history: seq<Version>, write: nat, content: string)
    requires write < |history| && content in history[|history| - 1].table
    ensures RowSince(history, write, content, ApplyEffectiveModelPermissions(history[|history| - 1].table[content]))
  {
    assert IsRow(history, |history| - 1, content,
                 ApplyEffectiveModelPermissions(history[|history| - 1].table[content]));
  }

  lemma BecomeKeepsRenewed(s: State, tid: nat, t: Thread, write: nat, content: string, from: nat)
    requires Renewed(s, write, content, from) && tid < |s.threads| && HoldsSince(s.history, write, content, t)
    ensures Renewed(Become(s, tid, t), write, content, from)
  {
  }

  lemma StoreKeepsRenewed(s: State, cache: Cache, write: nat, content: string, from: nat)
    requires Renewed(s, write, content, from)
    requires content in cache ==> RowSince(s.history, write, content, cache[content].key)
    ensures Renewed(s.(cache := cache), write, content, from)
  {
  }

  lemma AcceptKeepsRenewed(s: State, a: Accept, write: nat, content: string, from: nat)
    requires Renewed(s, write, content, from)
    requires a.content == content ==> RowSince(s.history, write, content, a.key)
    ensures Renewed(s.(accepts := s.accepts + [a]), write, content, from)
  {
  }

  /** Looking up finds an entry that is new already; loading finds the newest row. */
  lemma {:induction false} LookKeepsRenewed(s: State, tid: nat, pick: string, dbError: bool,
                                           write: nat, content: string, from: nat)
    requires Inv(s) && Renewed(s, write, content, from) && tid < |s.threads|
    requires s.threads[tid].Looking? || s.threads[tid].Loading? || s.threads[tid].SweepLoading?
    ensures Renewed(NextThread(s, tid, pick, dbError), write, content, from)
  {
    var t := NextThread(s, tid, pick, dbError).threads[tid];
    HeldByReader(s, tid, pick, dbError, write, content, from);
    BecomeKeepsRenewed(s, tid, t, write, content, from);
    assert NextThread(s, tid, pick, dbError) == Become(s, tid, t);
  }

  lemma {:induction false} HeldByReader(s: State, tid: nat, pick: string, dbError: bool,
                                       write: nat, content: string, from: nat)
    requires Inv(s) && Renewed(s, write, content, from) && tid < |s.threads|
    requires s.threads[tid].Looking? || s.threads[tid].Loading? || s.threads[tid].SweepLoading?
    ensures HoldsSince(s.history, write, content, NextThread(s, tid, pick, dbError).threads[tid])
  {
    match s.threads[tid]
    case Looking(c, now) =>
    case Loading(c, now) => LoaderHoldsNew(s, c, now, dbError, write, content);
    case SweepLoading(_, _, c, _) => SweeperHoldsNew(s, c, dbError, write, content);
  }

  lemma {:induction false} LoaderHoldsNew(s: State, c: string, now: int, dbError: bool, write: nat, content: string)
    requires write < |s.history|
    ensures var d := OnLoad(if dbError then LoadError else QueryKey(Rows(s), c), now);
            d.Store? && c == content ==> RowSince(s.history, write, content, d.key)
  {
    if c == content && content in Rows(s) {
      LoadedRowIsNew(s.history, write, content);
    }
  }

  lemma {:induction false} SweeperHoldsNew(s: State, c: string, dbError: bool, write: nat, content: string)
    requires HistoryOk(s.history, s.clock) && write < |s.history|
    ensures var loaded := if dbError then LoadError else QueryValidKey(Rows(s), c, s.clock);
            loaded.Found? && ApplyEffectiveModelPermissions(loaded.key).content == content
            ==> RowSince(s.history, write, content, ApplyEffectiveModelPermissions(loaded.key))
  {
    assert WellKeyed(s.history[|s.history| - 1].table);
    if c == content && content in Rows(s) {
      LoadedRowIsNew(s.history, write, content);
    }
  }

  lemma {:induction false} StoreStepKeepsRenewed(s: State, tid: nat, pick: string, dbError: bool,
                                                write: nat, content: string, from: nat)
    requires Inv(s) && Renewed(s, write, content, from) && tid < |s.threads|
    requires s.threads[tid].Touching? || s.threads[tid].Storing? || s.threads[tid].SweepStoring?
    ensures Renewed(NextThread(s, tid, pick, dbError), write, content, from)
  {
    assert HoldsSince(s.history, write, content, s.threads[tid]) && ThreadOk(s.history, s.clock, s.threads[tid]);
    match s.threads[tid]
    case Touching(c, now, key) =>
      BecomeKeepsRenewed(s, tid, Done, write, content, from);
      var done := Become(s, tid, Done);
      StoreKeepsRenewed(done, Touch(s.cache, c, now), write, content, from);
      AcceptKeepsRenewed(done.(cache := Touch(s.cache, c, now)), Accept(c, now, key, true), write, content, from);
    case Storing(c, now, key) =>
      BecomeKeepsRenewed(s, tid, Done, write, content, from);
      var done := Become(s, tid, Done);
      StoreKeepsRenewed(done, Upsert(s.cache, key, now, now), write, content, from);
      AcceptKeepsRenewed(done.(cache := Upsert(s.cache, key, now, now)), Accept(c, now, key, false),
                         write, content, from);
    case SweepStoring(now, todo, key, accessAt) =>
      BecomeKeepsRenewed(s, tid, Sweeping(now, todo), write, content, from);
      StoreKeepsRenewed(Become(s, tid, Sweeping(now, todo)), Upsert(s.cache, key, now, accessAt), write, content, from);
  }

  lemma {:induction false} DropStepKeepsRenewed(s: State, tid: nat, pick: string, dbError: bool,
                                               write: nat, content: string, from: nat)
    requires Inv(s) && Renewed(s, write, content, from) && tid < |s.threads|
    requires var t := s.threads[tid];
             t.Dropping? || t.Snapshotting? || t.Sweeping? || t.SweepDropping? || t.Invalidating? || t.Done?
    ensures Renewed(NextThread(s, tid, pick, dbError), write, content, from)
  {
    assert ThreadOk(s.history, s.clock, s.threads[tid]);
    var t, gone := DropStepShape(s, tid, pick, dbError);
    DropStepHoldsNothing(s, tid, pick, dbError, t, gone, write, content);
    BecomeKeepsRenewed(s, tid, t, write, content, from);
    StoreKeepsRenewed(Become(s, tid, t), s.cache - gone, write, content, from);
  }

  lemma DropStepHoldsNothing(s: State, tid: nat, pick: string, dbError: bool, t: Thread, gone: set<string>,
                             write: nat, content: string)
    requires s.history != [] && tid < |s.threads|
    requires NextThread(s, tid, pick, dbError) == Become(s, tid, t).(cache := s.cache - gone)
    requires var t := s.threads[tid];
             t.Dropping? || t.Snapshotting? || t.Sweeping? || t.SweepDropping? || t.Invalidating? || t.Done?
    ensures HoldsSince(s.history, write, content, t)
  {
    assert NextThread(s, tid, pick, dbError).threads[tid] == t;
  }

  lemma {:induction false} NextKeepsRenewed(s: State, e: Event, write: nat, content: string, from: nat)
    requires Inv(s) && Renewed(s, write, content, from)
    ensures Renewed(Next(s, e), write, content, from)
  {
    match e
    case DbWrite(table) =>
      if WellKeyed(table) {
        WriteKeepsRenewed(s, Version(s.clock, table), write, content, from);
      }
    case Step(tid, pick, dbError) =>
      if tid < |s.threads| {
        var t := s.threads[tid];
        if t.Looking? || t.Loading? || t.SweepLoading? {
          LookKeepsRenewed(s, tid, pick, dbError, write, content, from);
        } else if t.Touching? || t.Storing? || t.SweepStoring? {
          StoreStepKeepsRenewed(s, tid, pick, dbError, write, content, from);
        } else {
          DropStepKeepsRenewed(s, tid, pick, dbError, write, content, from);
        }
      }
    case _ =>
  }

  lemma {:induction false} RunKeepsRenewed(s: State, events: seq<Event>, write: nat, content: string, from: nat)
    requires Inv(s) && Renewed(s, write, content, from)
    ensures Renewed(Run(s, events), write, content, from)
  {
    if events != [] {
      RunKeepsInv(s, events[..|events| - 1]);
      RunKeepsRenewed(s, events[..|events| - 1], write, content, from);
      NextKeepsRenewed(Run(s, events[..|events| - 1]), events[|events| - 1], write, content, from);
    }
  }

  /** No thread holds a row of the content that it may still store or accept. */
  ghost predicate NobodyHolds(s: State, content: string) {
    forall i :: 0 <= i < |s.threads| ==>
      match s.threads[i]
      case Touching(c, _, _) => c != content
      case Storing(c, _, _) => c != content
      case SweepStoring(_, _, key, _) => key.content != content
      case _ => true
  }

  /**
   An invalidation that does not lose a race takes effect at once: when it has removed a key's entry and no
   thread still holds a row of that key, no request ever relies again on a version before the current one.
   */
  lemma {:induction false} UnracedInvalidationIsFinal(s: State, before: seq<Event>, after: seq<Event>,
                                                     content: string, i: nat)
    requires Initial(s)
    requires content !in Run(s, before).cache && NobodyHolds(Run(s, before), content)
    requires |Run(s, before).accepts| <= i < |Run(Run(s, before), after).accepts|
    requires Run(Run(s, before), after).accepts[i].content == content
    ensures var r := Run(Run(s, before), after);
            RowSince(r.history, |Run(s, before).history| - 1, content, r.accepts[i].key)
  {
    var a := Run(s, before);
    RunKeepsInv(s, before);
    RunKeepsRenewed(a, after, |a.history| - 1, content, |a.accepts|);
  }

  /**
   How a request goes on from its cache access and its query: a cached key that is not in order is dropped, one
   that is and was synced at most SYNC_TTL ago is used, and otherwise the row decides, unless the query fails.
   */
  lemma RequestGoesOn(s: State, tid: nat, pick: string, dbError: bool)
    requires s.history != [] && tid < |s.threads| && (s.threads[tid].Looking? || s.threads[tid].Loading?)
    ensures var t, u := s.threads[tid], NextThread(s, tid, pick, dbError).threads[tid];
            var c, rows := t.content, Rows(s);
            && (t.Looking? ==>
                  u == if c !in s.cache then Loading(c, t.now)
                       else if !InOrder(s.cache[c].key, t.now) then Dropping(c)
                       else if t.now - s.cache[c].lastSyncAt <= SYNC_TTL then Touching(c, t.now, s.cache[c].key)
                       else Loading(c, t.now))
            && (t.Loading? && dbError ==> u == Done)
            && (t.Loading? && !dbError && !(c in rows && InOrder(rows[c], t.now)) ==> u == Dropping(c))
            && (t.Loading? && !dbError && c in rows && InOrder(rows[c], t.now) ==>
                  u.Storing? && u.content == c && u.now == t.now && IsEffective(rows[c], u.key))
  {
    if s.threads[tid].Loading? && s.threads[tid].content in Rows(s) {
      EffectiveMeets(Rows(s)[s.threads[tid].content]);
    }
  }

  /**
   How a sweep goes on with an entry of its snapshot: an idle one is dropped, one synced at most SYNC_TTL ago
   left alone, and any other reloaded; and after the query, unless it fails, stored again if the row is still
   there with money and time left, and dropped if not.
   */
  lemma SweepGoesOn(s: State, tid: nat, pick: string, dbError: bool)
    requires s.history != [] && tid < |s.threads|
    requires s.threads[tid].SweepLoading? || (s.threads[tid].Sweeping? && pick in s.threads[tid].todo)
    ensures var t, u := s.threads[tid], NextThread(s, tid, pick, dbError).threads[tid];
            var rows := Rows(s);
            && (t.Sweeping? ==>
                  var e, rest := t.todo[pick], t.todo - {pick};
                  u == if IsIdle(e, t.now) then SweepDropping(t.now, rest, pick)
                       else if t.now - e.lastSyncAt <= SYNC_TTL then Sweeping(t.now, rest)
                       else SweepLoading(t.now, rest, pick, e.lastAccessAt))
            && (t.SweepLoading? && dbError ==> u == Sweeping(t.now, t.todo))
            && (t.SweepLoading? && !dbError ==>
                  var there := && t.content in rows && rows[t.content].balance > 0
                               && (rows[t.content].expireTime == ZERO_TIME || s.clock < rows[t.content].expireTime);
                  && (!there ==> u == SweepDropping(t.now, t.todo, t.content))
                  && (there ==>
                        && u.SweepStoring? && u.now == t.now && u.todo == t.todo && u.accessAt == t.accessAt
                        && IsEffective(rows[t.content], u.key)))
  {
    if s.threads[tid].SweepLoading? && s.threads[tid].content in Rows(s) {
      EffectiveMeets(Rows(s)[s.threads[tid].content]);
    }
  }

  /** A refused request and a sweep that finds its row gone remove their one entry, and accept nothing. */
  lemma DroppersRemove(s: State, tid: nat, pick: string, dbError: bool)
    requires s.history != [] && tid < |s.threads| && (s.threads[tid].Dropping? || s.threads[tid].SweepDropping?)
    ensures var t := Next(s, Step(tid, pick, dbError));
            && t.cache == s.cache - {s.threads[tid].content}
            && t.accepts == s.accepts && t.history == s.history && t.clock == s.clock
  {
  }

  /** An invalidator removes the entry of each of its keys, one step each, and no other. */
  lemma InvalidatorRemoves(s: State, tid: nat, pick: string, dbError: bool)
    requires s.history != [] && tid < |s.threads| && s.threads[tid].Invalidating? && pick in s.threads[tid].contents
    ensures var t := Next(s, Step(tid, pick, dbError));
            && t.cache == s.cache - {pick}
            && t.threads == s.threads[tid := Invalidating(s.threads[tid].contents - {pick})]
  {
  }

  // ---------- The bound is tight ----------

  lemma RunThen(s: State, events: seq<Event>, e: Event)
    requires s.history != []
    ensures Run(s, events + [e]) == Next(Run(s, events), e)
  {
    var more := events + [e];
    assert more[..|more| - 1] == events && more[|more| - 1] == e;
  }

  lemma MissStep(s: State, k: string, now: int)
    requires s.history != [] && s.threads == [Looking(k, now)] && s.cache == map[]
    ensures Next(s, Step(0, k, false)) == s.(threads := [Loading(k, now)])
  {
  }

  lemma RowIsStored(rows: map<string, Key>, row: Key, now: int)
    requires row.content in rows && rows[row.content] == row && InvalidKeyResult(row, now) == None
    ensures OnLoad(QueryKey(rows, row.content), now) == Store(ApplyEffectiveModelPermissions(row))
  {
  }

  lemma LoadStep(s: State, k: string, now: int, key: Key)
    requires s.history != [] && s.threads == [Loading(k, now)] && OnLoad(QueryKey(Rows(s), k), now) == Store(key)
    ensures Next(s, Step(0, k, false)) == s.(threads := [Storing(k, now, key)])
  {
    assert NextThread(s, 0, k, false) == Become(s, 0, Storing(k, now, key));
  }

  lemma StoreStep(s: State, key: Key, now: int, t: Thread)
    requires s.history != [] && s.threads == [Storing(key.content, now, key), t]
    ensures Next(s, Step(0, "", false))
            == s.(threads := [Done, t], cache := Upsert(s.cache, key, now, now),
                  accepts := s.accepts + [Accept(key.content, now, key, false)])
  {
  }

  /** A request that has loaded its row and not yet stored it. */
  lemma {:induction false} LoadRow(s: State, row: Key) returns (events: seq<Event>)
    requires Initial(s)
    requires row.content in Rows(s) && Rows(s)[row.content] == row
    requires InvalidKeyResult(row, s.clock) == None
    ensures Run(s, events)
            == s.(threads := [Storing(row.content, s.clock, ApplyEffectiveModelPermissions(row))])
  {
    var k := row.content;
    var r;
    events, r := Then(s, [], s, Request(k));
    MissStep(r, k, s.clock);
    events, r := Then(s, events, r, Step(0, k, false));
    RowIsStored(Rows(r), row, s.clock);
    LoadStep(r, k, s.clock, ApplyEffectiveModelPermissions(row));
    events, r := Then(s, events, r, Step(0, k, false));
  }

  /** A write, and the invalidation that follows it, while a request still holds the old row. */
  lemma {:induction false} WriteAndInvalidate(s: State, before: seq<Event>, r: State, k: string,
                                              table: map<string, Key>)
    returns (events: seq<Event>)
    requires s.history != [] && Run(s, before) == r && |r.threads| == 1 && r.cache == map[]
    requires WellKeyed(table)
    ensures Run(s, events)
            == r.(history := r.history + [Version(r.clock, table)], threads := r.threads + [Done])
  {
    var n;
    events, n := Then(s, before, r, DbWrite(table));
    events, n := Then(s, events, n, Invalidate({k}));
    events, n := Then(s, events, n, Step(1, k, false));
    assert {k} - {k} == {} && n.cache == map[];
    events, n := Then(s, events, n, Step(1, k, false));
    assert n.threads == r.threads + [Done];
  }

  /** A load that starts before a write and stores its row after the write's invalidation has finished. */
  lemma {:induction false} StoreAfterInvalidation(s: State, row: Key, table: map<string, Key>)
    returns (events: seq<Event>, r: State)
    requires Initial(s) && WellKeyed(table)
    requires row.content in Rows(s) && Rows(s)[row.content] == row
    requires InvalidKeyResult(row, s.clock) == None
    ensures Run(s, events) == r && r.clock == s.clock && r.threads == [Done, Done]
    ensures r.history == s.history + [Version(s.clock, table)]
    ensures r.cache == map[row.content := CachedKey(ApplyEffectiveModelPermissions(row), s.clock, s.clock)]
  {
    events := LoadRow(s, row);
    events := WriteAndInvalidate(s, events, Run(s, events), row.content, table);
    events, r := StoreLoaded(s, events, Run(s, events), row);
  }

  /** The first thread stores the row it has loaded. */
  lemma {:induction false} StoreLoaded(s: State, before: seq<Event>, a: State, row: Key)
    returns (events: seq<Event>, r: State)
    requires s.history != [] && Run(s, before) == a && a.cache == map[]
    requires a.threads == [Storing(row.content, a.clock, ApplyEffectiveModelPermissions(row)), Done]
    ensures Run(s, events) == r && r.clock == a.clock && r.threads == [Done, Done] && r.history == a.history
    ensures r.cache == map[row.content := CachedKey(ApplyEffectiveModelPermissions(row), a.clock, a.clock)]
  {
    StoreStep(a, ApplyEffectiveModelPermissions(row), a.clock, Done);
    events, r := Then(s, before, a, Step(0, "", false));
  }

  lemma {:induction false} Then(s: State, events: seq<Event>, r: State, e: Event)
    returns (more: seq<Event>, next: State)
    requires s.history != [] && Run(s, events) == r
    ensures more == events + [e] && next == Next(r, e) && Run(s, more) == next
  {
    RunThen(s, events, e);
    more, next := events + [e], Next(r, e);
  }

  /** A request that finds a usable entry exactly SYNC_TTL old. */
  lemma {:induction false} HitAtDeadline(s: State, before: seq<Event>, r: State, k: string, key: Key)
    returns (events: seq<Event>)
    requires s.history != [] && Run(s, before) == r && |r.threads| == 2
    requires k in r.cache && r.cache[k].key == key && r.cache[k].lastSyncAt == r.clock
    requires InvalidKeyResult(key, r.clock + SYNC_TTL) == None
    ensures var t := Run(s, events);
            && t.history == r.history && t.threads == r.threads + [Done]
            && t.accepts == r.accepts + [Accept(k, r.clock + SYNC_TTL, key, true)]
  {
    var now := r.clock + SYNC_TTL;
    var n;
    events, n := Then(s, before, r, Tick(SYNC_TTL));
    events, n := Then(s, events, n, Request(k));
    events, n := Then(s, events, n, Step(2, "", false));
    assert n == r.(clock := now, threads := r.threads + [Touching(k, now, key)]);
    events, n := Then(s, events, n, Step(2, "", false));
    assert n.threads == r.threads + [Done];
  }

  /**
   The SYNC_TTL bound on old rows cannot be improved: whatever a write replaces a usable row by, there is
   an interleaving in which the write's invalidation has run to its end and a request still relies on
   the old row exactly SYNC_TTL after the write.
   */
  lemma {:induction false} OldRowsLastThatLong(s: State, row: Key, table: map<string, Key>) returns (events: seq<Event>)
    requires Initial(s) && WellKeyed(table)
    requires row.content in Rows(s) && Rows(s)[row.content] == row
    requires InvalidKeyResult(row, s.clock + SYNC_TTL) == None
    ensures var r := Run(s, events);
            && r.history == s.history + [Version(s.clock, table)]
            && r.threads == [Done, Done, Done]
            && r.accepts != []
            && r.accepts[|r.accepts| - 1]
               == Accept(row.content, s.clock + SYNC_TTL, ApplyEffectiveModelPermissions(row), true)
  {
    var r;
    events, r := StoreAfterInvalidation(s, row, table);
    events := HitAtDeadline(s, events, r, row.content, ApplyEffectiveModelPermissions(row));
  }
}
