/**
 The per-key sliding-window rate limiter. Times are nanoseconds.

 RequestRing is the buffer that AllowAt prunes in place; Admit is one call as a function; RunFrom is a
 whole run of calls, in the order in which they take the ring's mutex. Callers read the clock before
 they take the mutex, so the instants of a run need not be sorted.
 */
module RateLimit {

  const SECOND: int := 1_000_000_000
  const MINUTE: int := 60 * SECOND

  // ---------- One call ----------

  /** The first index, from `i` on, whose instant is after the cutoff. */
  function FirstValid(requests: seq<int>, cutoff: int, i: nat := 0): (k: nat)
    requires i <= |requests|
    ensures i <= k <= |requests|
    ensures forall j :: i <= j < k ==> requests[j] <= cutoff
    ensures k < |requests| ==> requests[k] > cutoff
    decreases |requests| - i
  {
    if i == |requests| || requests[i] > cutoff then i else FirstValid(requests, cutoff, i + 1)
  }

  /** Drops the longest prefix of instants at or before the cutoff. */
  function Prune(requests: seq<int>, cutoff: int): seq<int> {
    requests[FirstValid(requests, cutoff)..]
  }

  datatype Verdict = Verdict(allowed: bool, retryAfter: int, requests: seq<int>)

  /** One call at `now` on a ring that holds `requests`. */
  function Admit(window: int, maxRequests: int, requests: seq<int>, now: int): Verdict
    requires maxRequests > 0
  {
    var live := Prune(requests, now - window);
    if |live| >= maxRequests then
      var wait := live[0] + window - now;
      Verdict(false, if wait < 0 then 0 else wait, live)
    else
      Verdict(true, 0, live + [now])
  }

  /** A denial always asks for a positive wait, so the clamp to zero is dead code. */
  lemma {:induction false} DenialWaitIsPositive(window: int, maxRequests: int, requests: seq<int>, now: int)
    requires maxRequests > 0
    ensures var v := Admit(window, maxRequests, requests, now);
            !v.allowed ==> v.retryAfter > 0 && v.requests != [] && v.retryAfter == v.requests[0] + window - now
  {
  }

  // ---------- Whole runs ----------

  datatype Run = Run(requests: seq<int>, admitted: seq<int>)

  /** A run after one more call, at `now` and with verdict `v`. */
  function Extend(r: Run, v: Verdict, now: int): Run {
    Run(v.requests, if v.allowed then r.admitted + [now] else r.admitted)
  }

  /** The ring, and every admitted instant in order, after the calls `nows` on a ring holding `start`. */
  function RunFrom(window: int, maxRequests: int, start: seq<int>, nows: seq<int>): Run
    requires maxRequests > 0
  {
    if nows == [] then Run(start, [])
    else
      var last := |nows| - 1;
      var before := RunFrom(window, maxRequests, start, nows[..last]);
      Extend(before, Admit(window, maxRequests, before.requests, nows[last]), nows[last])
  }

  lemma {:induction false} RunSnoc(window: int, maxRequests: int, start: seq<int>, nows: seq<int>, now: int)
    requires maxRequests > 0
    ensures var before := RunFrom(window, maxRequests, start, nows);
            RunFrom(window, maxRequests, start, nows + [now])
            == Extend(before, Admit(window, maxRequests, before.requests, now), now)
  {
    assert (nows + [now])[..|nows|] == nows;
  }

  /** How many of the instants lie in the half-open interval [lo, hi). */
  function CountIn(s: seq<int>, lo: int, hi: int): nat {
    if s == [] then 0
    else CountIn(s[..|s| - 1], lo, hi) + if lo <= s[|s| - 1] < hi then 1 else 0
  }

  lemma {:induction false} CountAppend(a: seq<int>, b: seq<int>, lo: int, hi: int)
    ensures CountIn(a + b, lo, hi) == CountIn(a, lo, hi) + CountIn(b, lo, hi)
  {
    if b == [] {
      assert a + b == a;
    } else {
      assert (a + b)[..|a + b| - 1] == a + b[..|b| - 1];
      CountAppend(a, b[..|b| - 1], lo, hi);
    }
  }

  lemma {:induction false} CountBounds(s: seq<int>, lo: int, hi: int)
    ensures CountIn(s, lo, hi) <= |s|
    ensures (forall i :: 0 <= i < |s| ==> !(lo <= s[i] < hi)) ==> CountIn(s, lo, hi) == 0
    ensures (forall i :: 0 <= i < |s| ==> lo <= s[i] < hi) ==> CountIn(s, lo, hi) == |s|
  {
    if s != [] {
      CountBounds(s[..|s| - 1], lo, hi);
    }
  }

  /** Each call lags the largest earlier one by at most `skew`. */
  ghost predicate SkewAtMost(nows: seq<int>, skew: int) {
    forall i, j :: 0 <= i < j < |nows| ==> nows[j] >= nows[i] - skew
  }

  /** Some call of the run was late enough to prune `t`. */
  ghost predicate Expired(t: int, window: int, nows: seq<int>) {
    exists u :: u in nows && t <= u - window
  }

  /**
   The ring is always a suffix of the admission history, never above its capacity, and whatever it no
   longer holds had expired, although the ring is unsorted and only a prefix is ever pruned.
   */
  lemma {:induction false} RingIsSuffixOfHistory(window: int, maxRequests: int, nows: seq<int>) returns (gone: seq<int>)
    requires maxRequests > 0
    ensures var r := RunFrom(window, maxRequests, [], nows);
            && |r.requests| <= maxRequests
            && r.admitted == gone + r.requests
            && (forall t :: t in gone ==> Expired(t, window, nows))
            && (forall t :: t in r.admitted ==> t in nows)
  {
    if nows == [] {
      gone := [];
    } else {
      var last := |nows| - 1;
      var earlier := RingIsSuffixOfHistory(window, maxRequests, nows[..last]);
      var before := RunFrom(window, maxRequests, [], nows[..last]);
      gone := PruneExtendsGone(window, nows[..last], nows[last], earlier, before.requests);
      assert nows == nows[..last] + [nows[last]];
      ExtendKeepsSuffix(window, maxRequests, gone, before, nows[last]);
    }
  }

  lemma ExtendKeepsSuffix(window: int, maxRequests: int, gone: seq<int>, before: Run, now: int)
    requires maxRequests > 0 && |before.requests| <= maxRequests
    requires before.admitted == gone + Prune(before.requests, now - window)
    ensures var r := Extend(before, Admit(window, maxRequests, before.requests, now), now);
            && |r.requests| <= maxRequests
            && r.admitted == gone + r.requests
            && (forall t :: t in r.admitted ==> t in before.admitted || t == now)
  {
  }

  lemma PruneExtendsGone(window: int, nows: seq<int>, now: int, earlier: seq<int>, requests: seq<int>)
    returns (gone: seq<int>)
    requires forall t :: t in earlier ==> Expired(t, window, nows)
    ensures gone + Prune(requests, now - window) == earlier + requests
    ensures forall t :: t in gone ==> Expired(t, window, nows + [now])
  {
    var k := FirstValid(requests, now - window);
    gone := earlier + requests[..k];
    forall t | t in gone
      ensures Expired(t, window, nows + [now])
    {
      if t in earlier {
        var u :| u in nows && t <= u - window;
        assert u in nows + [now];
      } else {
        assert now in nows + [now];
      }
    }
  }

  /**
   The rate limit under clock skew: no half-open interval of length `window - skew` ever holds more than
   `maxRequests` admitted instants. With skew 0 this is the exact sliding window.
   */
  lemma {:induction false} SkewedWindowBound(window: int, maxRequests: int, nows: seq<int>, skew: nat, lo: int)
    requires maxRequests > 0
    requires SkewAtMost(nows, skew)
    ensures CountIn(RunFrom(window, maxRequests, [], nows).admitted, lo, lo + window - skew) <= maxRequests
  {
    if nows != [] {
      var last := |nows| - 1;
      SkewedWindowBound(window, maxRequests, nows[..last], skew, lo);
      if lo <= nows[last] < lo + window - skew {
        LiveIntervalBound(window, maxRequests, nows, skew, lo);
      }
    }
  }

  /** An interval that holds the newest call reaches back to nothing that has left the ring. */
  lemma LiveIntervalBound(window: int, maxRequests: int, nows: seq<int>, skew: nat, lo: int)
    requires maxRequests > 0 && nows != []
    requires SkewAtMost(nows, skew)
    requires lo <= nows[|nows| - 1] < lo + window - skew
    ensures CountIn(RunFrom(window, maxRequests, [], nows).admitted, lo, lo + window - skew) <= maxRequests
  {
    var gone := RingIsSuffixOfHistory(window, maxRequests, nows);
    var requests := RunFrom(window, maxRequests, [], nows).requests;
    ExpiredIsOutside(window, nows, skew, lo, gone);
    CountOutside(gone, requests, lo, lo + window - skew);
  }

  lemma ExpiredIsOutside(window: int, nows: seq<int>, skew: nat, lo: int, gone: seq<int>)
    requires nows != [] && SkewAtMost(nows, skew) && nows[|nows| - 1] < lo + window - skew
    requires forall t :: t in gone ==> Expired(t, window, nows)
    ensures forall i :: 0 <= i < |gone| ==> gone[i] < lo
  {
    forall i | 0 <= i < |gone|
      ensures gone[i] < lo
    {
      assert gone[i] in gone;
      var u :| u in nows && gone[i] <= u - window;
    }
  }

  lemma CountOutside(gone: seq<int>, live: seq<int>, lo: int, hi: int)
    requires forall i :: 0 <= i < |gone| ==> gone[i] < lo
    ensures CountIn(gone + live, lo, hi) <= |live|
  {
    CountBounds(gone, lo, hi);
    CountBounds(live, lo, hi);
    CountAppend(gone, live, lo, hi);
  }

  function Repeat(x: int, n: nat): (s: seq<int>)
    ensures |s| == n && forall i :: 0 <= i < n ==> s[i] == x
  {
    seq(n, _ => x)
  }

  lemma {:induction false} RunOfRepeats(window: int, maxRequests: int, n: nat)
    requires window > 0 && 0 < n <= maxRequests
    ensures RunFrom(window, maxRequests, [], Repeat(0, n)) == Run(Repeat(0, n), Repeat(0, n))
  {
    var nows := Repeat(0, n);
    assert nows[..n - 1] == Repeat(0, n - 1);
    assert Repeat(0, n) == Repeat(0, n - 1) + [0];
    if n > 1 {
      RunOfRepeats(window, maxRequests, n - 1);
    } else {
      assert RunFrom(window, maxRequests, [], nows[..0]) == Run([], []);
    }
  }

  /**
   The bound is tight: for every skew up to the window and every limit of at least two, there is a run
   with that skew whose interval one nanosecond longer holds more than the limit.
   */
  lemma SkewedWindowBoundIsTight(window: int, maxRequests: int, skew: nat) returns (nows: seq<int>)
    requires 0 < window && skew <= window && maxRequests >= 2
    ensures SkewAtMost(nows, skew)
    ensures CountIn(RunFrom(window, maxRequests, [], nows).admitted, 0, window - skew + 1) > maxRequests
  {
    var zeros := Repeat(0, maxRequests);
    nows := zeros + [window] + [window - skew];
    RunOfRepeats(window, maxRequests, maxRequests);
    LateRun(window, maxRequests, zeros, skew, nows);
    LateCount(window, zeros, skew, nows);
  }

  /** Calls at `window` and then at `window - skew`, after as many calls at 0 as the ring holds. */
  lemma {:induction false} LateRun(window: int, maxRequests: int, zeros: seq<int>, skew: nat, nows: seq<int>)
    requires 0 < window && skew <= window && maxRequests >= 2
    requires forall i :: 0 <= i < |zeros| ==> zeros[i] == 0
    requires RunFrom(window, maxRequests, [], zeros) == Run(zeros, zeros)
    requires nows == zeros + [window] + [window - skew]
    ensures RunFrom(window, maxRequests, [], nows).admitted == nows
  {
    PunctualCall(window, maxRequests, zeros);
    AdmittedSnoc(window, maxRequests, zeros + [window], window - skew);
  }

  lemma {:induction false} PunctualCall(window: int, maxRequests: int, zeros: seq<int>)
    requires 0 < window && maxRequests >= 2 && forall i :: 0 <= i < |zeros| ==> zeros[i] == 0
    requires RunFrom(window, maxRequests, [], zeros) == Run(zeros, zeros)
    ensures RunFrom(window, maxRequests, [], zeros + [window]) == Run([window], zeros + [window])
  {
    RunSnoc(window, maxRequests, [], zeros, window);
    EmptyingCall(window, maxRequests, zeros);
  }

  lemma EmptyingCall(window: int, maxRequests: int, zeros: seq<int>)
    requires 0 < window && maxRequests >= 2 && forall i :: 0 <= i < |zeros| ==> zeros[i] == 0
    ensures Admit(window, maxRequests, zeros, window) == Verdict(true, 0, [window])
  {
    assert Prune(zeros, 0) == [];
  }

  /** A call that finds room extends the admissions. */
  lemma {:induction false} AdmittedSnoc(window: int, maxRequests: int, before: seq<int>, now: int)
    requires maxRequests > 0 && |RunFrom(window, maxRequests, [], before).requests| < maxRequests
    ensures RunFrom(window, maxRequests, [], before + [now]).admitted
            == RunFrom(window, maxRequests, [], before).admitted + [now]
  {
    RunSnoc(window, maxRequests, [], before, now);
    RoomForOneMore(window, maxRequests, RunFrom(window, maxRequests, [], before).requests, now);
  }

  /** A ring below its limit admits whatever comes. */
  lemma RoomForOneMore(window: int, maxRequests: int, requests: seq<int>, now: int)
    requires |requests| < maxRequests
    ensures Admit(window, maxRequests, requests, now).allowed
  {
  }

  lemma LateCount(window: int, zeros: seq<int>, skew: nat, nows: seq<int>)
    requires 0 < window && skew <= window
    requires forall i :: 0 <= i < |zeros| ==> zeros[i] == 0
    requires nows == zeros + [window] + [window - skew]
    ensures SkewAtMost(nows, skew)
    ensures CountIn(nows, 0, window - skew + 1) > |zeros|
  {
    CountBounds(zeros, 0, window - skew + 1);
    CountAppend(zeros, [window], 0, window - skew + 1);
    CountAppend(zeros + [window], [window - skew], 0, window - skew + 1);
  }

  // ---------- A limit of one ----------

  /** Any two admissions are at least a window apart. */
  ghost predicate Spaced(s: seq<int>, window: int) {
    forall i, j :: 0 <= i < j < |s| ==> s[i] + window <= s[j]
  }

  /** The ring holds the last admission, if there has been one. */
  ghost predicate HoldsLast(r: Run) {
    if r.admitted == [] then r.requests == [] else r.requests == [r.admitted[|r.admitted| - 1]]
  }

  /** A ring for one request keeps its last admission until the window is over, in whatever order calls come. */
  lemma {:induction false} SingleRunIsSpaced(window: int, nows: seq<int>)
    requires window > 0
    ensures Spaced(RunFrom(window, 1, [], nows).admitted, window) && HoldsLast(RunFrom(window, 1, [], nows))
  {
    if nows != [] {
      var last := |nows| - 1;
      SingleRunIsSpaced(window, nows[..last]);
      SingleCall(window, RunFrom(window, 1, [], nows[..last]), nows[last]);
    }
  }

  lemma {:induction false} SingleCall(window: int, before: Run, now: int)
    requires window > 0 && Spaced(before.admitted, window) && HoldsLast(before)
    ensures var after := Extend(before, Admit(window, 1, before.requests, now), now);
            Spaced(after.admitted, window) && HoldsLast(after)
  {
    var v := Admit(window, 1, before.requests, now);
    if v.allowed && before.admitted != [] {
      assert before.requests[0] <= now - window;
    }
  }

  lemma {:induction false} SpacedCount(s: seq<int>, window: int, lo: int)
    requires window > 0 && Spaced(s, window)
    ensures CountIn(s, lo, lo + window) <= 1
  {
    if s != [] {
      var init := s[..|s| - 1];
      SpacedCount(init, window, lo);
      if lo <= s[|s| - 1] < lo + window {
        CountBounds(init, lo, lo + window);
      }
    }
  }

  /** A limit of one needs no clock: no half-open interval as long as the window holds two admissions. */
  lemma SingleLimitBound(window: int, nows: seq<int>, lo: int)
    requires window > 0
    ensures CountIn(RunFrom(window, 1, [], nows).admitted, lo, lo + window) <= 1
  {
    SingleRunIsSpaced(window, nows);
    SpacedCount(RunFrom(window, 1, [], nows).admitted, window, lo);
  }

  /** Two calls a window apart are both admitted. */
  lemma {:induction false} SingleLimitIsTight(window: int) returns (nows: seq<int>)
    requires window > 0
    ensures SkewAtMost(nows, 0)
    ensures CountIn(RunFrom(window, 1, [], nows).admitted, 0, window + 1) > 1
  {
    nows := [0] + [window];
    RunSnoc(window, 1, [], [], 0);
    assert [] + [0] == [0];
    assert RunFrom(window, 1, [], [0]) == Run([0], [0]);
    RunSnoc(window, 1, [], [0], window);
    assert Admit(window, 1, [0], window).allowed;
    CountBounds(nows, 0, window + 1);
  }

  // ---------- The longest interval that keeps the limit ----------

  /** How long an interval the limit holds for. */
  function SafeLength(window: int, maxRequests: int, skew: nat): int {
    if maxRequests == 1 then window else if skew < window then window - skew else 0
  }

  /** How many calls of a run are admitted in the half-open interval of that length that starts at `lo`. */
  function AdmittedIn(window: int, maxRequests: int, nows: seq<int>, lo: int, length: int): nat
    requires maxRequests > 0
  {
    CountIn(RunFrom(window, maxRequests, [], nows).admitted, lo, lo + length)
  }

  /** In every run with that skew, every half-open interval of that length holds at most the limit. */
  ghost predicate KeepsLimit(window: int, maxRequests: int, skew: nat, length: int)
    requires maxRequests > 0
  {
    forall nows, lo :: SkewAtMost(nows, skew) ==> AdmittedIn(window, maxRequests, nows, lo, length) <= maxRequests
  }

  lemma {:induction false} CountGrows(s: seq<int>, lo: int, hi: int, higher: int)
    requires hi <= higher
    ensures CountIn(s, lo, hi) <= CountIn(s, lo, higher)
  {
    if s != [] {
      CountGrows(s[..|s| - 1], lo, hi, higher);
    }
  }

  lemma {:induction false} SafeIntervalBound(window: int, maxRequests: int, nows: seq<int>, skew: nat, lo: int)
    requires window > 0 && maxRequests > 0 && SkewAtMost(nows, skew)
    ensures AdmittedIn(window, maxRequests, nows, lo, SafeLength(window, maxRequests, skew)) <= maxRequests
  {
    if maxRequests == 1 {
      SingleLimitBound(window, nows, lo);
    } else if skew < window {
      SkewedWindowBound(window, maxRequests, nows, skew, lo);
    } else {
      CountBounds(RunFrom(window, maxRequests, [], nows).admitted, lo, lo);
    }
  }

  lemma {:induction false} UnsafeInterval(window: int, maxRequests: int, skew: nat) returns (nows: seq<int>)
    requires window > 0 && maxRequests > 0
    ensures SkewAtMost(nows, skew)
    ensures AdmittedIn(window, maxRequests, nows, 0, SafeLength(window, maxRequests, skew) + 1) > maxRequests
  {
    if maxRequests == 1 {
      nows := SingleLimitIsTight(window);
    } else {
      nows := SkewedWindowBoundIsTight(window, maxRequests, if skew < window then skew else window);
    }
  }

  /** The exact bound for every limit and every skew: the limit holds for an interval exactly up to its safe length. */
  lemma {:induction false} SafeLengthIsExact(window: int, maxRequests: int, skew: nat, length: int)
    requires window > 0 && maxRequests > 0
    ensures KeepsLimit(window, maxRequests, skew, length) <==> length <= SafeLength(window, maxRequests, skew)
  {
    var safe := SafeLength(window, maxRequests, skew);
    if length <= safe {
      forall nows, lo | SkewAtMost(nows, skew)
        ensures AdmittedIn(window, maxRequests, nows, lo, length) <= maxRequests
      {
        SafeIntervalBound(window, maxRequests, nows, skew, lo);
        CountGrows(RunFrom(window, maxRequests, [], nows).admitted, lo, lo + length, lo + safe);
      }
    } else {
      var nows := UnsafeInterval(window, maxRequests, skew);
      CountGrows(RunFrom(window, maxRequests, [], nows).admitted, 0, safe + 1, length);
      assert AdmittedIn(window, maxRequests, nows, 0, length) > maxRequests;
    }
  }

  // ---------- Monotone time: the ring refines the full history ----------

  /** The instants after the cutoff, in order. */
  function Newer(s: seq<int>, cutoff: int): seq<int> {
    if s == [] then []
    else Newer(s[..|s| - 1], cutoff) + if s[|s| - 1] > cutoff then [s[|s| - 1]] else []
  }

  lemma {:induction false} NewerAppend(a: seq<int>, b: seq<int>, cutoff: int)
    ensures Newer(a + b, cutoff) == Newer(a, cutoff) + Newer(b, cutoff)
  {
    if b == [] {
      assert a + b == a;
    } else {
      assert (a + b)[..|a + b| - 1] == a + b[..|b| - 1];
      NewerAppend(a, b[..|b| - 1], cutoff);
    }
  }

  lemma {:induction false} NewerAllOrNone(s: seq<int>, cutoff: int)
    ensures (forall i :: 0 <= i < |s| ==> s[i] <= cutoff) ==> Newer(s, cutoff) == []
    ensures (forall i :: 0 <= i < |s| ==> s[i] > cutoff) ==> Newer(s, cutoff) == s
  {
    if s != [] {
      NewerAllOrNone(s[..|s| - 1], cutoff);
    }
  }

  ghost predicate Sorted(s: seq<int>) {
    forall i, j :: 0 <= i < j < |s| ==> s[i] <= s[j]
  }

  lemma {:induction false} MonotoneHistoryIsSorted(window: int, maxRequests: int, nows: seq<int>)
    requires maxRequests > 0 && Sorted(nows)
    ensures Sorted(RunFrom(window, maxRequests, [], nows).admitted)
  {
    if nows != [] {
      var last := |nows| - 1;
      MonotoneHistoryIsSorted(window, maxRequests, nows[..last]);
      var gone := RingIsSuffixOfHistory(window, maxRequests, nows[..last]);
      var before := RunFrom(window, maxRequests, [], nows[..last]).admitted;
      forall i | 0 <= i < |before|
        ensures before[i] <= nows[last]
      {
        assert before[i] in before;
      }
    }
  }

  /**
   When time does not run backwards, what a call sees in the ring is exactly the part of the full
   admission history newer than `now - window`, of which there are never more than `maxRequests`,
   and the call is denied exactly when there are `maxRequests` of them.
   */
  lemma MonotoneRingIsLiveHistory(window: int, maxRequests: int, nows: seq<int>, now: int)
    requires maxRequests > 0 && Sorted(nows) && forall t :: t in nows ==> t <= now
    ensures var r := RunFrom(window, maxRequests, [], nows);
            var live := Newer(r.admitted, now - window);
            && Prune(r.requests, now - window) == live
            && |live| <= maxRequests
            && (!Admit(window, maxRequests, r.requests, now).allowed <==> |live| == maxRequests)
  {
    MonotoneHistoryIsSorted(window, maxRequests, nows);
    var r := RunFrom(window, maxRequests, [], nows);
    var earlier := RingIsSuffixOfHistory(window, maxRequests, nows);
    LiveSuffix(window, maxRequests, nows, now, earlier, r.requests);
  }

  lemma LiveSuffix(window: int, maxRequests: int, nows: seq<int>, now: int, earlier: seq<int>, requests: seq<int>)
    requires maxRequests > 0 && |requests| <= maxRequests && Sorted(earlier + requests)
    requires forall t :: t in nows ==> t <= now
    requires forall t :: t in earlier ==> Expired(t, window, nows)
    ensures var live := Newer(earlier + requests, now - window);
            && Prune(requests, now - window) == live
            && |live| <= maxRequests
            && (!Admit(window, maxRequests, requests, now).allowed <==> |live| == maxRequests)
  {
    var gone := PruneExtendsGone(window, nows, now, earlier, requests);
    ExpiredIsOld(window, nows, now, gone);
    SortedSplit(gone, Prune(requests, now - window), now - window);
  }

  lemma ExpiredIsOld(window: int, nows: seq<int>, now: int, gone: seq<int>)
    requires forall t :: t in nows ==> t <= now
    requires forall t :: t in gone ==> Expired(t, window, nows + [now])
    ensures forall i :: 0 <= i < |gone| ==> gone[i] <= now - window
  {
    forall i | 0 <= i < |gone|
      ensures gone[i] <= now - window
    {
      assert gone[i] in gone;
      var u :| u in nows + [now] && gone[i] <= u - window;
      assert u <= now;
    }
  }

  lemma SortedSplit(gone: seq<int>, kept: seq<int>, cutoff: int)
    requires Sorted(gone + kept)
    requires forall i :: 0 <= i < |gone| ==> gone[i] <= cutoff
    requires kept != [] ==> kept[0] > cutoff
    ensures Newer(gone + kept, cutoff) == kept
  {
    forall i | 0 <= i < |kept|
      ensures kept[i] > cutoff
    {
      assert (gone + kept)[|gone|] == kept[0] && (gone + kept)[|gone| + i] == kept[i];
    }
    NewerAllOrNone(gone, cutoff);
    NewerAllOrNone(kept, cutoff);
    NewerAppend(gone, kept, cutoff);
    assert [] + kept == kept;
  }

  // ---------- The wait a denial asks for ----------

  /**
   The wait is tight: after a denial at `now`, every later call strictly before `now + retryAfter` is
   denied and leaves the ring alone, however many there are and in whatever order their instants come,
   and a call at `now + retryAfter` itself is then admitted.
   */
  lemma {:induction false} RetryAfterIsTight(window: int, maxRequests: int, requests: seq<int>,
                                            now: int, later: seq<int>)
    requires 0 < maxRequests && |requests| <= maxRequests
    requires !Admit(window, maxRequests, requests, now).allowed
    requires forall i :: 0 <= i < |later|
               ==> later[i] < now + Admit(window, maxRequests, requests, now).retryAfter
    ensures var v := Admit(window, maxRequests, requests, now);
            && RunFrom(window, maxRequests, v.requests, later) == Run(v.requests, [])
            && Admit(window, maxRequests, v.requests, now + v.retryAfter).allowed
  {
    var v := Admit(window, maxRequests, requests, now);
    if later != [] {
      var last := |later| - 1;
      RetryAfterIsTight(window, maxRequests, requests, now, later[..last]);
      FullRingDenies(window, maxRequests, v.requests, later[last]);
    }
  }

  /** A full ring whose oldest entry is still inside the window denies a call and stays as it is. */
  lemma FullRingDenies(window: int, maxRequests: int, requests: seq<int>, now: int)
    requires 0 < maxRequests == |requests| && requests[0] > now - window
    ensures var v := Admit(window, maxRequests, requests, now);
            !v.allowed && v.requests == requests
  {
  }

  /** The whole seconds of the Retry-After header (section 10.2.3 of RFC 9110). */
  function RetryAfterSeconds(retryAfter: int): int {
    var seconds := (retryAfter + SECOND - 1) / SECOND;
    if seconds < 1 then 1 else seconds
  }

  /** The header is the least number of whole seconds that covers the wait. */
  lemma {:induction false} RetryAfterSecondsIsLeast(retryAfter: int, seconds: int)
    requires retryAfter > 0
    ensures seconds >= RetryAfterSeconds(retryAfter) <==> seconds * SECOND >= retryAfter
  {
  }

  // ---------- The ring, updated in place ----------

  class RequestRing {
    const window: int
    const maxRequests: int
    const unlimited: bool
    const slots: array<int>  // the backing array, of capacity maxRequests
    var count: nat           // the length of the slice over it
    ghost var calls: seq<int>  // every limited call so far

    ghost predicate Valid()
      reads this, slots
    {
      if unlimited then
        maxRequests == 0 && count == 0 <= slots.Length
      else
        && 0 < maxRequests == slots.Length
        && count <= maxRequests
        && slots[..count] == RunFrom(window, maxRequests, [], calls).requests
    }

    ghost function Contents(): seq<int>
      requires count <= slots.Length
      reads this, slots
    {
      slots[..count]
    }

    constructor (window: int, maxRequests: int)
      ensures Valid() && fresh(slots) && Contents() == [] && calls == []
      ensures this.window == window && unlimited == (maxRequests <= 0)
      ensures this.maxRequests == if maxRequests <= 0 then 0 else maxRequests
    {
      this.window := window;
      this.maxRequests := if maxRequests <= 0 then 0 else maxRequests;
      this.unlimited := maxRequests <= 0;
      this.slots := new int[if maxRequests <= 0 then 0 else maxRequests];
      this.count := 0;
      this.calls := [];
    }

    /** Admits or denies a call at `now`; the append never outgrows the backing array. */
    method AllowAt(now: int) returns (allowed: bool, retryAfter: int)
      requires Valid()
      modifies this`count, this`calls, slots
      ensures Valid()
      ensures unlimited ==> allowed && retryAfter == 0 && Contents() == old(Contents()) && calls == old(calls)
      ensures !unlimited ==>
                && calls == old(calls) + [now]
                && Verdict(allowed, retryAfter, Contents()) == Admit(window, maxRequests, old(Contents()), now)
    {
      if unlimited {
        return true, 0;
      }
      RunSnoc(window, maxRequests, [], calls, now);
      calls := calls + [now];
      PruneLocked(now);
      if count >= maxRequests {
        retryAfter := slots[0] + window - now;
        if retryAfter < 0 {
          retryAfter := 0;
        }
        return false, retryAfter;
      }
      Append(now);
      return true, 0;
    }

    method Append(now: int)
      requires count < slots.Length
      modifies this`count, slots
      ensures count <= slots.Length && Contents() == old(Contents()) + [now]
    {
      slots[count] := now;
      count := count + 1;
    }

    method PruneLocked(now: int)
      requires count <= slots.Length
      modifies this`count, slots
      ensures count <= slots.Length
      ensures Contents() == Prune(old(Contents()), now - window)
    {
      var cutoff := now - window;
      ghost var was := slots[..count];
      var firstValid := 0;
      while firstValid < count
        invariant 0 <= firstValid <= count
        invariant FirstValid(was, cutoff) == FirstValid(was, cutoff, firstValid)
      {
        if slots[firstValid] > cutoff {
          break;
        }
        firstValid := firstValid + 1;
      }
      assert firstValid == FirstValid(was, cutoff);
      if firstValid == 0 {
        return;
      }
      forall i | 0 <= i < count - firstValid {
        slots[i] := slots[firstValid + i];
      }
      count := count - firstValid;
      assert slots[..count] == was[firstValid..];
    }
  }
}
