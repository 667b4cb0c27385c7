/**
 Endpoint selection: the rotation, the weighted tickets and the latency average. An endpoint is
 identified by its position in the balancer's list.
 */
module Balancer {
  import opened Basics
  import opened Config

  /** The ticket counter is a uint64. */
  const TICKETS: int := 0x1_0000_0000_0000_0000

  function NextTicket(index: int): int {
    (index + 1) % TICKETS
  }

  // ---------- Weighted tickets ----------

  ghost predicate NonNegative(weights: seq<int>) {
    forall i :: 0 <= i < |weights| ==> weights[i] >= 0
  }

  function Weights(models: seq<ModelConfig>): (w: seq<int>)
    ensures |w| == |models|
  {
    seq(|models|, i requires 0 <= i < |models| => models[i].weight)
  }

  /** The sum of the first `i` weights. */
  function Prefix(weights: seq<int>, i: nat): int
    requires i <= |weights|
  {
    if i == 0 then 0 else Prefix(weights, i - 1) + weights[i - 1]
  }

  function Total(weights: seq<int>): int {
    Prefix(weights, |weights|)
  }

  lemma {:induction false} PrefixMonotone(weights: seq<int>, i: nat, j: nat)
    requires NonNegative(weights) && i <= j <= |weights|
    ensures 0 <= Prefix(weights, i) <= Prefix(weights, j)
  {
    if i < j {
      PrefixMonotone(weights, i, j - 1);
    } else if i > 0 {
      PrefixMonotone(weights, i - 1, i - 1);
    }
  }

  /** The endpoint whose block of tickets holds `r`. */
  ghost predicate Owns(weights: seq<int>, i: nat, r: int) {
    i < |weights| && Prefix(weights, i) <= r < Prefix(weights, i + 1)
  }

  /** The first endpoint, from `i` on, whose running total exceeds `r`. */
  function Owner(weights: seq<int>, r: int, i: nat := 0): (k: nat)
    requires i < |weights| && r < Total(weights)
    ensures i <= k < |weights| && r < Prefix(weights, k + 1)
    ensures k > i ==> Prefix(weights, k) <= r
    decreases |weights| - i
  {
    if Prefix(weights, i + 1) > r || i + 1 == |weights| then i else Owner(weights, r, i + 1)
  }

  lemma OwnerOwns(weights: seq<int>, r: int, i: nat)
    requires NonNegative(weights) && 0 <= r < Total(weights) && i < |weights|
    ensures Owner(weights, r) == i <==> Owns(weights, i, r)
  {
    var k := Owner(weights, r);
    if Owns(weights, i, r) {
      if k < i {
        PrefixMonotone(weights, k + 1, i);
      } else if i < k {
        PrefixMonotone(weights, i + 1, k);
      }
    }
  }

  /** The endpoint a ticket chooses: by weight, or in rotation when no endpoint has any. */
  function Pick(weights: seq<int>, ticket: int): (k: nat)
    requires weights != []
    ensures k < |weights|
  {
    if Total(weights) <= 0 then ticket % |weights| else Owner(weights, ticket % Total(weights))
  }

  // ---------- What the code picks, in machine integers ----------

  /** An int64 sum that may have wrapped. */
  function Wrapped(x: int): int {
    (x + INT64_LIMIT) % TICKETS - INT64_LIMIT
  }

  /** Whether the running total after endpoint `i`, read as a uint64, exceeds `r`. */
  predicate RunsOver(weights: seq<int>, i: nat, r: int) {
    i < |weights| && Prefix(weights, i + 1) % TICKETS > r
  }

  /** The first such endpoint from `i` on, or the last one. */
  function FirstOver(weights: seq<int>, r: int, i: nat := 0): (k: nat)
    requires i < |weights|
    ensures i <= k < |weights|
    ensures forall j :: i <= j < k ==> !RunsOver(weights, j, r)
    ensures k + 1 < |weights| ==> RunsOver(weights, k, r)
    decreases |weights| - i
  {
    if RunsOver(weights, i, r) || i + 1 == |weights| then i else FirstOver(weights, r, i + 1)
  }

  /** The pick for any weights at all: sums wrap, and a negative running total counts as a huge one. */
  function MachinePick(weights: seq<int>, ticket: int): (k: nat)
    requires weights != []
    ensures k < |weights|
  {
    var total := Wrapped(Total(weights));
    if total <= 0 then ticket % |weights| else FirstOver(weights, ticket % total)
  }

  /** With non-negative weights whose sum is an int64, the pick is the owner of the ticket. */
  lemma {:induction false} MachinePickIsPick(weights: seq<int>, ticket: int)
    requires weights != [] && NonNegative(weights) && Total(weights) < INT64_LIMIT
    ensures MachinePick(weights, ticket) == Pick(weights, ticket)
  {
    PrefixMonotone(weights, |weights|, |weights|);
    assert Wrapped(Total(weights)) == Total(weights);
    if Total(weights) > 0 {
      FirstOverIsOwner(weights, ticket % Total(weights), 0);
    }
  }

  lemma {:induction false} FirstOverIsOwner(weights: seq<int>, r: int, i: nat)
    requires NonNegative(weights) && i < |weights| && r < Total(weights) < INT64_LIMIT
    ensures FirstOver(weights, r, i) == Owner(weights, r, i)
    decreases |weights| - i
  {
    PrefixMonotone(weights, i + 1, |weights|);
    assert Prefix(weights, i + 1) % TICKETS == Prefix(weights, i + 1);
    if Prefix(weights, i + 1) <= r && i + 1 < |weights| {
      FirstOverIsOwner(weights, r, i + 1);
    }
  }

  lemma WrappedKeepsResidue(x: int)
    ensures Wrapped(x) % TICKETS == x % TICKETS
    ensures -INT64_LIMIT <= Wrapped(x) < INT64_LIMIT
  {
    DivModDefinedInt(x + INT64_LIMIT, TICKETS);
    DivModShift(x, TICKETS, -((x + INT64_LIMIT) / TICKETS));
  }

  lemma WrappedSum(x: int, y: int)
    ensures Wrapped(Wrapped(x) + y) == Wrapped(x + y)
  {
    DivModDefinedInt(x + INT64_LIMIT, TICKETS);
    DivModShift(x + y + INT64_LIMIT, TICKETS, -((x + INT64_LIMIT) / TICKETS));
  }

  // ---------- Runs of calls ----------

  /** How many of the `n` calls after the counter stood at `index` choose endpoint `i`. */
  function Chosen(weights: seq<int>, i: nat, index: int, n: nat): nat
    requires weights != []
    decreases n
  {
    if n == 0 then 0
    else (if MachinePick(weights, NextTicket(index)) == i then 1 else 0) + Chosen(weights, i, NextTicket(index), n - 1)
  }

  /** The same for calls that pick the owner of their ticket, whatever the weights add up to. */
  function IdealChosen(weights: seq<int>, i: nat, index: int, n: nat): nat
    requires weights != []
    decreases n
  {
    if n == 0 then 0
    else (if Pick(weights, NextTicket(index)) == i then 1 else 0) + IdealChosen(weights, i, NextTicket(index), n - 1)
  }

  /** With non-negative weights whose sum is an int64, the code's calls are the ideal ones. */
  lemma {:induction false} ChosenIsIdeal(weights: seq<int>, i: nat, index: int, n: nat)
    requires weights != [] && NonNegative(weights) && Total(weights) < INT64_LIMIT
    ensures Chosen(weights, i, index, n) == IdealChosen(weights, i, index, n)
    decreases n
  {
    if n > 0 {
      MachinePickIsPick(weights, NextTicket(index));
      ChosenIsIdeal(weights, i, NextTicket(index), n - 1);
    }
  }

  // ---------- Fairness ----------

  lemma {:induction false} DivModUnique(a: int, d: int, q: int, r: int)
    requires d > 0 && a == q * d + r && 0 <= r < d
    ensures a / d == q && a % d == r
  {
    var k := a / d - q;
    assert k * d == r - a % d by {
      assert a == (a / d) * d + a % d;
      assert k * d == (a / d) * d - q * d;
    }
    SmallMultiple(k, d);
  }

  lemma SmallMultiple(k: int, d: int)
    requires d > 0 && -d < k * d < d
    ensures k == 0
  {
  }

  lemma {:induction false} DivModNext(a: int, d: int)
    requires d > 0
    ensures a % d + 1 < d ==> (a + 1) / d == a / d && (a + 1) % d == a % d + 1
    ensures a % d + 1 == d ==> (a + 1) / d == a / d + 1 && (a + 1) % d == 0
  {
    assert a == (a / d) * d + a % d;
    if a % d + 1 < d {
      DivModUnique(a + 1, d, a / d, a % d + 1);
    } else {
      assert (a / d + 1) * d == (a / d) * d + d;
      DivModUnique(a + 1, d, a / d + 1, 0);
    }
  }

  lemma {:induction false} DivModShift(a: int, d: int, q: int)
    requires d > 0
    ensures (a + q * d) / d == a / d + q && (a + q * d) % d == a % d
  {
    assert a == (a / d) * d + a % d;
    assert (a / d + q) * d == (a / d) * d + q * d;
    DivModUnique(a + q * d, d, a / d + q, a % d);
  }

  function Clamp(x: int, hi: int): int {
    if x < 0 then 0 else if x > hi then hi else x
  }

  /** How many of the tickets 0, 1, ..., t - 1 belong to endpoint `i`. */
  function Before(weights: seq<int>, i: nat, t: int): int
    requires i < |weights| && Total(weights) > 0
  {
    (t / Total(weights)) * weights[i] + Clamp(t % Total(weights) - Prefix(weights, i), weights[i])
  }

  lemma {:induction false} BeforeStep(weights: seq<int>, i: nat, t: int)
    requires NonNegative(weights) && i < |weights| && Total(weights) > 0
    ensures Before(weights, i, t + 1) - Before(weights, i, t) == if Pick(weights, t) == i then 1 else 0
  {
    var w := Total(weights);
    DivModNext(t, w);
    OwnerOwns(weights, t % w, i);
    PrefixMonotone(weights, i, i);
    PrefixMonotone(weights, i + 1, |weights|);
    if t % w + 1 == w {
      assert (t / w + 1) * weights[i] == (t / w) * weights[i] + weights[i];
    }
  }

  lemma {:induction false} BeforeShift(weights: seq<int>, i: nat, t: int, q: int)
    requires i < |weights| && Total(weights) > 0
    ensures Before(weights, i, t + q * Total(weights)) == Before(weights, i, t) + q * weights[i]
  {
    var w := Total(weights);
    DivModShift(t, w, q);
    assert (t / w + q) * weights[i] == (t / w) * weights[i] + q * weights[i];
  }

  /** Without wrap-around, the choices of the next `n` calls are counted by the tickets they draw. */
  lemma {:induction false} ChosenIsBefore(weights: seq<int>, i: nat, index: int, n: nat)
    requires NonNegative(weights) && i < |weights| && Total(weights) > 0
    requires -1 <= index && index + n < TICKETS
    ensures IdealChosen(weights, i, index, n) == Before(weights, i, index + 1 + n) - Before(weights, i, index + 1)
    decreases n
  {
    if n > 0 {
      assert NextTicket(index) == index + 1;
      BeforeStep(weights, i, index + 1);
      ChosenIsBefore(weights, i, index + 1, n - 1);
    }
  }

  lemma {:induction false} BeforeGrows(weights: seq<int>, i: nat, t: int, n: nat)
    requires NonNegative(weights) && i < |weights| && Total(weights) > 0
    ensures Before(weights, i, t) <= Before(weights, i, t + n) <= Before(weights, i, t) + n
  {
    if n > 0 {
      BeforeGrows(weights, i, t, n - 1);
      BeforeStep(weights, i, t + n - 1);
    }
  }

  lemma IdealBlockIsExact(weights: seq<int>, i: nat, index: nat)
    requires NonNegative(weights) && i < |weights| && Total(weights) > 0
    requires index + Total(weights) < TICKETS
    ensures IdealChosen(weights, i, index, Total(weights)) == weights[i]
  {
    ChosenIsBefore(weights, i, index, Total(weights));
    BeforeShift(weights, i, index + 1, 1);
  }

  /** Any block of as many consecutive calls as the total weight chooses each endpoint exactly its weight. */
  lemma {:induction false} WeightedBlockIsExact(weights: seq<int>, i: nat, index: nat)
    requires NonNegative(weights) && i < |weights| && 0 < Total(weights) < INT64_LIMIT
    requires index + Total(weights) < TICKETS
    ensures Chosen(weights, i, index, Total(weights)) == weights[i]
  {
    ChosenIsIdeal(weights, i, index, Total(weights));
    IdealBlockIsExact(weights, i, index);
  }

  lemma {:induction false} IdealFairness(weights: seq<int>, i: nat, index: nat, n: nat)
    requires NonNegative(weights) && i < |weights| && Total(weights) > 0
    requires index + n < TICKETS
    ensures var w := Total(weights);
            var whole := (n / w) * weights[i];
            whole <= IdealChosen(weights, i, index, n) <= whole + if weights[i] < n % w then weights[i] else n % w
  {
    DivModDefined(n, Total(weights));
    ChosenIsBefore(weights, i, index, n);
    FairBlocks(weights, i, index + 1, n % Total(weights), n / Total(weights));
  }

  /**
   Any `n` consecutive calls choose an endpoint as often as their whole blocks give it, plus at most its
   weight and at most the calls left over.
   */
  lemma {:induction false} WeightedFairness(weights: seq<int>, i: nat, index: nat, n: nat)
    requires NonNegative(weights) && i < |weights| && 0 < Total(weights) < INT64_LIMIT
    requires index + n < TICKETS
    ensures var w := Total(weights);
            var whole := (n / w) * weights[i];
            whole <= Chosen(weights, i, index, n) <= whole + if weights[i] < n % w then weights[i] else n % w
  {
    ChosenIsIdeal(weights, i, index, n);
    IdealFairness(weights, i, index, n);
  }

  lemma DivModDefinedInt(a: int, d: int)
    requires d > 0
    ensures 0 <= a % d < d && a == a % d + (a / d) * d
  {
  }

  lemma DivModDefined(a: nat, d: int)
    requires d > 0
    ensures a / d >= 0 && 0 <= a % d < d && a == a % d + (a / d) * d
  {
  }

  /** Among `r` tickets and `q` whole blocks after them, less than a block being left over. */
  lemma {:induction false} FairBlocks(weights: seq<int>, i: nat, t: int, r: nat, q: nat)
    requires NonNegative(weights) && i < |weights| && r < Total(weights)
    ensures var mine := Before(weights, i, t + (r + q * Total(weights))) - Before(weights, i, t);
            q * weights[i] <= mine <= q * weights[i] + if weights[i] < r then weights[i] else r
  {
    var w := Total(weights);
    BeforeShift(weights, i, t + r, q);
    BeforeShift(weights, i, t, 1);
    BeforeGrows(weights, i, t, r);
    BeforeGrows(weights, i, t + r, w - r);
    assert t + (r + q * w) == t + r + q * w;
  }

  // ---------- Rotation ----------

  function Ones(n: nat): (w: seq<int>)
    ensures |w| == n
  {
    seq(n, _ => 1)
  }

  lemma {:induction false} OnesPrefix(n: nat, i: nat)
    requires i <= n
    ensures Prefix(Ones(n), i) == i
  {
    if i > 0 {
      OnesPrefix(n, i - 1);
    }
  }

  lemma OnesPick(n: nat, ticket: int)
    requires n > 0
    ensures Pick(Ones(n), ticket) == ticket % n
  {
    OnesPrefix(n, n);
    var r := ticket % n;
    OnesPrefix(n, r);
    OnesPrefix(n, r + 1);
    OwnerOwns(Ones(n), r, r);
  }

  /** How many of the next `n` calls of a rotation over `size` endpoints choose endpoint `i`. */
  function Rotated(size: nat, i: nat, index: int, n: nat): nat
    requires size > 0
    decreases n
  {
    if n == 0 then 0
    else (if NextTicket(index) % size == i then 1 else 0) + Rotated(size, i, NextTicket(index), n - 1)
  }

  lemma {:induction false} RotatedIsChosen(size: nat, i: nat, index: int, n: nat)
    requires size > 0
    ensures Rotated(size, i, index, n) == IdealChosen(Ones(size), i, index, n)
    decreases n
  {
    if n > 0 {
      OnesPick(size, NextTicket(index));
      RotatedIsChosen(size, i, NextTicket(index), n - 1);
    }
  }

  /** Over any number of calls, two endpoints of a rotation are chosen equally often, give or take one. */
  lemma {:induction false} RotationIsFair(size: nat, i: nat, j: nat, index: nat, n: nat)
    requires i < size && j < size && index + n < TICKETS
    ensures Rotated(size, i, index, n) - Rotated(size, j, index, n) <= 1
  {
    RotatedIsChosen(size, i, index, n);
    RotatedIsChosen(size, j, index, n);
    OnesPrefix(size, size);
    IdealFairness(Ones(size), i, index, n);
    IdealFairness(Ones(size), j, index, n);
  }

  // ---------- Across the wrap of the counter ----------

  /** Every block of as many calls as the total weight is exact for endpoint `i`, from wherever the counter stands. */
  ghost predicate AlwaysExact(weights: seq<int>, i: nat)
    requires i < |weights| && Total(weights) > 0
  {
    forall index :: 0 <= index < TICKETS ==> Chosen(weights, i, index, Total(weights)) == weights[i]
  }

  ghost predicate IdealAlwaysExact(weights: seq<int>, i: nat)
    requires i < |weights| && Total(weights) > 0
  {
    forall index :: 0 <= index < TICKETS ==> IdealChosen(weights, i, index, Total(weights)) == weights[i]
  }

  function Mine(weights: seq<int>, i: nat, ticket: int): nat
    requires weights != []
  {
    if Pick(weights, ticket) == i then 1 else 0
  }

  lemma ModOfMod(a: int, n: int, d: int)
    requires d > 0
    ensures (a % d + n) % d == (a + n) % d
  {
    DivModDefinedInt(a, d);
    DivModShift(a + n, d, -(a / d));
  }

  /** The last of `n + 1` calls draws the ticket `n + 1` places on, round the wrap. */
  lemma {:induction false} ChosenSnoc(weights: seq<int>, i: nat, index: int, n: nat)
    requires weights != []
    ensures IdealChosen(weights, i, index, n + 1)
            == IdealChosen(weights, i, index, n) + Mine(weights, i, (index + n + 1) % TICKETS)
    decreases n
  {
    if n > 0 {
      ChosenSnoc(weights, i, NextTicket(index), n - 1);
      ModOfMod(index + 1, n, TICKETS);
    }
  }

  /** Moving a block on by one call drops its first ticket and takes up the next one. */
  lemma {:induction false} SlideBlock(weights: seq<int>, i: nat, index: int, n: nat)
    requires weights != []
    ensures IdealChosen(weights, i, NextTicket(index), n) + Mine(weights, i, NextTicket(index))
            == IdealChosen(weights, i, index, n) + Mine(weights, i, (NextTicket(index) + n) % TICKETS)
  {
    ChosenSnoc(weights, i, index, n);
    ModOfMod(index + 1, n, TICKETS);
  }

  lemma {:induction false} MineIsOwned(weights: seq<int>, i: nat, ticket: int)
    requires NonNegative(weights) && i < |weights| && Total(weights) > 0
    ensures Mine(weights, i, ticket) == 1 <==> Owns(weights, i, ticket % Total(weights))
  {
    OwnerOwns(weights, ticket % Total(weights), i);
  }

  lemma ModOnce(x: int, d: int)
    requires 0 <= x < d + d
    ensures x % d == if x < d then x else x - d
  {
    if x < d {
      DivModUnique(x, d, 0, x);
    } else {
      DivModUnique(x, d, 1, x - d);
    }
  }

  /** If every block is exact, the endpoint owns a ticket exactly when it owns the one a round later, round the wrap. */
  lemma {:induction false} ExactRepeats(weights: seq<int>, i: nat, t: int)
    requires i < |weights| && Total(weights) > 0 && IdealAlwaysExact(weights, i) && 0 <= t < TICKETS
    ensures Mine(weights, i, t) == Mine(weights, i, (t + Total(weights)) % TICKETS)
  {
    var index := if t == 0 then TICKETS - 1 else t - 1;
    assert NextTicket(index) == t;
    SlideBlock(weights, i, index, Total(weights));
  }

  lemma RotatedResidue(s: int, w: int)
    requires 0 <= s < w <= TICKETS
    ensures (TICKETS - w + s + w) % TICKETS == s && s % w == s
    ensures (TICKETS - w + s) % w == (s + TICKETS % w) % w
  {
    ModOnce(TICKETS + s, TICKETS);
    ModOnce(s, w);
    DivModShift(TICKETS - w + s, w, 1);
    ModOfMod(TICKETS, s, w);
  }

  /** Then its tickets within one round stay the same when rotated by 2^64. */
  lemma {:induction false} ExactRotates(weights: seq<int>, i: nat, s: int)
    requires NonNegative(weights) && i < |weights| && 0 <= s < Total(weights) <= TICKETS
    requires IdealAlwaysExact(weights, i)
    ensures Owns(weights, i, s) <==> Owns(weights, i, (s + TICKETS % Total(weights)) % Total(weights))
  {
    var w := Total(weights);
    RotatedResidue(s, w);
    ExactRepeats(weights, i, TICKETS - w + s);
    MineIsOwned(weights, i, s);
    MineIsOwned(weights, i, TICKETS - w + s);
  }

  /** A block that is neither empty nor the whole round does not stay the same when rotated. */
  lemma RotatedBlockDiffers(from: int, size: int, round: int, r: int) returns (s: int)
    requires 0 <= from && 0 < size < round && from + size <= round && 0 < r < round
    ensures 0 <= s < round
    ensures from <= s < from + size <==> !(from <= (s + r) % round < from + size)
  {
    var a := if from + r < round then from + r else from + r - round;
    s := if !(from <= a < from + size) then from else if from == 0 then round - 1 else from - 1;
    ModOnce(s + r, round);
  }

  lemma RoundRepeats(t: int, w: int)
    requires w > 0 && TICKETS % w == 0
    ensures ((t + w) % TICKETS) % w == t % w
  {
    DivModShift(t, w, 1);
    ResidueOfResidue(t + w, TICKETS, TICKETS / w, w);
  }

  lemma ResidueOfResidue(x: int, m: int, q: int, w: int)
    requires m > 0 && w > 0 && m == q * w
    ensures (x % m) % w == x % w
  {
    DivModDefinedInt(x, m);
    assert (x / m) * m == ((x / m) * q) * w;
    DivModShift(x, w, -((x / m) * q));
  }

  lemma {:induction false} MineByResidue(weights: seq<int>, i: nat, t: int, u: int)
    requires weights != [] && Total(weights) > 0 && t % Total(weights) == u % Total(weights)
    ensures Mine(weights, i, t) == Mine(weights, i, u)
  {
  }

  /** One step of the argument that, when a round divides 2^64, every block is as exact as the one before it. */
  lemma {:induction false} DividingRoundSlides(weights: seq<int>, i: nat, index: int)
    requires weights != [] && Total(weights) > 0 && TICKETS % Total(weights) == 0 && 0 <= index < TICKETS
    ensures IdealChosen(weights, i, index, Total(weights)) == IdealChosen(weights, i, index - 1, Total(weights))
  {
    assert NextTicket(index - 1) == index;
    SlideBlock(weights, i, index - 1, Total(weights));
    RoundRepeats(index, Total(weights));
    MineByResidue(weights, i, (index + Total(weights)) % TICKETS, index);
  }

  lemma {:induction false} DividingRoundIsExact(weights: seq<int>, i: nat, index: int)
    requires NonNegative(weights) && i < |weights| && 0 < Total(weights) <= TICKETS
    requires TICKETS % Total(weights) == 0 && -1 <= index < TICKETS
    ensures IdealChosen(weights, i, index, Total(weights)) == weights[i]
    decreases index + 1
  {
    if index == -1 {
      ChosenIsBefore(weights, i, -1, Total(weights));
      BeforeShift(weights, i, 0, 1);
    } else {
      DividingRoundIsExact(weights, i, index - 1);
      DividingRoundSlides(weights, i, index);
    }
  }

  /** An endpoint without weight is never chosen, and one with all the weight always. */
  lemma {:induction false} AllOrNothing(weights: seq<int>, i: nat, index: int, n: nat)
    requires NonNegative(weights) && i < |weights| && Total(weights) > 0
    ensures weights[i] == 0 ==> IdealChosen(weights, i, index, n) == 0
    ensures weights[i] == Total(weights) ==> IdealChosen(weights, i, index, n) == n
    decreases n
  {
    if n > 0 {
      MineIsOwned(weights, i, NextTicket(index));
      PrefixMonotone(weights, i, i);
      PrefixMonotone(weights, i + 1, |weights|);
      AllOrNothing(weights, i, NextTicket(index), n - 1);
    }
  }

  lemma {:induction false} IdealAcrossWrap(weights: seq<int>, i: nat)
    requires NonNegative(weights) && i < |weights| && 0 < Total(weights) <= TICKETS
    ensures IdealAlwaysExact(weights, i)
            <==> TICKETS % Total(weights) == 0 || weights[i] == 0 || weights[i] == Total(weights)
  {
    if TICKETS % Total(weights) == 0 {
      forall index | 0 <= index < TICKETS
        ensures IdealChosen(weights, i, index, Total(weights)) == weights[i]
      {
        DividingRoundIsExact(weights, i, index);
      }
    } else if weights[i] == 0 || weights[i] == Total(weights) {
      forall index | 0 <= index < TICKETS
        ensures IdealChosen(weights, i, index, Total(weights)) == weights[i]
      {
        AllOrNothing(weights, i, index, Total(weights));
      }
    } else if IdealAlwaysExact(weights, i) {
      ExactBlockIsWhole(weights, i);
    }
  }

  lemma {:induction false} AlwaysExactIsIdeal(weights: seq<int>, i: nat)
    requires NonNegative(weights) && i < |weights| && 0 < Total(weights) < INT64_LIMIT
    ensures AlwaysExact(weights, i) <==> IdealAlwaysExact(weights, i)
  {
    forall index: int
      ensures Chosen(weights, i, index, Total(weights)) == IdealChosen(weights, i, index, Total(weights))
    {
      ChosenIsIdeal(weights, i, index, Total(weights));
    }
  }

  /**
   Blocks are exact for an endpoint from every counter position, the wrap included, exactly when the total
   weight divides 2^64 or the endpoint has none or all of the weight.
   */
  lemma {:induction false} ExactAcrossWrap(weights: seq<int>, i: nat)
    requires NonNegative(weights) && i < |weights| && 0 < Total(weights) < INT64_LIMIT
    ensures AlwaysExact(weights, i)
            <==> TICKETS % Total(weights) == 0 || weights[i] == 0 || weights[i] == Total(weights)
  {
    AlwaysExactIsIdeal(weights, i);
    IdealAcrossWrap(weights, i);
  }

  lemma {:induction false} ExactBlockIsWhole(weights: seq<int>, i: nat)
    requires NonNegative(weights) && i < |weights| && 0 < Total(weights) <= TICKETS
    requires IdealAlwaysExact(weights, i) && TICKETS % Total(weights) != 0
    ensures weights[i] == 0 || weights[i] == Total(weights)
  {
    PrefixMonotone(weights, i, i);
    PrefixMonotone(weights, i + 1, |weights|);
    if 0 < weights[i] < Total(weights) {
      var s := RotatedBlockDiffers(Prefix(weights, i), weights[i], Total(weights), TICKETS % Total(weights));
      ExactRotates(weights, i, s);
    }
  }

  /** Endpoint `i` of a rotation has exactly one call in every round, the wrap included. */
  ghost predicate AlwaysOnce(size: nat, i: nat)
    requires size > 0
  {
    forall index :: 0 <= index < TICKETS ==> Rotated(size, i, index, size) == 1
  }

  lemma {:induction false} AlwaysOnceIsExact(size: nat, i: nat)
    requires i < size && Total(Ones(size)) == size
    ensures AlwaysOnce(size, i) <==> IdealAlwaysExact(Ones(size), i)
  {
    forall index: int
      ensures Rotated(size, i, index, size) == IdealChosen(Ones(size), i, index, size)
    {
      RotatedIsChosen(size, i, index, size);
    }
  }

  /** A rotation gives every endpoint one call in every round, the wrap included, exactly when its size divides 2^64. */
  lemma {:induction false} RotationAcrossWrap(size: nat, i: nat)
    requires i < size <= TICKETS
    ensures AlwaysOnce(size, i) <==> TICKETS % size == 0
  {
    OnesPrefix(size, size);
    AlwaysOnceIsExact(size, i);
    IdealAcrossWrap(Ones(size), i);
    if size == 1 {
      DivModUnique(TICKETS, 1, TICKETS, 0);
    }
  }

  lemma {:induction false} ThreeAcrossWrap()
    ensures Rotated(3, 0, TICKETS - 2, 3) == 2 && Rotated(3, 2, TICKETS - 2, 3) == 0
  {
    assert NextTicket(TICKETS - 2) == TICKETS - 1 && (TICKETS - 1) % 3 == 0;
    assert NextTicket(TICKETS - 1) == 0 && NextTicket(0) == 1;
    assert Rotated(3, 0, 1, 0) == 0 && Rotated(3, 2, 1, 0) == 0;
    assert Rotated(3, 0, 0, 1) == 0 && Rotated(3, 2, 0, 1) == 0;
    assert Rotated(3, 0, TICKETS - 1, 2) == 1 && Rotated(3, 2, TICKETS - 1, 2) == 0;
  }

  lemma {:induction false} OnesAreRotated(size: nat, i: nat, index: int, n: nat)
    requires 0 < size < INT64_LIMIT
    ensures Chosen(Ones(size), i, index, n) == Rotated(size, i, index, n)
  {
    OnesPrefix(size, size);
    ChosenIsIdeal(Ones(size), i, index, n);
    RotatedIsChosen(size, i, index, n);
  }

  /** Three does not divide 2^64: a block of three even endpoints drawn around the wrap. */
  lemma {:induction false} WrapBreaksBlocks()
    ensures Chosen(Ones(3), 0, TICKETS - 2, 3) == 2 && Chosen(Ones(3), 2, TICKETS - 2, 3) == 0
  {
    ThreeAcrossWrap();
    OnesAreRotated(3, 0, TICKETS - 2, 3);
    OnesAreRotated(3, 2, TICKETS - 2, 3);
  }

  // ---------- Sums that overflow ----------

  /**
   Once the sum of the weights reaches 2^63 it reads as negative, up to 2^64: then the weights no longer count
   and the endpoints are chosen in plain rotation.
   */
  lemma {:induction false} OverflowRotates(weights: seq<int>, i: nat, index: int, n: nat)
    requires weights != [] && INT64_LIMIT <= Total(weights) <= TICKETS
    ensures Chosen(weights, i, index, n) == Rotated(|weights|, i, index, n)
    decreases n
  {
    ModOnce(Total(weights) + INT64_LIMIT, TICKETS);
    if n > 0 {
      OverflowRotates(weights, i, NextTicket(index), n - 1);
    }
  }

  // ---------- Latency averages ----------

  /** A stored statistic; an endpoint without one has not been seen. */
  datatype Stat = Stat(latency: int, healthy: bool)

  datatype Observation = Observation(latency: int, success: bool)

  function ClampLatency(latency: int): int {
    if latency == 0 then 1 else latency
  }

  function Smooth(average: int, latency: int): int {
    (average * 7 + latency) / 8
  }

  function Updated(stat: Option<Stat>, o: Observation): Option<Stat> {
    if o.latency < 0 then stat
    else
      match stat
      case None => Some(Stat(ClampLatency(o.latency), o.success))
      case Some(s) => Some(Stat(Smooth(s.latency, ClampLatency(o.latency)), o.success))
  }

  function StatAfter(observations: seq<Observation>): Option<Stat> {
    if observations == [] then None
    else Updated(StatAfter(observations[..|observations| - 1]), observations[|observations| - 1])
  }

  /**
   The average stays between any bounds on the clamped observations, so it is positive, and every
   intermediate value fits in an int64 when the latencies are below 2^60 ns.
   */
  lemma {:induction false} LatencyStaysInRange(observations: seq<Observation>, lo: int, hi: int)
    requires forall i :: 0 <= i < |observations| && observations[i].latency >= 0 ==>
               lo <= ClampLatency(observations[i].latency) <= hi
    ensures var stat := StatAfter(observations);
            && (stat.Some? <==> exists i :: 0 <= i < |observations| && observations[i].latency >= 0)
            && (stat.Some? ==>
                  && lo <= stat.value.latency <= hi
                  && stat.value.latency > 0
                  && (hi < 0x1000_0000_0000_0000 ==> stat.value.latency * 7 + hi < INT64_LIMIT))
  {
    if observations != [] {
      var last := |observations| - 1;
      var earlier := observations[..last];
      LatencyStaysInRange(earlier, lo, hi);
      if i :| 0 <= i < |observations| && observations[i].latency >= 0 && i != last {
        assert earlier[i].latency >= 0;
      }
      if StatAfter(earlier).Some? {
        var i :| 0 <= i < |earlier| && earlier[i].latency >= 0;
        assert observations[i].latency >= 0;
      }
    }
  }

  /** The last observation that counts, those with a negative latency not counting. */
  ghost predicate LastSeen(observations: seq<Observation>, k: int) {
    && 0 <= k < |observations| && observations[k].latency >= 0
    && forall j :: k < j < |observations| ==> observations[j].latency < 0
  }

  /** There has been an observation that counts, and the last one was of a success. */
  ghost predicate LastSucceeded(observations: seq<Observation>) {
    exists k :: LastSeen(observations, k) && observations[k].success
  }

  /** An endpoint counts as healthy exactly when its last observation was of a success. */
  lemma {:induction false} HealthyIsLastSuccess(observations: seq<Observation>)
    ensures StatAfter(observations).Some? && StatAfter(observations).value.healthy <==> LastSucceeded(observations)
  {
    if observations != [] {
      var last := |observations| - 1;
      var earlier := observations[..last];
      HealthyIsLastSuccess(earlier);
      if observations[last].latency >= 0 {
        assert LastSeen(observations, last);
      } else {
        NegativeIsIgnored(earlier, observations[last]);
        assert observations == earlier + [observations[last]];
      }
    }
  }

  lemma NegativeIsIgnored(observations: seq<Observation>, o: Observation)
    requires o.latency < 0
    ensures LastSucceeded(observations + [o]) <==> LastSucceeded(observations)
  {
    var more := observations + [o];
    if LastSucceeded(observations) {
      var k :| LastSeen(observations, k) && observations[k].success;
      assert LastSeen(more, k) && more[k] == observations[k];
    }
    if LastSucceeded(more) {
      var k :| LastSeen(more, k) && more[k].success;
      assert forall j :: 0 <= j < |observations| ==> more[j] == observations[j];
      assert LastSeen(observations, k);
    }
  }

  // ---------- Observations of many endpoints ----------

  /** One call of Observe. */
  datatype Seen = Seen(model: ModelConfig, observation: Observation)

  /** The observations of the endpoints with one key, in order. */
  function ObservationsOf(history: seq<Seen>, key: string): seq<Observation> {
    if history == [] then []
    else
      var before, last := ObservationsOf(history[..|history| - 1], key), history[|history| - 1];
      if UpstreamKey(last.model) == key then before + [last.observation] else before
  }

  /** The calls for all other keys. */
  function Forgotten(history: seq<Seen>, key: string): seq<Seen> {
    if history == [] then []
    else
      var before, last := Forgotten(history[..|history| - 1], key), history[|history| - 1];
      if UpstreamKey(last.model) == key then before else before + [last]
  }

  lemma ObservationsAppend(history: seq<Seen>, seen: Seen, key: string)
    ensures ObservationsOf(history + [seen], key)
            == if UpstreamKey(seen.model) == key then ObservationsOf(history, key) + [seen.observation]
               else ObservationsOf(history, key)
  {
    assert (history + [seen])[..|history|] == history;
  }

  lemma {:induction false} ObservationsForgotten(history: seq<Seen>, forgotten: string, key: string)
    ensures ObservationsOf(Forgotten(history, forgotten), key)
            == if key == forgotten then [] else ObservationsOf(history, key)
  {
    if history != [] {
      var init, last := history[..|history| - 1], history[|history| - 1];
      ObservationsForgotten(init, forgotten, key);
      if UpstreamKey(last.model) != forgotten {
        ObservationsAppend(Forgotten(init, forgotten), last, key);
      }
    }
  }

  lemma StatAppend(observations: seq<Observation>, o: Observation)
    ensures StatAfter(observations + [o]) == Updated(StatAfter(observations), o)
  {
    assert (observations + [o])[..|observations|] == observations;
  }

  function StatOf(stats: map<string, Stat>, key: string): Option<Stat> {
    if key in stats then Some(stats[key]) else None
  }

  /** Every statistic is what the observations of its key make. */
  ghost predicate StatsOk(stats: map<string, Stat>, history: seq<Seen>) {
    forall key :: StatOf(stats, key) == StatAfter(ObservationsOf(history, key))
  }

  lemma {:induction false} ObserveKeepsStats(stats: map<string, Stat>, history: seq<Seen>, seen: Seen)
    requires StatsOk(stats, history)
    ensures var key := UpstreamKey(seen.model);
            var after := Updated(StatOf(stats, key), seen.observation);
            StatsOk(if seen.observation.latency < 0 then stats else stats[key := after.value], history + [seen])
  {
    var k := UpstreamKey(seen.model);
    var after := Updated(StatOf(stats, k), seen.observation);
    var updated := if seen.observation.latency < 0 then stats else stats[k := after.value];
    forall key
      ensures StatOf(updated, key) == StatAfter(ObservationsOf(history + [seen], key))
    {
      assert StatOf(stats, key) == StatAfter(ObservationsOf(history, key));
      ObservationsAppend(history, seen, key);
      StatAppend(ObservationsOf(history, key), seen.observation);
    }
  }

  lemma {:induction false} RemoveKeepsStats(stats: map<string, Stat>, history: seq<Seen>, removed: string)
    requires StatsOk(stats, history)
    ensures StatsOk(stats - {removed}, Forgotten(history, removed))
  {
    forall key
      ensures StatOf(stats - {removed}, key) == StatAfter(ObservationsOf(Forgotten(history, removed), key))
    {
      assert StatOf(stats, key) == StatAfter(ObservationsOf(history, key));
      ObservationsForgotten(history, removed, key);
    }
  }

  /** The average after `n` more observations of the same latency. */
  function Repeated(average: int, latency: int, n: nat): int
    decreases n
  {
    if n == 0 then average else Repeated(Smooth(average, latency), latency, n - 1)
  }

  /** Where repeated observations of one latency leave the average: at it from above, up to 7 short from below. */
  function Settled(average: int, latency: int): int {
    if average >= latency then latency
    else if average >= latency - 7 then average
    else latency - 7
  }

  lemma {:induction false} SmoothStep(x: int, l: int)
    ensures x > l ==> l <= Smooth(x, l) < x
    ensures l - 7 <= x <= l ==> Smooth(x, l) == x
    ensures x < l - 7 ==> x < Smooth(x, l) <= l - 7
  {
  }

  /** Repeating one observation settles the average, within as many steps as it was off by, and never overshoots. */
  lemma {:induction false} RepeatedLatencySettles(x: int, l: int, n: nat)
    ensures x >= l ==> l <= Repeated(x, l, n) <= x
    ensures x <= l ==> x <= Repeated(x, l, n) <= l
    ensures n >= (if x >= l then x - l else l - x) ==> Repeated(x, l, n) == Settled(x, l)
    decreases n
  {
    SmoothStep(x, l);
    if l - 7 <= x <= l {
      RepeatedAtRest(x, l, n);
    } else if n > 0 {
      RepeatedLatencySettles(Smooth(x, l), l, n - 1);
    }
  }

  lemma {:induction false} RepeatedAtRest(x: int, l: int, n: nat)
    requires l - 7 <= x <= l
    ensures Repeated(x, l, n) == x
    decreases n
  {
    SmoothStep(x, l);
    if n > 0 {
      RepeatedAtRest(x, l, n - 1);
    }
  }

  // ---------- The balancers ----------

  class RoundRobinBalancer {
    var models: seq<ModelConfig>
    var index: int

    constructor ()
      ensures models == [] && index == 0
    {
      models, index := [], 0;
    }

    method AddModel(model: ModelConfig)
      modifies this`models
      ensures models == old(models) + [model]
    {
      models := models + [model];
    }

    method Next() returns (pick: Option<nat>)
      modifies this`index
      ensures models == [] ==> pick == None && index == old(index)
      ensures models != [] ==> index == NextTicket(old(index)) && pick == Some(index % |models|)
    {
      if |models| == 0 {
        return None;
      }
      index := NextTicket(index);
      return Some(index % |models|);
    }
  }

  class WeightedBalancer {
    var models: seq<ModelConfig>
    var index: int

    constructor ()
      ensures models == [] && index == 0
    {
      models, index := [], 0;
    }

    method AddModel(model: ModelConfig)
      modifies this`models
      ensures models == old(models) + [model]
    {
      models := models + [model];
    }

    /** Whatever the weights, negative or overflowing, the return after the loop is never reached. */
    method Next() returns (pick: Option<nat>)
      modifies this`index
      ensures models == [] ==> pick == None && index == old(index)
      ensures models != [] ==> index == NextTicket(old(index)) && pick == Some(MachinePick(Weights(models), index))
    {
      if |models| == 0 {
        return None;
      }
      var totalWeight := 0;
      for i := 0 to |models|
        invariant index == old(index) && totalWeight == Wrapped(Prefix(Weights(models), i))
      {
        WrappedSum(Prefix(Weights(models), i), models[i].weight);
        totalWeight := Wrapped(totalWeight + models[i].weight);
      }
      index := NextTicket(index);
      if totalWeight <= 0 {
        return Some(index % |models|);
      }
      pick := FirstAbove(index % totalWeight);
    }

    /** The second loop. A total read as a uint64 is itself, so the last endpoint is chosen if no other is. */
    method FirstAbove(r: int) returns (pick: Option<nat>)
      requires models != [] && 0 <= r < Wrapped(Total(Weights(models)))
      ensures pick == Some(FirstOver(Weights(models), r))
    {
      ghost var weights := Weights(models);
      var currentWeight := 0;
      for i := 0 to |models|
        invariant currentWeight == Wrapped(Prefix(weights, i))
        invariant i < |models| ==> FirstOver(weights, r) == FirstOver(weights, r, i)
        invariant i == |models| ==> currentWeight <= r
      {
        WrappedSum(Prefix(weights, i), models[i].weight);
        WrappedKeepsResidue(Prefix(weights, i + 1));
        currentWeight := Wrapped(currentWeight + models[i].weight);
        if currentWeight % TICKETS > r {
          return Some(i);
        }
      }
      assert false;
    }
  }

  predicate FirstNamed(models: seq<ModelConfig>, name: string, i: int) {
    0 <= i < |models| && models[i].name == name && forall j :: 0 <= j < i ==> models[j].name != name
  }

  class LatencyBalancer {
    var models: seq<ModelConfig>
    var stats: map<string, Stat>
    var index: int
    ghost var history: seq<Seen>  // every observation of an endpoint that has not been removed since

    ghost predicate Valid()
      reads this
    {
      StatsOk(stats, history)
    }

    constructor ()
      ensures Valid()
      ensures models == [] && stats == map[] && index == 0 && history == []
    {
      models, stats, index, history := [], map[], 0, [];
    }

    /** The endpoint's last observation was of a success. */
    ghost predicate WorkedLast(i: int)
      reads this
    {
      0 <= i < |models| && LastSucceeded(ObservationsOf(history, UpstreamKey(models[i])))
    }

    lemma UsableIsWorkedLast()
      requires Valid()
      ensures forall i :: WorkedLast(i) <==> Usable(i)
    {
      forall i | 0 <= i < |models|
        ensures WorkedLast(i) <==> Usable(i)
      {
        var key := UpstreamKey(models[i]);
        assert StatOf(stats, key) == StatAfter(ObservationsOf(history, key));
        HealthyIsLastSuccess(ObservationsOf(history, key));
      }
    }

    method AddModel(model: ModelConfig)
      modifies this`models
      ensures models == old(models) + [model]
    {
      models := models + [model];
    }

    predicate Usable(i: int)
      reads this`models, this`stats
    {
      && 0 <= i < |models|
      && UpstreamKey(models[i]) in stats && stats[UpstreamKey(models[i])].healthy
    }

    function LatencyOf(i: int): int
      requires Usable(i)
      reads this`models, this`stats
    {
      stats[UpstreamKey(models[i])].latency
    }

    /**
     The first of the fastest endpoints whose last observation was of a success, or the next one in rotation when
     there is none.
     */
    method Next() returns (pick: Option<nat>)
      requires Valid()
      modifies this`index
      ensures Valid()
      ensures (exists i :: old(WorkedLast(i))) ==> index == old(index) && pick.Some? && WorkedLast(pick.value)
      ensures models != [] && !(exists i :: old(WorkedLast(i))) ==>
                index == NextTicket(old(index)) && pick == Some(index % |models|)
      ensures models == [] ==> pick == None && index == old(index)
      ensures (exists i :: old(Usable(i))) ==>
                && index == old(index) && pick.Some? && Usable(pick.value)
                && forall j :: Usable(j) ==>
                     && LatencyOf(pick.value) <= LatencyOf(j)
                     && (j < pick.value ==> LatencyOf(pick.value) < LatencyOf(j))
      ensures models != [] && !(exists i :: old(Usable(i))) ==>
                index == NextTicket(old(index)) && pick == Some(index % |models|)
    {
      UsableIsWorkedLast();
      if |models| == 0 {
        return None;
      }
      var selected: Option<nat> := None;
      var selectedLatency := 0;
      for i := 0 to |models|
        invariant selected == None ==> forall j :: j < i ==> !Usable(j)
        invariant selected.Some? ==>
            && selected.value < i && Usable(selected.value) && selectedLatency == LatencyOf(selected.value)
            && forall j :: j < i && Usable(j) ==>
                 && selectedLatency <= LatencyOf(j)
                 && (j < selected.value ==> selectedLatency < LatencyOf(j))
      {
        var key := UpstreamKey(models[i]);
        if key !in stats || !stats[key].healthy {
          continue;
        }
        assert Usable(i);
        if selected == None || stats[key].latency < selectedLatency {
          selected, selectedLatency := Some(i), stats[key].latency;
        }
      }
      if selected.Some? {
        return selected;
      }
      index := NextTicket(index);
      return Some(index % |models|);
    }

    method Observe(model: Option<ModelConfig>, latency: int, success: bool)
      requires Valid()
      modifies this`stats, this`history
      ensures Valid()
      ensures history == if model.None? then old(history)
                         else old(history) + [Seen(model.value, Observation(latency, success))]
      ensures model.None? || latency < 0 ==> stats == old(stats)
      ensures model.Some? && latency >= 0 ==>
                var key := UpstreamKey(model.value);
                var before := if key in old(stats) then Some(old(stats)[key]) else None;
                stats == old(stats)[key := Updated(before, Observation(latency, success)).value]
    {
      if model.None? {
        return;
      }
      ObserveKeepsStats(stats, history, Seen(model.value, Observation(latency, success)));
      history := history + [Seen(model.value, Observation(latency, success))];
      if latency < 0 {
        return;
      }
      var clamped := if latency == 0 then 1 else latency;
      var key := UpstreamKey(model.value);
      var average := if key in stats then (stats[key].latency * 7 + clamped) / 8 else clamped;
      stats := stats[key := Stat(average, success)];
    }

    /** Removes the first endpoint of that name, and its statistic with it. */
    method RemoveModel(modelName: string)
      requires Valid()
      modifies this`models, this`stats, this`history
      ensures Valid()
      ensures (forall m :: m in old(models) ==> m.name != modelName) ==> models == old(models) && stats == old(stats)
      ensures forall i :: FirstNamed(old(models), modelName, i) ==>
                && models == old(models)[..i] + old(models)[i + 1..]
                && stats == old(stats) - {UpstreamKey(old(models)[i])}
                && history == Forgotten(old(history), UpstreamKey(old(models)[i]))
    {
      for i := 0 to |models|
        invariant models == old(models) && stats == old(stats) && history == old(history)
        invariant forall j :: 0 <= j < i ==> models[j].name != modelName
      {
        if models[i].name == modelName {
          RemoveKeepsStats(stats, history, UpstreamKey(models[i]));
          history := Forgotten(history, UpstreamKey(models[i]));
          stats := stats - {UpstreamKey(models[i])};
          models := models[..i] + models[i + 1..];
          return;
        }
      }
    }
  }
}
