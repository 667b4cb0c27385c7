/** The list of endpoints a request may try: the balancer's pick, then the others in rotation. */
module Candidates {
  import opened Basics
  import opened Config

  /** Only the first endpoint of each key. */
  function FirstOfEachKey(models: seq<ModelConfig>): seq<ModelConfig> {
    if models == [] then []
    else
      var rest := FirstOfEachKey(models[..|models| - 1]);
      var last := models[|models| - 1];
      if UpstreamKey(last) in Keys(rest) then rest else rest + [last]
  }

  function Keys(models: seq<ModelConfig>): set<string> {
    set m | m in models :: UpstreamKey(m)
  }

  ghost predicate DistinctKeys(models: seq<ModelConfig>) {
    forall i, j :: 0 <= i < j < |models| ==> UpstreamKey(models[i]) != UpstreamKey(models[j])
  }

  /** The index after the first endpoint with the key, or 0 if there is none. */
  function After(models: seq<ModelConfig>, key: string, i: nat := 0): (start: nat)
    requires i <= |models|
    ensures models != [] ==> start < |models|
    decreases |models| - i
  {
    if i == |models| then 0
    else if UpstreamKey(models[i]) == key then (i + 1) % |models|
    else After(models, key, i + 1)
  }

  function Rotation(models: seq<ModelConfig>, start: nat): (r: seq<ModelConfig>)
    requires start <= |models|
    ensures |r| == |models|
  {
    models[start..] + models[..start]
  }

  function Candidates(all: seq<ModelConfig>, primary: ModelConfig): seq<ModelConfig> {
    FirstOfEachKey([primary] + Rotation(all, After(all, UpstreamKey(primary))))
  }

  lemma KeysAppend(models: seq<ModelConfig>, m: ModelConfig)
    ensures Keys(models + [m]) == Keys(models) + {UpstreamKey(m)}
  {
    assert forall x :: x in models + [m] <==> x in models || x == m;
  }

  /** What the list of first endpoints has to be. */
  ghost predicate IsFirstOfEachKey(models: seq<ModelConfig>, firsts: seq<ModelConfig>) {
    && DistinctKeys(firsts) && Keys(firsts) == Keys(models)
    && (models != [] ==> firsts != [] && firsts[0] == models[0])
    && forall m :: m in firsts ==> m in models
  }

  lemma FirstOfEachKeySnoc(models: seq<ModelConfig>, firsts: seq<ModelConfig>, m: ModelConfig)
    requires IsFirstOfEachKey(models, firsts)
    ensures IsFirstOfEachKey(models + [m], if UpstreamKey(m) in Keys(firsts) then firsts else firsts + [m])
  {
    KeysAppend(models, m);
    if UpstreamKey(m) !in Keys(firsts) {
      KeysAppend(firsts, m);
      NewKeyIsDistinct(firsts, m);
    }
  }

  lemma NewKeyIsDistinct(firsts: seq<ModelConfig>, m: ModelConfig)
    requires DistinctKeys(firsts) && UpstreamKey(m) !in Keys(firsts)
    ensures DistinctKeys(firsts + [m])
  {
    assert forall i :: 0 <= i < |firsts| ==> firsts[i] in firsts;
  }

  lemma {:induction false} FirstOfEachKeyGrows(models: seq<ModelConfig>, init: seq<ModelConfig>, m: ModelConfig)
    requires models == init + [m] && IsFirstOfEachKey(init, FirstOfEachKey(init))
    ensures IsFirstOfEachKey(models, FirstOfEachKey(models))
  {
    FirstOfEachKeySnoc(init, FirstOfEachKey(init), m);
    OneMore(init, m);
  }

  lemma {:induction false} FirstOfEachKeyIsDistinct(models: seq<ModelConfig>)
    ensures IsFirstOfEachKey(models, FirstOfEachKey(models))
  {
    if models != [] {
      var last := |models| - 1;
      FirstOfEachKeyIsDistinct(models[..last]);
      FirstOfEachKeyGrows(models, models[..last], models[last]);
    }
  }

  /** For any list and any pick: no key twice, every key of the list and of the pick, and the pick first. */
  lemma CandidatesCoverAllKeys(all: seq<ModelConfig>, primary: ModelConfig)
    ensures DistinctKeys(Candidates(all, primary))
    ensures Keys(Candidates(all, primary)) == Keys(all) + {UpstreamKey(primary)}
    ensures Candidates(all, primary) != [] && Candidates(all, primary)[0] == primary
  {
    var rotation := Rotation(all, After(all, UpstreamKey(primary)));
    FirstOfEachKeyIsDistinct([primary] + rotation);
    RotationMembers(all, After(all, UpstreamKey(primary)));
    assert forall x :: x in [primary] + rotation <==> x == primary || x in rotation;
  }

  lemma RotationMembers(models: seq<ModelConfig>, start: nat)
    requires start <= |models|
    ensures forall m :: m in Rotation(models, start) <==> m in models
  {
    assert models == models[..start] + models[start..];
  }

  lemma {:induction false} KeysCount(models: seq<ModelConfig>)
    requires DistinctKeys(models)
    ensures |Keys(models)| == |models|
  {
    if models != [] {
      var init, last := models[..|models| - 1], models[|models| - 1];
      KeysCount(init);
      assert models == init + [last];
      KeysAppend(init, last);
    }
  }

  lemma {:induction false} AfterFound(models: seq<ModelConfig>, p: nat, i: nat)
    requires i <= p < |models| && DistinctKeys(models)
    ensures After(models, UpstreamKey(models[p]), i) == (p + 1) % |models|
    decreases p - i
  {
    if i < p {
      AfterFound(models, p, i + 1);
    }
  }

  lemma {:induction false} AlreadyDistinct(models: seq<ModelConfig>)
    requires DistinctKeys(models)
    ensures FirstOfEachKey(models) == models
  {
    if models != [] {
      var init := models[..|models| - 1];
      AlreadyDistinct(init);
    }
  }

  lemma DropRepeatedLast(models: seq<ModelConfig>, m: ModelConfig)
    requires UpstreamKey(m) in Keys(FirstOfEachKey(models))
    ensures FirstOfEachKey(models + [m]) == FirstOfEachKey(models)
  {
    assert (models + [m])[..|models|] == models;
  }

  /** When no two endpoints share a key, the candidates are exactly the endpoint list rotated to the pick. */
  lemma {:induction false} CandidatesAreRotation(all: seq<ModelConfig>, p: nat)
    requires p < |all| && DistinctKeys(all)
    ensures Candidates(all, all[p]) == Rotation(all, p)
  {
    AfterFound(all, p, 0);
    RotationWraps(all, p, (p + 1) % |all|);
    RotationDistinct(all, p);
    AlreadyDistinct(Rotation(all, p));
    PickIsRepeated(all, p);
    DropRepeatedLast(Rotation(all, p), all[p]);
  }

  lemma RotationWraps(all: seq<ModelConfig>, p: nat, next: nat)
    requires p < |all| && next == if p + 1 < |all| then p + 1 else 0
    ensures [all[p]] + Rotation(all, next) == Rotation(all, p) + [all[p]]
  {
    var head, x, tail := all[..p], all[p], all[p + 1..];
    assert all[p..] == [x] + tail;
    Regroup(head, x, tail);
    assert Rotation(all, next) == tail + (head + [x]) by {
      if p + 1 < |all| {
        assert all[..p + 1] == head + [x];
      } else {
        assert all == head + [x];
      }
    }
  }

  lemma Regroup(head: seq<ModelConfig>, x: ModelConfig, tail: seq<ModelConfig>)
    ensures [x] + (tail + (head + [x])) == ([x] + tail) + head + [x]
  {
  }

  lemma PickIsRepeated(all: seq<ModelConfig>, p: nat)
    requires p < |all|
    requires FirstOfEachKey(Rotation(all, p)) == Rotation(all, p)
    ensures UpstreamKey(all[p]) in Keys(FirstOfEachKey(Rotation(all, p)))
  {
    assert Rotation(all, p)[0] == all[p];
  }

  lemma RotationDistinct(models: seq<ModelConfig>, p: nat)
    requires p <= |models| && DistinctKeys(models)
    ensures DistinctKeys(Rotation(models, p))
  {
    var r := Rotation(models, p);
    forall i, j | 0 <= i < j < |r|
      ensures UpstreamKey(r[i]) != UpstreamKey(r[j])
    {
      var a := if i < |models| - p then p + i else i - (|models| - p);
      var b := if j < |models| - p then p + j else j - (|models| - p);
      assert r[i] == models[a] && r[j] == models[b] && a != b;
    }
  }

  /** distinctRetryCandidates; `primary` is what the balancer's Next returned. */
  method DistinctRetryCandidates(all: seq<ModelConfig>, primary: Option<ModelConfig>) returns (out: seq<ModelConfig>)
    ensures out == if all == [] || primary.None? then [] else Candidates(all, primary.value)
  {
    if |all| == 0 || primary.None? {
      return [];
    }
    var start := FindStart(all, UpstreamKey(primary.value));
    out := [primary.value];
    var seen := {UpstreamKey(primary.value)};
    ghost var rotation := Rotation(all, start);
    OneMore([], primary.value);
    assert [] + [primary.value] == [primary.value] + rotation[..0];
    for offset := 0 to |all|
      invariant out == FirstOfEachKey([primary.value] + rotation[..offset])
      invariant seen == Keys(out)
    {
      RotationAt(all, start, offset);
      OneMoreOf(primary.value, rotation, offset);
      out, seen := AppendIfNew(out, seen, all[(start + offset) % |all|]);
    }
    assert rotation[..|all|] == rotation;
  }

  /** appendIfNew */
  method AppendIfNew(out: seq<ModelConfig>, seen: set<string>, model: ModelConfig)
    returns (more: seq<ModelConfig>, seenMore: set<string>)
    requires seen == Keys(out)
    ensures more == (if UpstreamKey(model) in Keys(out) then out else out + [model]) && seenMore == Keys(more)
  {
    if UpstreamKey(model) in seen {
      return out, seen;
    }
    KeysAppend(out, model);
    return out + [model], seen + {UpstreamKey(model)};
  }

  lemma {:induction false} OneMore(list: seq<ModelConfig>, m: ModelConfig)
    ensures var before := FirstOfEachKey(list);
            FirstOfEachKey(list + [m]) == if UpstreamKey(m) in Keys(before) then before else before + [m]
  {
    assert (list + [m])[..|list|] == list;
  }

  lemma {:induction false} OneMoreOf(first: ModelConfig, rest: seq<ModelConfig>, i: nat)
    requires i < |rest|
    ensures var before := FirstOfEachKey([first] + rest[..i]);
            FirstOfEachKey([first] + rest[..i + 1])
            == if UpstreamKey(rest[i]) in Keys(before) then before else before + [rest[i]]
  {
    OneMore([first] + rest[..i], rest[i]);
    assert [first] + rest[..i + 1] == [first] + rest[..i] + [rest[i]];
  }

  lemma Wraps(x: nat, n: nat)
    requires x < n + n
    ensures x % n == if x < n then x else x - n
  {
  }

  lemma {:induction false} RotationAt(models: seq<ModelConfig>, start: nat, offset: nat)
    requires start < |models| && offset < |models|
    ensures Rotation(models, start)[offset] == models[(start + offset) % |models|]
  {
    Wraps(start + offset, |models|);
  }

  method FindStart(all: seq<ModelConfig>, key: string) returns (start: nat)
    ensures start == After(all, key)
  {
    for i := 0 to |all|
      invariant After(all, key) == After(all, key, i)
    {
      if UpstreamKey(all[i]) == key {
        return (i + 1) % |all|;
      }
    }
    return 0;
  }
}
