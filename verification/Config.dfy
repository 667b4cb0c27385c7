/** The YAML model configuration, shared by the balancers, the proxy and the startup sync. */
module Config {
  import opened Basics
  import Text

  datatype ModelConfig = ModelConfig(
    name: string,
    kind: string,
    baseURL: string,
    apiKeySecretRef: string,
    weight: int,
    timeoutSeconds: int,
    retryTimes: int,
    skipTLSVerify: bool)

  /** `requestDefaults` is the marshalled JSON object, or None when it cannot be marshalled. */
  datatype ModelGroup = ModelGroup(
    name: string,
    strategy: string,
    models: seq<ModelConfig>,
    costPerInputToken: int,
    costPerOutputToken: int,
    requestDefaults: Option<string>)

  /** upstreamModelKey in the proxy, and modelKey in the balancer. */
  function UpstreamKey(m: ModelConfig): string {
    m.name + ['\0'] + m.baseURL
  }

  /** Two endpoints share a key exactly when they are the same, as long as their names hold no NUL. */
  lemma UpstreamKeyInjective(a: ModelConfig, b: ModelConfig)
    requires '\0' !in a.name && '\0' !in b.name
    ensures UpstreamKey(a) == UpstreamKey(b) <==> a.name == b.name && a.baseURL == b.baseURL
  {
    if UpstreamKey(a) == UpstreamKey(b) {
      SplitAtFirst(a.name, a.baseURL, b.name, b.baseURL, '\0');
    }
  }

  lemma SplitAtFirst(a: string, x: string, b: string, y: string, sep: char)
    requires sep !in a && sep !in b
    requires a + [sep] + x == b + [sep] + y
    ensures a == b && x == y
  {
    var s, t := a + [sep] + x, b + [sep] + y;
    assert s[|a|] == sep && t[|b|] == sep;
    assert a == s[..|a|] && b == t[..|b|];
    assert x == s[|a| + 1..] && y == t[|b| + 1..];
  }

  /** Some endpoint with another name or another URL has the same key. */
  ghost predicate SharesKey(m: ModelConfig) {
    exists other: ModelConfig :: UpstreamKey(other) == UpstreamKey(m) && Differs(m, other)
  }

  predicate Differs(a: ModelConfig, b: ModelConfig) {
    a.name != b.name || a.baseURL != b.baseURL
  }

  /** An endpoint shares its key with a different one exactly when a NUL is in its name or in its URL. */
  lemma KeyIsShared(m: ModelConfig)
    ensures SharesKey(m) <==> '\0' in m.name || '\0' in m.baseURL
  {
    if '\0' in m.name {
      var i :| 0 <= i < |m.name| && m.name[i] == '\0';
      var a, b := m.name[..i], m.name[i + 1..];
      assert m.name == a + ['\0'] + b;
      Reassociate(a, b, m.baseURL);
      assert UpstreamKey(m.(name := a, baseURL := b + ['\0'] + m.baseURL)) == UpstreamKey(m);
      assert Differs(m, m.(name := a, baseURL := b + ['\0'] + m.baseURL));
    } else if '\0' in m.baseURL {
      var i :| 0 <= i < |m.baseURL| && m.baseURL[i] == '\0';
      var a, b := m.baseURL[..i], m.baseURL[i + 1..];
      assert m.baseURL == a + ['\0'] + b;
      Reassociate(m.name, a, b);
      assert UpstreamKey(m.(name := m.name + ['\0'] + a, baseURL := b)) == UpstreamKey(m);
      assert Differs(m, m.(name := m.name + ['\0'] + a, baseURL := b));
    } else if SharesKey(m) {
      var other: ModelConfig :| UpstreamKey(other) == UpstreamKey(m) && Differs(m, other);
      OneNul(m.name, m.baseURL, other.name, other.baseURL);
    }
  }

  lemma Reassociate(a: string, b: string, c: string)
    ensures a + ['\0'] + (b + ['\0'] + c) == (a + ['\0'] + b) + ['\0'] + c
  {
  }

  /** A text with one NUL is cut there, whatever the two parts are taken to be. */
  lemma OneNul(a: string, x: string, b: string, y: string)
    requires '\0' !in a && '\0' !in x && a + ['\0'] + x == b + ['\0'] + y
    ensures a == b && x == y
  {
    var s := a + ['\0'] + x;
    assert forall i :: 0 <= i < |s| && i != |a| ==> s[i] == if i < |a| then a[i] else x[i - |a| - 1];
    assert s[|b|] == (b + ['\0'] + y)[|b|] == '\0';
    assert |a| == |b|;
    assert a == s[..|a|] && b == (b + ['\0'] + y)[..|b|];
    SplitAtFirst(a, x, b, y, '\0');
  }

  // ---------- Strategies ----------

  function Dashes(s: string): (t: string)
    ensures |t| == |s|
  {
    seq(|s|, i requires 0 <= i < |s| => if s[i] == '_' || s[i] == ' ' then '-' else s[i])
  }

  /** balancer.NormalizeStrategy */
  function NormalizeStrategy(strategy: string): (s: string)
    ensures s in {"round-robin", "weighted", "latency", "client-sticky"}
  {
    var n := Dashes(Text.Lower(Text.Trim(strategy)));
    if n in {"weighted", "weight"} then "weighted"
    else if n in {"latency", "latency-based", "least-latency", "fastest"} then "latency"
    else if n in {"client-sticky", "sticky", "client-sticky-hash", "sticky-hash"} then "client-sticky"
    else "round-robin"
  }

  /** A stored strategy names itself, so the sync and the balancer factory agree on it. */
  lemma NormalizeStrategyIdempotent(strategy: string)
    ensures NormalizeStrategy(NormalizeStrategy(strategy)) == NormalizeStrategy(strategy)
  {
    PlainStrategy(NormalizeStrategy(strategy));
  }

  /** How a configuration may spell a strategy: in any case, with `_` or a space for `-`, and with space around it. */
  predicate Spells(strategy: string, name: string) {
    var s := Text.Trim(strategy);
    && |s| == |name|
    && forall i :: 0 <= i < |s| ==>
         if name[i] == '-' then s[i] in {'-', '_', ' '}
         else s[i] == name[i] || ('a' <= name[i] <= 'z' && s[i] == name[i] - 'a' + 'A')
  }

  const WEIGHTED_NAMES: set<string> := {"weighted", "weight"}
  const LATENCY_NAMES: set<string> := {"latency", "latency-based", "least-latency", "fastest"}
  const STICKY_NAMES: set<string> := {"client-sticky", "sticky", "client-sticky-hash", "sticky-hash"}
  const ROTATION_NAMES: set<string> := {"", "round-robin", "roundrobin", "rr"}

  predicate Plain(name: string) {
    forall i :: 0 <= i < |name| ==> 'a' <= name[i] <= 'z' || name[i] == '-'
  }

  lemma NamesArePlain(name: string)
    requires name in WEIGHTED_NAMES + LATENCY_NAMES + STICKY_NAMES + ROTATION_NAMES
    ensures Plain(name)
  {
    if name in WEIGHTED_NAMES {
    } else if name in LATENCY_NAMES {
    } else if name in STICKY_NAMES {
    } else {
    }
  }

  lemma SpelledName(strategy: string, name: string)
    requires Spells(strategy, name) && Plain(name)
    ensures Dashes(Text.Lower(Text.Trim(strategy))) == name
  {
  }

  /** Every documented name gives its strategy, however it is spelled, and the names of the rotation the rotation. */
  lemma StrategyNames(strategy: string, name: string)
    requires Spells(strategy, name) && name in WEIGHTED_NAMES + LATENCY_NAMES + STICKY_NAMES + ROTATION_NAMES
    ensures name in WEIGHTED_NAMES ==> NormalizeStrategy(strategy) == "weighted"
    ensures name in LATENCY_NAMES ==> NormalizeStrategy(strategy) == "latency"
    ensures name in STICKY_NAMES ==> NormalizeStrategy(strategy) == "client-sticky"
    ensures name in ROTATION_NAMES ==> NormalizeStrategy(strategy) == "round-robin"
  {
    NamesArePlain(name);
    SpelledName(strategy, name);
    StrategyOfName(strategy, name);
  }

  lemma StrategyOfName(strategy: string, name: string)
    requires Dashes(Text.Lower(Text.Trim(strategy))) == name
    ensures name in WEIGHTED_NAMES ==> NormalizeStrategy(strategy) == "weighted"
    ensures name in LATENCY_NAMES ==> NormalizeStrategy(strategy) == "latency"
    ensures name in STICKY_NAMES ==> NormalizeStrategy(strategy) == "client-sticky"
    ensures name in ROTATION_NAMES ==> NormalizeStrategy(strategy) == "round-robin"
  {
  }

  /** A name that is none of those of the other strategies is rotation. */
  lemma OtherNamesRotate(strategy: string)
    ensures NormalizeStrategy(strategy) != "round-robin" ==>
              Dashes(Text.Lower(Text.Trim(strategy))) in WEIGHTED_NAMES + LATENCY_NAMES + STICKY_NAMES
  {
  }

  /** Lower-case letters and dashes are left alone. */
  lemma PlainStrategy(s: string)
    requires s != "" && forall i :: 0 <= i < |s| ==> 'a' <= s[i] <= 'z' || s[i] == '-'
    ensures Dashes(Text.Lower(Text.Trim(s))) == s
  {
    assert Text.TrimLeft(s) == s && Text.TrimRight(s) == s;
    assert Text.Lower(s) == s;
  }
}
