/**
 Client-sticky selection: which string identifies a client, and that the endpoint it is given depends on
 nothing but that string. The hash is a parameter.
 */
module Sticky {
  import opened Basics
  import opened Config
  import Text

  // ---------- Decimal numbers ----------

  function Digit(d: int): char
    requires 0 <= d < 10
  {
    '0' + d as char
  }

  /** The decimal notation of a positive number, without leading zeroes; empty for zero. */
  function Decimal(n: nat): string {
    if n == 0 then "" else Decimal(n / 10) + [Digit(n % 10)]
  }

  predicate IsDecimal(s: string) {
    forall i :: 0 <= i < |s| ==> '0' <= s[i] <= '9'
  }

  function Undecimal(s: string): int
    requires IsDecimal(s)
  {
    if s == "" then 0 else 10 * Undecimal(s[..|s| - 1]) + (s[|s| - 1] as int - '0' as int)
  }

  function PowerOfTen(k: nat): nat {
    if k == 0 then 1 else 10 * PowerOfTen(k - 1)
  }

  /** Reading a number back gives the number. */
  lemma {:induction false} DecimalDecodes(n: nat)
    ensures IsDecimal(Decimal(n)) && Undecimal(Decimal(n)) == n
    ensures n > 0 ==> Decimal(n) != "" && Decimal(n)[0] != '0'
  {
    if n > 0 {
      DecimalDecodes(n / 10);
      assert Decimal(n)[..|Decimal(n)| - 1] == Decimal(n / 10);
    }
  }

  /** A number below the k-th power of ten has at most k digits. */
  lemma {:induction false} DecimalLength(n: nat, k: nat)
    requires n < PowerOfTen(k)
    ensures |Decimal(n)| <= k
  {
    if n > 0 {
      DecimalLength(n / 10, k - 1);
    }
  }

  lemma Int64HasNineteenDigits(n: nat)
    requires n < INT64_LIMIT
    ensures |Decimal(n)| <= 19
  {
    assert PowerOfTen(4) == 10000;
    assert PowerOfTen(8) == 10000 * PowerOfTen(4) by {
      assert PowerOfTen(5) == 10 * PowerOfTen(4);
      assert PowerOfTen(6) == 10 * PowerOfTen(5);
      assert PowerOfTen(7) == 10 * PowerOfTen(6);
    }
    assert PowerOfTen(9) == 10 * PowerOfTen(8);
    assert PowerOfTen(10) == 10 * PowerOfTen(9);
    assert PowerOfTen(11) == 10 * PowerOfTen(10);
    assert PowerOfTen(12) == 10 * PowerOfTen(11);
    assert PowerOfTen(13) == 10 * PowerOfTen(12);
    assert PowerOfTen(14) == 10 * PowerOfTen(13);
    assert PowerOfTen(15) == 10 * PowerOfTen(14);
    assert PowerOfTen(16) == 10 * PowerOfTen(15);
    assert PowerOfTen(17) == 10 * PowerOfTen(16);
    assert PowerOfTen(18) == 10 * PowerOfTen(17);
    assert PowerOfTen(19) == 10 * PowerOfTen(18);
    DecimalLength(n, 19);
  }

  /** What intString makes of any int: only positive ones and zero are written out. */
  function IntText(value: int): string {
    if value == 0 then "0" else if value < 0 then "" else Decimal(value)
  }

  /** intString: fills a 20-byte buffer from its end, which is enough for every int64. */
  method IntString(value: int) returns (s: string)
    requires -INT64_LIMIT <= value < INT64_LIMIT
    ensures s == IntText(value)
  {
    if value == 0 {
      return "0";
    }
    var buf := new char[20];
    var i := buf.Length;
    var v := value;
    if value > 0 {
      Int64HasNineteenDigits(value);
    }
    while v > 0
      invariant 0 <= i <= buf.Length && (value > 0 ==> v >= 0) && (value < 0 ==> v == value)
      invariant value < 0 ==> i == buf.Length
      invariant value > 0 ==> Decimal(v) + buf[i..] == Decimal(value)
    {
      ghost var tail := buf[i..];
      assert |Decimal(v)| + |tail| == |Decimal(value)| <= 19;
      i := i - 1;
      buf[i] := Digit(v % 10);
      assert buf[i..] == [Digit(v % 10)] + tail;
      assert Decimal(v / 10) + ([Digit(v % 10)] + tail) == Decimal(v) + tail;
      v := v / 10;
    }
    s := buf[i..];
  }

  /** Two ints are written alike exactly when they are equal or both negative. */
  lemma IntTextIsInjective(a: int, b: int)
    ensures IntText(a) == IntText(b) <==> a == b || (a < 0 && b < 0)
  {
    if a > 0 {
      DecimalDecodes(a);
    }
    if b > 0 {
      DecimalDecodes(b);
    }
  }

  // ---------- Headers ----------

  type Headers = map<string, string>

  predicate Matches(key: string, name: string) {
    Text.EqualFold(key, name)
  }

  ghost predicate HasHeader(headers: Headers, name: string) {
    exists key :: key in headers && Matches(key, name)
  }

  /** What headerValue may return, whatever order the map is walked in. */
  ghost predicate MayRead(headers: Headers, name: string, value: string) {
    if HasHeader(headers, name) then
      exists key :: key in headers && Matches(key, name) && value == Text.Trim(headers[key])
    else value == ""
  }

  /** Headers equal ignoring case carry the same trimmed value. */
  ghost predicate Unambiguous(headers: Headers, name: string) {
    forall a, b :: a in headers && b in headers && Matches(a, name) && Matches(b, name) ==>
      Text.Trim(headers[a]) == Text.Trim(headers[b])
  }

  /** The walk order makes no difference exactly when no two matching headers disagree. */
  lemma ReadIsDetermined(headers: Headers, name: string)
    ensures (forall v, w :: MayRead(headers, name, v) && MayRead(headers, name, w) ==> v == w)
            <==> Unambiguous(headers, name)
  {
    if forall v, w :: MayRead(headers, name, v) && MayRead(headers, name, w) ==> v == w {
      forall a, b | a in headers && b in headers && Matches(a, name) && Matches(b, name)
        ensures Text.Trim(headers[a]) == Text.Trim(headers[b])
      {
        assert HasHeader(headers, name);
        assert MayRead(headers, name, Text.Trim(headers[a]));
        assert MayRead(headers, name, Text.Trim(headers[b]));
      }
    }
  }

  /** headerValue, with the map walked in an arbitrary order. */
  method HeaderValue(headers: Headers, name: string) returns (value: string)
    ensures MayRead(headers, name, value)
  {
    var todo := headers.Keys;
    while todo != {}
      invariant todo <= headers.Keys
      invariant forall key :: key in headers && Matches(key, name) ==> key in todo
      decreases todo
    {
      var key :| key in todo;
      todo := todo - {key};
      if Text.EqualFold(key, name) {
        return Text.Trim(headers[key]);
      }
    }
    return "";
  }

  // ---------- Who the client is ----------

  datatype Context = Context(
    clientKey: string,
    keyId: int,
    teamId: int,
    organizationId: int,
    modelGroup: string,
    path: string,
    clientIP: string,
    headers: Headers)

  const STICKY_HEADERS: seq<string> := ["x-janus-client", "x-client-id", "x-user-id", "x-team-id", "x-forwarded-user"]

  ghost predicate ClearHeaders(headers: Headers) {
    forall name :: name in STICKY_HEADERS ==> Unambiguous(headers, name)
  }

  /** The value of a header, which is unique in unambiguous headers. */
  ghost function HeaderOf(headers: Headers, name: string): (value: string)
    ensures MayRead(headers, name, value)
  {
    if HasHeader(headers, name) then
      var key :| key in headers && Matches(key, name);
      Text.Trim(headers[key])
    else ""
  }

  /** The first of the sticky headers that is set, or else the address, or else the route. */
  ghost function HeaderKey(c: Context, i: nat := 0): string
    requires i <= |STICKY_HEADERS|
    decreases |STICKY_HEADERS| - i
  {
    if i == |STICKY_HEADERS| then
      if c.clientIP != "" then "ip:" + c.clientIP else c.modelGroup + ":" + c.path
    else
      var value := HeaderOf(c.headers, STICKY_HEADERS[i]);
      if value != "" then STICKY_HEADERS[i] + ":" + value else HeaderKey(c, i + 1)
  }

  ghost function StickyKeyOf(c: Context): string {
    if c.clientKey != "" then c.clientKey
    else if c.keyId > 0 then "key:" + IntText(c.keyId)
    else if c.teamId > 0 then "team:" + IntText(c.teamId)
    else if c.organizationId > 0 then "org:" + IntText(c.organizationId)
    else HeaderKey(c)
  }

  predicate Int64(n: int) {
    -INT64_LIMIT <= n < INT64_LIMIT
  }

  /** stickyKey: a function of the context, although headerValue walks a map. */
  method StickyKey(c: Context) returns (key: string)
    requires Int64(c.keyId) && Int64(c.teamId) && Int64(c.organizationId)
    ensures ClearHeaders(c.headers) ==> key == StickyKeyOf(c)
  {
    if c.clientKey != "" {
      return c.clientKey;
    }
    if c.keyId > 0 {
      var id := IntString(c.keyId);
      return "key:" + id;
    }
    if c.teamId > 0 {
      var id := IntString(c.teamId);
      return "team:" + id;
    }
    if c.organizationId > 0 {
      var id := IntString(c.organizationId);
      return "org:" + id;
    }
    for i := 0 to |STICKY_HEADERS|
      invariant ClearHeaders(c.headers) ==> HeaderKey(c) == HeaderKey(c, i)
    {
      var value := HeaderValue(c.headers, STICKY_HEADERS[i]);
      ReadIsDetermined(c.headers, STICKY_HEADERS[i]);
      assert ClearHeaders(c.headers) ==> value == HeaderOf(c.headers, STICKY_HEADERS[i]);
      if value != "" {
        return STICKY_HEADERS[i] + ":" + value;
      }
    }
    if c.clientIP != "" {
      return "ip:" + c.clientIP;
    }
    return c.modelGroup + ":" + c.path;
  }

  // ---------- The pick ----------

  /** ClientStickyBalancer.Next, where `hash` is the 32-bit hash of a string. */
  method Next(models: seq<ModelConfig>, c: Context, hash: string -> nat) returns (pick: Option<nat>)
    requires Int64(c.keyId) && Int64(c.teamId) && Int64(c.organizationId)
    ensures pick.None? <==> models == []
    ensures pick.Some? ==> pick.value < |models|
    ensures pick.Some? && ClearHeaders(c.headers) ==> pick.value == hash(StickyKeyOf(c)) % |models|
  {
    if models == [] {
      return None;
    }
    var key := StickyKey(c);
    return Some(hash(key) % |models|);
  }

  // ---------- The contexts the proxy builds ----------

  const PROXY_HEADERS: seq<string> := ["X-Janus-Client", "X-Client-ID", "X-User-ID", "X-Team-ID", "X-Forwarded-User"]

  /** The headers of buildSelectionContext: one entry for each of five names, empty if the request lacks it. */
  function ProxyHeaders(get: string -> string): Headers {
    map name | name in PROXY_HEADERS :: get(name)
  }

  lemma SameLengthNames(i: nat, j: nat)
    requires i < |PROXY_HEADERS| && j < |STICKY_HEADERS|
    ensures Matches(PROXY_HEADERS[i], STICKY_HEADERS[j]) <==> i == j
  {
    var a, b := PROXY_HEADERS[i], STICKY_HEADERS[j];
    if i != j && |a| == |b| {
      // X-User-ID and X-Team-ID
      assert a[2] != b[2] && Text.FoldChar(a[2]) != Text.FoldChar(b[2]);
    }
  }

  /** The proxy's own headers are never ambiguous, whatever a client sends. */
  lemma ProxyHeadersAreClear(get: string -> string)
    ensures ClearHeaders(ProxyHeaders(get))
    ensures forall j :: 0 <= j < |STICKY_HEADERS| ==>
              HeaderOf(ProxyHeaders(get), STICKY_HEADERS[j]) == Text.Trim(get(PROXY_HEADERS[j]))
  {
    var headers := ProxyHeaders(get);
    forall j | 0 <= j < |STICKY_HEADERS|
      ensures Unambiguous(headers, STICKY_HEADERS[j])
      ensures HeaderOf(headers, STICKY_HEADERS[j]) == Text.Trim(get(PROXY_HEADERS[j]))
    {
      OneProxyHeader(get, j);
    }
  }

  lemma OneProxyHeader(get: string -> string, j: nat)
    requires j < |STICKY_HEADERS|
    ensures Unambiguous(ProxyHeaders(get), STICKY_HEADERS[j])
    ensures HeaderOf(ProxyHeaders(get), STICKY_HEADERS[j]) == Text.Trim(get(PROXY_HEADERS[j]))
  {
    var headers := ProxyHeaders(get);
    forall key | key in headers && Matches(key, STICKY_HEADERS[j])
      ensures key == PROXY_HEADERS[j]
    {
      var i :| 0 <= i < |PROXY_HEADERS| && PROXY_HEADERS[i] == key;
      SameLengthNames(i, j);
    }
    SameLengthNames(j, j);
    assert PROXY_HEADERS[j] in headers;
  }

  /** strings.ToLower turns the proxy's names into the balancer's. */
  lemma LowerNames(i: nat)
    requires i < |PROXY_HEADERS|
    ensures Text.Lower(PROXY_HEADERS[i]) == STICKY_HEADERS[i]
  {
  }

  /** firstStableHeader */
  function FirstStableHeader(get: string -> string, i: nat := 0): string
    requires i <= |PROXY_HEADERS|
    decreases |PROXY_HEADERS| - i
  {
    if i == |PROXY_HEADERS| then ""
    else
      var value := Text.Trim(get(PROXY_HEADERS[i]));
      if value != "" then Text.Lower(PROXY_HEADERS[i]) + ":" + value else FirstStableHeader(get, i + 1)
  }

  datatype AuthKey = AuthKey(keyId: int, keyContent: string, keyName: string, teamId: int, organizationId: int)

  /** The client key buildSelectionContext gives an authenticated request. */
  function AuthClientKey(k: AuthKey): string {
    if k.keyId > 0 then "key:" + IntText(k.keyId)
    else if Text.Trim(k.keyContent) != "" then "key:" + Text.Trim(k.keyContent)
    else if Text.Trim(k.keyName) != "" then "key-name:" + Text.Trim(k.keyName)
    else if k.teamId > 0 then "team:" + IntText(k.teamId)
    else if k.organizationId > 0 then "org:" + IntText(k.organizationId)
    else ""
  }

  /** buildSelectionContext; `get` is the request's header lookup. */
  function BuildContext(group: string, path: string, clientIP: string, get: string -> string, key: Option<AuthKey>)
    : Context
  {
    match key
    case Some(k) =>
      Context(AuthClientKey(k), k.keyId, k.teamId, k.organizationId, group, path, clientIP, ProxyHeaders(get))
    case None =>
      var header := FirstStableHeader(get);
      Context(if header != "" then header else if clientIP != "" then "ip:" + clientIP else "",
              0, 0, 0, group, path, clientIP, ProxyHeaders(get))
  }

  lemma {:induction false} HeaderKeyIsFirstStable(c: Context, get: string -> string, i: nat)
    requires i <= |STICKY_HEADERS| && c.headers == ProxyHeaders(get)
    ensures HeaderKey(c, i)
            == if FirstStableHeader(get, i) != "" then FirstStableHeader(get, i)
               else if c.clientIP != "" then "ip:" + c.clientIP
               else c.modelGroup + ":" + c.path
    decreases |STICKY_HEADERS| - i
  {
    if i < |STICKY_HEADERS| {
      OneProxyHeader(get, i);
      LowerNames(i);
      HeaderKeyIsFirstStable(c, get, i + 1);
    }
  }

  /** An authenticated request that the proxy knows by its key's content or name. */
  predicate KnownByKeyText(key: Option<AuthKey>) {
    && key.Some? && key.value.keyId <= 0
    && (Text.Trim(key.value.keyContent) != "" || Text.Trim(key.value.keyName) != "")
  }

  /** A request with no id, no sticky header and no address, so that nothing but its route is left to go by. */
  predicate KnownByRouteOnly(k: AuthKey, clientIP: string, get: string -> string) {
    k.keyId <= 0 && k.teamId <= 0 && k.organizationId <= 0 && FirstStableHeader(get) == "" && clientIP == ""
  }

  lemma {:induction false} FirstStableHeaderShape(get: string -> string, i: nat)
    requires i <= |PROXY_HEADERS|
    ensures FirstStableHeader(get, i) == "" || FirstStableHeader(get, i)[0] == 'x'
    decreases |PROXY_HEADERS| - i
  {
    if i < |PROXY_HEADERS| {
      LowerNames(i);
      FirstStableHeaderShape(get, i + 1);
    }
  }

  /**
   The identity the proxy computes ahead is the one the balancer would work out by itself, except for a
   request known by its key's text: then they differ, unless the balancer is left with the bare route and
   the route happens to spell the same.
   */
  lemma {:induction false} ProxyIdentityAgrees(group: string, path: string, clientIP: string, get: string -> string,
                                               key: Option<AuthKey>)
    ensures var c := BuildContext(group, path, clientIP, get, key);
            StickyKeyOf(c) == StickyKeyOf(c.(clientKey := ""))
            <==> !KnownByKeyText(key)
                 || (KnownByRouteOnly(key.value, clientIP, get) && group + ":" + path == AuthClientKey(key.value))
  {
    var c := BuildContext(group, path, clientIP, get, key);
    HeaderKeyIsFirstStable(c.(clientKey := ""), get, 0);
    if KnownByKeyText(key) {
      KeyTextDiffers(c.(clientKey := ""), key.value, get);
    }
  }

  /** What the balancer works out from ids, headers or the address never starts like a key's text. */
  lemma {:induction false} KeyTextDiffers(c: Context, k: AuthKey, get: string -> string)
    requires KnownByKeyText(Some(k)) && c.clientKey == "" && c.headers == ProxyHeaders(get)
    requires c.keyId == k.keyId && c.teamId == k.teamId && c.organizationId == k.organizationId
    ensures AuthClientKey(k) != "" && AuthClientKey(k)[0] == 'k'
    ensures !KnownByRouteOnly(k, c.clientIP, get) ==> StickyKeyOf(c) != AuthClientKey(k)
    ensures KnownByRouteOnly(k, c.clientIP, get) ==> StickyKeyOf(c) == c.modelGroup + ":" + c.path
  {
    HeaderKeyIsFirstStable(c, get, 0);
    FirstStableHeaderShape(get, 0);
    if !KnownByRouteOnly(k, c.clientIP, get) {
      assert StickyKeyOf(c)[0] in {'t', 'o', 'x', 'i'};
    }
  }

  // ---------- Whom an identity stands for ----------

  datatype Owner = ByKey(id: int) | ByTeam(id: int) | ByOrganization(id: int) | Nobody

  function OwnerOf(c: Context): Owner {
    if c.keyId > 0 then ByKey(c.keyId)
    else if c.teamId > 0 then ByTeam(c.teamId)
    else if c.organizationId > 0 then ByOrganization(c.organizationId)
    else Nobody
  }

  /** Identities made from ids tell keys, teams and organizations apart, and each of them from the others. */
  lemma OwnersAreToldApart(a: Context, b: Context)
    requires a.clientKey == "" && b.clientKey == "" && OwnerOf(a) != Nobody && OwnerOf(b) != Nobody
    ensures StickyKeyOf(a) == StickyKeyOf(b) <==> OwnerOf(a) == OwnerOf(b)
  {
    var s, t := StickyKeyOf(a), StickyKeyOf(b);
    IntTextIsInjective(OwnerOf(a).id, OwnerOf(b).id);
    assert s[0] == (match OwnerOf(a) case ByKey(_) => 'k' case ByTeam(_) => 't' case _ => 'o');
    assert t[0] == (match OwnerOf(b) case ByKey(_) => 'k' case ByTeam(_) => 't' case _ => 'o');
    var skip := match OwnerOf(a) case ByTeam(_) => 5 case _ => 4;
    if s[0] == t[0] {
      assert s[skip..] == IntText(OwnerOf(a).id) && t[skip..] == IntText(OwnerOf(b).id);
    }
  }
}
