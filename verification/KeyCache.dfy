/**
 Cached keys, and the decisions that requests and the background refresh take on them. Every function
 here is one step of the gateway; Freshness interleaves the steps and Admission runs them one after
 the other. Times are nanoseconds and money is counted in whole units.
 */
module KeyCache {
  import opened Basics
  import Permissions
  import RateLimit

  const SYNC_TTL: int := RateLimit.MINUTE
  const IDLE_TTL: int := 30 * RateLimit.MINUTE

  /** Go's zero time, which stands for "no expiry" and "no access yet". */
  const ZERO_TIME: int := 0

  datatype Key = Key(
    content: string,
    keyId: int,
    modelList: seq<string>,
    teamModelList: seq<string>,
    requestPerMinute: int,
    balance: int,
    expireTime: int)

  datatype CachedKey = CachedKey(key: Key, lastSyncAt: int, lastAccessAt: int)

  type Cache = map<string, CachedKey>

  datatype Failure = InvalidRateLimitConfig | BalanceExhausted | KeyExpired | UnknownKey

  /** invalidKeyResult: why a key may not be used at `now`, if it may not. */
  function InvalidKeyResult(key: Key, now: int): Option<Failure> {
    if key.requestPerMinute < 0 then Some(InvalidRateLimitConfig)
    else if key.balance <= 0 then Some(BalanceExhausted)
    else if key.expireTime != ZERO_TIME && key.expireTime <= now then Some(KeyExpired)
    else None
  }

  function ApplyEffectiveModelPermissions(key: Key): Key {
    key.(modelList := Permissions.Effective(key.teamModelList, key.modelList))
  }

  /** The effective key allows exactly the models both its team and itself allow, and is the row in all else. */
  ghost predicate IsEffective(row: Key, key: Key) {
    && key == row.(modelList := key.modelList)
    && forall m :: Permissions.IsValidModel(m, key.modelList)
                   <==> Permissions.Grants(row.teamModelList, m) && Permissions.Grants(row.modelList, m)
  }

  lemma EffectiveMeets(row: Key)
    ensures IsEffective(row, ApplyEffectiveModelPermissions(row))
  {
    forall m
      ensures Permissions.IsValidModel(m, ApplyEffectiveModelPermissions(row).modelList)
              <==> Permissions.Grants(row.teamModelList, m) && Permissions.Grants(row.modelList, m)
    {
      Permissions.PermissionMeet(m, row.teamModelList, row.modelList);
    }
  }

  /** A key with a limit that makes sense, money left, and no expiry or one still to come. */
  predicate InOrder(key: Key, now: int) {
    key.requestPerMinute >= 0 && key.balance > 0 && (key.expireTime == ZERO_TIME || now < key.expireTime)
  }

  /** The entry has been used, and that too long ago. */
  predicate IsIdle(entry: CachedKey, now: int) {
    entry.lastAccessAt != ZERO_TIME && now - entry.lastAccessAt > IDLE_TTL
  }

  // ---------- The cache ----------

  function Touch(cache: Cache, content: string, accessAt: int): Cache {
    if content in cache then cache[content := cache[content].(lastAccessAt := accessAt)] else cache
  }

  function Upsert(cache: Cache, key: Key, syncAt: int, accessAt: int): Cache {
    cache[key.content := CachedKey(key, syncAt, if accessAt == ZERO_TIME then syncAt else accessAt)]
  }

  function Lookup(cache: Cache, content: string): Option<CachedKey> {
    if content in cache then Some(cache[content]) else None
  }

  // ---------- Decisions of a request ----------

  datatype LookupDecision = Deny(failure: Failure) | Hit(key: Key) | Miss

  function OnLookup(entry: Option<CachedKey>, now: int): LookupDecision {
    match entry
    case None => Miss
    case Some(cached) =>
      match InvalidKeyResult(cached.key, now)
      case Some(failure) => Deny(failure)
      case None => if now - cached.lastSyncAt <= SYNC_TTL then Hit(cached.key) else Miss
  }

  /** What a query for a key returns. */
  datatype LoadResult = LoadError | NotFound | Found(key: Key)

  datatype LoadDecision = Unavailable | Reject(failure: Failure) | Store(key: Key)

  function OnLoad(loaded: LoadResult, now: int): LoadDecision {
    match loaded
    case LoadError => Unavailable
    case NotFound => Reject(UnknownKey)
    case Found(key) =>
      match InvalidKeyResult(key, now)
      case Some(failure) => Reject(failure)
      case None => Store(ApplyEffectiveModelPermissions(key))
  }

  // ---------- Decisions of the background refresh ----------

  datatype SweepDecision = Evict | Fresh | Reload

  function OnSweep(entry: CachedKey, now: int): SweepDecision {
    if entry.lastAccessAt != ZERO_TIME && now - entry.lastAccessAt > IDLE_TTL then Evict
    else if now - entry.lastSyncAt <= SYNC_TTL then Fresh
    else Reload
  }

  // ---------- The two queries ----------

  /** GetKeyByContent */
  function QueryKey(table: map<string, Key>, content: string): LoadResult {
    if content in table then Found(table[content]) else NotFound
  }

  /** GetValidKeyByContent, evaluated at `now`. */
  function QueryValidKey(table: map<string, Key>, content: string, now: int): LoadResult {
    if && content in table && table[content].balance > 0
       && (table[content].expireTime > now || table[content].expireTime == ZERO_TIME)
    then Found(table[content])
    else NotFound
  }

  /**
   With a limit that makes sense, the refresh's query finds a row exactly when a request at the same instant
   could use it: there is money left, and the row has no expiry or one still to come.
   */
  lemma QueryFindsUsableRows(table: map<string, Key>, content: string, now: int)
    requires content in table && table[content].requestPerMinute >= 0
    ensures var row := table[content];
            && (QueryValidKey(table, content, now) == Found(row)
                <==> row.balance > 0 && (row.expireTime == ZERO_TIME || now < row.expireTime))
            && (QueryValidKey(table, content, now) != Found(row) ==> QueryValidKey(table, content, now) == NotFound)
            && (QueryValidKey(table, content, now) == Found(row) <==> OnLoad(QueryKey(table, content), now).Store?)
  {
  }
}
