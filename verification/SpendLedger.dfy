/**
 Spend accounting under every interleaving of requests and flushes. A request puts a log record on one
 bounded channel and its amount on its key's bounded channel, which a double-checked registry creates on
 first use; overlapping flushers drain the channels into the log table and into balance debits, and a
 database update may fail. Amounts are exact; a channel is the sequence of what it holds.
 */
module SpendLedger {
  import opened Basics

  const QUEUE_CAPACITY: nat := 100

  // ---------- State ----------

  datatype Record = Record(keyId: int, spend: int)

  datatype Account = Account(balance: int, totalSpend: int)

  datatype Worker =
    // a request inside logSpendMiddleware
    | Logging(record: Record)              // about to send its log record
    | Checking(record: Record)             // about to look its key's channel up under the read lock
    | Creating(record: Record)             // saw no channel; about to take the write lock
    | Sending(record: Record, ch: nat)     // has a channel; about to send its amount
    // a request that leaves a payload but no record still looks its key's channel up
    | Opening(keyId: int, creating: bool)
    // a flush of the log channel
    | LogFlushing(batch: seq<Record>)
    // a flush of a snapshot of the key channels
    | Flushing(todo: map<int, nat>)
    | Draining(todo: map<int, nat>, keyId: int, ch: nat, total: int)
    | Done

  datatype Ledger = Ledger(
    logQueue: seq<Record>,          // SpendLogQueue
    registry: map<int, nat>,        // keySpendQueue: the channel of each key
    channels: seq<seq<int>>,        // what each channel holds
    owners: seq<int>,               // the key each channel was made for (history)
    accounts: map<int, Account>,    // janus_auth_key
    table: seq<Record>,             // janus_spend_log
    workers: seq<Worker>,
    // history
    logged: seq<Record>,            // every record ever sent to the log channel
    applied: seq<Record>,           // every debit that reached its row
    failed: seq<Record>,            // every debit whose update failed or matched no row
    dropped: seq<Record>,           // every drained total that was not positive, so not debited
    unlogged: seq<Record>,          // every record of a failed batch insert
    credit: map<int, int>)          // balance + totalSpend as the admin API last left them

  datatype Event =
    | Finish(record: Record)                // a request ends with an amount to bill
    | FinishUnbilled(keyId: int)            // a request ends with a payload that makes no record
    | FlushLog
    | FlushKeys
    | CreateKey(keyId: int, balance: int)   // the admin API adds a key; rows are never deleted
    | SetBalance(keyId: int, balance: int)  // an admin update
    | Step(worker: nat, pick: int, dbFails: bool)

  predicate Initial(s: Ledger) {
    && s.logQueue == [] && s.registry == map[] && s.channels == [] && s.owners == [] && s.workers == [] && s.table == []
    && s.logged == [] && s.applied == [] && s.failed == [] && s.dropped == [] && s.unlogged == []
    && s.credit == map k | k in s.accounts :: s.accounts[k].balance + s.accounts[k].totalSpend
  }

  function Become(s: Ledger, i: nat, w: Worker): Ledger
    requires i < |s.workers|
  {
    s.(workers := s.workers[i := w])
  }

  /** UpdateKeySpendRecord */
  function Debit(s: Ledger, total: int, keyId: int, dbFails: bool): Ledger {
    if dbFails || keyId !in s.accounts then s.(failed := s.failed + [Record(keyId, total)])
    else
      var a := s.accounts[keyId];
      s.(accounts := s.accounts[keyId := Account(a.balance - total, a.totalSpend + total)],
         applied := s.applied + [Record(keyId, total)])
  }

  predicate CanReceive(s: Ledger, ch: nat) {
    ch < |s.channels| && s.channels[ch] != []
  }

  predicate CanSend(s: Ledger, ch: nat) {
    ch < |s.channels| && |s.channels[ch]| < QUEUE_CAPACITY
  }

  /** Where a worker stands after its next step. A worker whose channel is full stays where it is. */
  function Advance(s: Ledger, w: Worker, pick: int): Worker {
    match w
    case Logging(r) => if |s.logQueue| < QUEUE_CAPACITY then Checking(r) else w
    case Checking(r) => if r.keyId in s.registry then Sending(r, s.registry[r.keyId]) else Creating(r)
    case Creating(r) => Sending(r, if r.keyId in s.registry then s.registry[r.keyId] else |s.channels|)
    case Sending(r, ch) => if CanSend(s, ch) then Done else w
    case Opening(k, creating) => if creating || k in s.registry then Done else Opening(k, true)
    case LogFlushing(batch) => if s.logQueue != [] then LogFlushing(batch + [s.logQueue[0]]) else Done
    case Flushing(todo) =>
      if todo == map[] then Done
      else if pick in todo then Draining(todo - {pick}, pick, todo[pick], 0)
      else w
    case Draining(todo, keyId, ch, total) =>
      if CanReceive(s, ch) then Draining(todo, keyId, ch, total + s.channels[ch][0]) else Flushing(todo)
    case Done => Done
  }

  /** The write-locked half of GetOrCreateKeySpendQueue. */
  function Registered(s: Ledger, keyId: int): Ledger {
    if keyId in s.registry then s
    else
      s.(channels := s.channels + [[]], owners := s.owners + [keyId], registry := s.registry[keyId := |s.channels|])
  }

  /** What that step does to everything the workers share. */
  function Effect(s: Ledger, w: Worker, dbFails: bool): Ledger {
    match w
    case Logging(r) =>
      if |s.logQueue| < QUEUE_CAPACITY then s.(logQueue := s.logQueue + [r], logged := s.logged + [r]) else s
    case Creating(r) => Registered(s, r.keyId)
    case Opening(k, creating) => if creating then Registered(s, k) else s
    case Sending(r, ch) =>
      if CanSend(s, ch) then s.(channels := s.channels[ch := s.channels[ch] + [r.spend]]) else s
    case LogFlushing(batch) =>
      if s.logQueue != [] then s.(logQueue := s.logQueue[1..])
      else if dbFails then s.(unlogged := s.unlogged + batch)
      else s.(table := s.table + batch)
    case Draining(_, keyId, ch, total) =>
      if CanReceive(s, ch) then s.(channels := s.channels[ch := s.channels[ch][1..]])
      else if total > 0 then Debit(s, total, keyId, dbFails)
      else s.(dropped := s.dropped + [Record(keyId, total)])
    case _ => s
  }

  /** One atomic step of one worker. */
  function StepWorker(s: Ledger, i: nat, pick: int, dbFails: bool): Ledger
    requires i < |s.workers|
  {
    Effect(s, s.workers[i], dbFails).(workers := s.workers[i := Advance(s, s.workers[i], pick)])
  }

  function Next(s: Ledger, e: Event): Ledger {
    match e
    case Finish(r) => s.(workers := s.workers + [Logging(r)])
    case FinishUnbilled(k) => s.(workers := s.workers + [Opening(k, false)])
    case FlushLog => s.(workers := s.workers + [LogFlushing([])])
    case FlushKeys => s.(workers := s.workers + [Flushing(s.registry)])
    case CreateKey(k, balance) =>
      if k in s.accounts then s
      else s.(accounts := s.accounts[k := Account(balance, 0)], credit := s.credit[k := balance])
    case SetBalance(k, balance) =>
      if k !in s.accounts then s
      else s.(accounts := s.accounts[k := s.accounts[k].(balance := balance)],
              credit := s.credit[k := balance + s.accounts[k].totalSpend])
    case Step(i, pick, dbFails) => if i < |s.workers| then StepWorker(s, i, pick, dbFails) else s
  }

  function Run(s: Ledger, events: seq<Event>): Ledger {
    if events == [] then s else Next(Run(s, events[..|events| - 1]), events[|events| - 1])
  }

  // ---------- Sums ----------

  /** What the records bill to one key. */
  function Billed(records: seq<Record>, keyId: int): int {
    if records == [] then 0
    else
      var last := records[|records| - 1];
      Billed(records[..|records| - 1], keyId) + if last.keyId == keyId then last.spend else 0
  }

  function Sum(amounts: seq<int>): int {
    if amounts == [] then 0 else amounts[0] + Sum(amounts[1..])
  }

  /** What one worker carries for a key: a request between its two sends, or a flusher's running total. */
  function Carried(w: Worker, keyId: int): int {
    match w
    case Checking(r) => if r.keyId == keyId then r.spend else 0
    case Creating(r) => if r.keyId == keyId then r.spend else 0
    case Sending(r, _) => if r.keyId == keyId then r.spend else 0
    case Draining(_, k, _, total) => if k == keyId then total else 0
    case _ => 0
  }

  function AllCarried(ws: seq<Worker>, keyId: int): int {
    if ws == [] then 0 else AllCarried(ws[..|ws| - 1], keyId) + Carried(ws[|ws| - 1], keyId)
  }

  /** What the row of a key says it has spent, a key without a row having spent nothing. */
  function TotalSpend(s: Ledger, keyId: int): int {
    if keyId in s.accounts then s.accounts[keyId].totalSpend else 0
  }

  /** What waits in the key's channel. */
  function Pending(s: Ledger, keyId: int): int {
    if keyId in s.registry && s.registry[keyId] < |s.channels| then Sum(s.channels[s.registry[keyId]]) else 0
  }

  function Times(records: seq<Record>, r: Record): nat {
    multiset(records)[r]
  }

  /** How often a record is among what the log flushers have taken and not yet inserted. */
  function InBatches(ws: seq<Worker>, r: Record): nat {
    if ws == [] then 0 else InBatches(ws[..|ws| - 1], r) + InBatch(ws[|ws| - 1], r)
  }

  function InBatch(w: Worker, r: Record): nat {
    if w.LogFlushing? then Times(w.batch, r) else 0
  }

  lemma BilledAppend(records: seq<Record>, r: Record, keyId: int)
    ensures Billed(records + [r], keyId) == Billed(records, keyId) + if r.keyId == keyId then r.spend else 0
  {
    assert (records + [r])[..|records|] == records;
  }

  lemma {:induction false} SumAppend(amounts: seq<int>, x: int)
    ensures Sum(amounts + [x]) == Sum(amounts) + x
  {
    if amounts == [] {
      assert [] + [x] == [x];
    } else {
      assert (amounts + [x])[1..] == amounts[1..] + [x];
      SumAppend(amounts[1..], x);
    }
  }

  lemma {:induction false} CarriedUpdate(ws: seq<Worker>, i: nat, w: Worker, keyId: int)
    requires i < |ws|
    ensures AllCarried(ws[i := w], keyId) == AllCarried(ws, keyId) - Carried(ws[i], keyId) + Carried(w, keyId)
  {
    var last := |ws| - 1;
    if i < last {
      CarriedUpdate(ws[..last], i, w, keyId);
      assert ws[i := w][..last] == ws[..last][i := w];
    } else {
      assert ws[i := w][..last] == ws[..last];
    }
  }

  lemma CarriedAppend(ws: seq<Worker>, w: Worker, keyId: int)
    ensures AllCarried(ws + [w], keyId) == AllCarried(ws, keyId) + Carried(w, keyId)
  {
    assert (ws + [w])[..|ws|] == ws;
  }

  lemma {:induction false} BatchesUpdate(ws: seq<Worker>, i: nat, w: Worker, r: Record)
    requires i < |ws|
    ensures InBatches(ws[i := w], r) == InBatches(ws, r) - InBatch(ws[i], r) + InBatch(w, r)
  {
    var last := |ws| - 1;
    if i < last {
      BatchesUpdate(ws[..last], i, w, r);
      assert ws[i := w][..last] == ws[..last][i := w];
    } else {
      assert ws[i := w][..last] == ws[..last];
    }
  }

  lemma BatchesAppend(ws: seq<Worker>, w: Worker, r: Record)
    ensures InBatches(ws + [w], r) == InBatches(ws, r) + InBatch(w, r)
  {
    assert (ws + [w])[..|ws|] == ws;
  }

  // ---------- The registry ----------

  /** Every channel belongs to exactly one key. */
  ghost predicate RegistryOk(s: Ledger) {
    && |s.owners| == |s.channels|
    && (forall k :: k in s.registry ==> s.registry[k] < |s.channels| && s.owners[s.registry[k]] == k)
    && (forall ch :: 0 <= ch < |s.channels| ==> s.owners[ch] in s.registry && s.registry[s.owners[ch]] == ch)
  }

  /** Whoever holds a channel for a key holds the registered one. */
  ghost predicate WorkerOk(registry: map<int, nat>, w: Worker) {
    match w
    case Sending(r, ch) => r.keyId in registry && registry[r.keyId] == ch
    case Flushing(todo) => forall k :: k in todo ==> k in registry && registry[k] == todo[k]
    case Draining(todo, keyId, ch, _) =>
      && keyId in registry && registry[keyId] == ch
      && forall k :: k in todo ==> k in registry && registry[k] == todo[k]
    case _ => true
  }

  ghost predicate RegistryInv(s: Ledger) {
    && RegistryOk(s)
    && (forall i :: 0 <= i < |s.workers| ==> WorkerOk(s.registry, s.workers[i]))
    && |s.logQueue| <= QUEUE_CAPACITY
    && (forall ch :: 0 <= ch < |s.channels| ==> |s.channels[ch]| <= QUEUE_CAPACITY)
  }

  // ---------- Conservation ----------

  ghost predicate ConservedFor(s: Ledger, k: int) {
    Billed(s.logged, k)
    == Billed(s.applied, k) + Pending(s, k) + AllCarried(s.workers, k) + Billed(s.failed, k) + Billed(s.dropped, k)
  }

  ghost predicate BooksBalance(s: Ledger) {
    s.credit == map k | k in s.accounts :: s.accounts[k].balance + s.accounts[k].totalSpend
  }

  ghost predicate LogConservedFor(s: Ledger, r: Record) {
    Times(s.logged, r) == Times(s.logQueue, r) + InBatches(s.workers, r) + Times(s.table, r) + Times(s.unlogged, r)
  }

  ghost predicate Inv(s: Ledger) {
    && RegistryInv(s)
    && BooksBalance(s)
    && (forall k :: ConservedFor(s, k))
    && (forall r :: LogConservedFor(s, r))
  }

  // ---------- Each step keeps the registry ----------

  ghost predicate SharedOk(s: Ledger) {
    && RegistryOk(s)
    && |s.logQueue| <= QUEUE_CAPACITY
    && (forall ch :: 0 <= ch < |s.channels| ==> |s.channels[ch]| <= QUEUE_CAPACITY)
  }

  lemma RegisteredIsOk(s: Ledger, keyId: int)
    requires SharedOk(s)
    ensures SharedOk(Registered(s, keyId))
  {
  }

  lemma ChannelKeepsShared(s: Ledger, ch: nat, channel: seq<int>)
    requires SharedOk(s) && ch < |s.channels| && |channel| <= QUEUE_CAPACITY
    ensures SharedOk(s.(channels := s.channels[ch := channel]))
  {
  }

  /** Sends and receives change one channel. */
  lemma ChannelEffect(s: Ledger, w: Worker, dbFails: bool)
    requires SharedOk(s) && (w.Sending? || (w.Draining? && CanReceive(s, w.ch)))
    ensures SharedOk(Effect(s, w, dbFails))
  {
    if w.Draining? {
      ChannelKeepsShared(s, w.ch, s.channels[w.ch][1..]);
    } else if CanSend(s, w.ch) {
      ChannelKeepsShared(s, w.ch, s.channels[w.ch] + [w.record.spend]);
    }
  }

  /** The other steps touch neither the registry nor a channel. */
  lemma OtherEffectKeepsShared(s: Ledger, w: Worker, dbFails: bool)
    requires SharedOk(s) && !w.Sending? && !w.Creating? && !w.Opening? && !(w.Draining? && CanReceive(s, w.ch))
    ensures SharedOk(Effect(s, w, dbFails))
  {
    var t := Effect(s, w, dbFails);
    assert t.registry == s.registry && t.channels == s.channels && t.owners == s.owners;
  }

  lemma EffectKeepsShared(s: Ledger, w: Worker, dbFails: bool)
    requires SharedOk(s) && WorkerOk(s.registry, w)
    ensures SharedOk(Effect(s, w, dbFails))
  {
    if w.Creating? {
      RegisteredIsOk(s, w.record.keyId);
    } else if w.Opening? {
      RegisteredIsOk(s, w.keyId);
    } else if w.Sending? || (w.Draining? && CanReceive(s, w.ch)) {
      ChannelEffect(s, w, dbFails);
    } else {
      OtherEffectKeepsShared(s, w, dbFails);
    }
  }

  lemma EffectGrowsRegistry(s: Ledger, w: Worker, dbFails: bool, k: int)
    requires k in s.registry
    ensures k in Effect(s, w, dbFails).registry && Effect(s, w, dbFails).registry[k] == s.registry[k]
  {
  }

  lemma WorkerOkGrows(before: map<int, nat>, after: map<int, nat>, w: Worker)
    requires WorkerOk(before, w)
    requires forall k :: k in before ==> k in after && after[k] == before[k]
    ensures WorkerOk(after, w)
  {
  }

  lemma AdvanceKeepsWorker(s: Ledger, w: Worker, pick: int, dbFails: bool)
    requires SharedOk(s) && WorkerOk(s.registry, w)
    ensures WorkerOk(Effect(s, w, dbFails).registry, Advance(s, w, pick))
  {
  }

  lemma {:induction false} StepKeepsRegistry(s: Ledger, i: nat, pick: int, dbFails: bool)
    requires RegistryInv(s) && i < |s.workers|
    ensures RegistryInv(StepWorker(s, i, pick, dbFails))
  {
    var w := s.workers[i];
    var after := Effect(s, w, dbFails).registry;
    EffectKeepsShared(s, w, dbFails);
    AdvanceKeepsWorker(s, w, pick, dbFails);
    forall k | k in s.registry
      ensures k in after && after[k] == s.registry[k]
    {
      EffectGrowsRegistry(s, w, dbFails, k);
    }
    var t := StepWorker(s, i, pick, dbFails);
    forall j | 0 <= j < |t.workers|
      ensures WorkerOk(after, t.workers[j])
    {
      WorkerOkGrows(s.registry, after, s.workers[j]);
    }
  }

  lemma {:induction false} NextKeepsRegistry(s: Ledger, e: Event)
    requires RegistryInv(s)
    ensures RegistryInv(Next(s, e))
  {
    if e.Step? && e.worker < |s.workers| {
      StepKeepsRegistry(s, e.worker, e.pick, e.dbFails);
    }
  }

  // ---------- Each step conserves every key's spend ----------

  /** What is not carried by any worker. */
  ghost function Settled(s: Ledger, k: int): int {
    Billed(s.applied, k) + Pending(s, k) + Billed(s.failed, k) + Billed(s.dropped, k) - Billed(s.logged, k)
  }

  lemma SendMoves(s: Ledger, r: Record, ch: nat, dbFails: bool, pick: int, k: int)
    requires SharedOk(s) && WorkerOk(s.registry, Sending(r, ch))
    ensures var w := Sending(r, ch);
            Settled(Effect(s, w, dbFails), k) + Carried(Advance(s, w, pick), k) == Settled(s, k) + Carried(w, k)
  {
    if |s.channels[ch]| < QUEUE_CAPACITY {
      SumAppend(s.channels[ch], r.spend);
    }
  }

  lemma LogSendMoves(s: Ledger, r: Record, dbFails: bool, pick: int, k: int)
    ensures var w := Logging(r);
            Settled(Effect(s, w, dbFails), k) + Carried(Advance(s, w, pick), k) == Settled(s, k) + Carried(w, k)
  {
    BilledAppend(s.logged, r, k);
  }

  /** A new channel is empty. */
  lemma RegisteringMovesNothing(s: Ledger, keyId: int, k: int)
    requires SharedOk(s)
    ensures Settled(Registered(s, keyId), k) == Settled(s, k)
  {
    assert Sum([]) == 0;
  }

  lemma ReceiveMoves(s: Ledger, w: Worker, dbFails: bool, pick: int, k: int)
    requires SharedOk(s) && w.Draining? && WorkerOk(s.registry, w) && CanReceive(s, w.ch)
    ensures Settled(Effect(s, w, dbFails), k) + Carried(Advance(s, w, pick), k) == Settled(s, k) + Carried(w, k)
  {
  }

  lemma {:induction false} SettleMoves(s: Ledger, w: Worker, dbFails: bool, pick: int, k: int)
    requires w.Draining? && !CanReceive(s, w.ch)
    ensures Settled(Effect(s, w, dbFails), k) + Carried(Advance(s, w, pick), k) == Settled(s, k) + Carried(w, k)
  {
    var d := Record(w.keyId, w.total);
    if w.total <= 0 {
      BilledAppend(s.dropped, d, k);
    } else if dbFails || w.keyId !in s.accounts {
      BilledAppend(s.failed, d, k);
    } else {
      BilledAppend(s.applied, d, k);
    }
  }

  /** A step moves spend between what a worker carries and the rest, and neither makes nor loses any. */
  lemma StepMoves(s: Ledger, w: Worker, dbFails: bool, pick: int, k: int)
    requires SharedOk(s) && WorkerOk(s.registry, w)
    ensures Settled(Effect(s, w, dbFails), k) + Carried(Advance(s, w, pick), k) == Settled(s, k) + Carried(w, k)
  {
    match w
    case Logging(r) => LogSendMoves(s, r, dbFails, pick, k);
    case Creating(r) => RegisteringMovesNothing(s, r.keyId, k);
    case Opening(j, _) => RegisteringMovesNothing(s, j, k);
    case Sending(r, ch) => SendMoves(s, r, ch, dbFails, pick, k);
    case Draining(_, _, ch, _) =>
      if CanReceive(s, ch) {
        ReceiveMoves(s, w, dbFails, pick, k);
      } else {
        SettleMoves(s, w, dbFails, pick, k);
      }
    case _ =>
  }

  lemma ConservedIsSettled(s: Ledger, k: int)
    ensures ConservedFor(s, k) <==> Settled(s, k) + AllCarried(s.workers, k) == 0
  {
  }

  lemma StepConserves(s: Ledger, i: nat, pick: int, dbFails: bool, k: int)
    requires RegistryInv(s) && i < |s.workers| && ConservedFor(s, k)
    ensures ConservedFor(StepWorker(s, i, pick, dbFails), k)
  {
    var w := s.workers[i];
    assert WorkerOk(s.registry, w);
    StepMoves(s, w, dbFails, pick, k);
    CarriedUpdate(s.workers, i, Advance(s, w, pick), k);
    ConservedIsSettled(s, k);
    SettledIgnoresWorkers(Effect(s, w, dbFails), StepWorker(s, i, pick, dbFails).workers, k);
    ConservedIsSettled(StepWorker(s, i, pick, dbFails), k);
  }

  lemma SettledIgnoresWorkers(s: Ledger, ws: seq<Worker>, k: int)
    ensures Settled(s.(workers := ws), k) == Settled(s, k)
  {
  }

  lemma SpawnConserves(s: Ledger, w: Worker, k: int)
    requires ConservedFor(s, k) && Carried(w, k) == 0
    ensures ConservedFor(s.(workers := s.workers + [w]), k)
  {
    CarriedAppend(s.workers, w, k);
    ConservedIsSettled(s, k);
    SettledIgnoresWorkers(s, s.workers + [w], k);
    ConservedIsSettled(s.(workers := s.workers + [w]), k);
  }

  lemma NextConserves(s: Ledger, e: Event, k: int)
    requires RegistryInv(s) && ConservedFor(s, k)
    ensures ConservedFor(Next(s, e), k)
  {
    match e
    case Finish(r) => SpawnConserves(s, Logging(r), k);
    case FinishUnbilled(j) => SpawnConserves(s, Opening(j, false), k);
    case FlushLog => SpawnConserves(s, LogFlushing([]), k);
    case FlushKeys => SpawnConserves(s, Flushing(s.registry), k);
    case CreateKey(_, _) =>
      ConservedIsSettled(s, k);
      ConservedIsSettled(Next(s, e), k);
    case SetBalance(_, _) =>
      ConservedIsSettled(s, k);
      ConservedIsSettled(Next(s, e), k);
    case Step(i, pick, dbFails) =>
      if i < |s.workers| {
        StepConserves(s, i, pick, dbFails, k);
      }
  }

  // ---------- The accounts and the log table ----------

  lemma DebitBalancesBooks(s: Ledger, total: int, keyId: int, dbFails: bool)
    requires BooksBalance(s)
    ensures BooksBalance(Debit(s, total, keyId, dbFails))
  {
  }

  lemma NextBalancesBooks(s: Ledger, e: Event)
    requires BooksBalance(s)
    ensures BooksBalance(Next(s, e))
  {
    if e.Step? && e.worker < |s.workers| {
      var w := s.workers[e.worker];
      if w.Draining? && !CanReceive(s, w.ch) && w.total > 0 {
        DebitBalancesBooks(s, w.total, w.keyId, e.dbFails);
      } else {
        EffectIsNoDebit(s, w, e.dbFails);
      }
    }
  }

  lemma EffectMovesRecords(s: Ledger, w: Worker, pick: int, dbFails: bool, r: Record)
    ensures var t := Effect(s, w, dbFails);
            Times(t.logQueue, r) + InBatch(Advance(s, w, pick), r) + Times(t.table, r) + Times(t.unlogged, r)
            - Times(t.logged, r)
            == Times(s.logQueue, r) + InBatch(w, r) + Times(s.table, r) + Times(s.unlogged, r) - Times(s.logged, r)
  {
    match w
    case LogFlushing(_) => LogFlushMoves(s, w, pick, dbFails, r);
    case Logging(_) => LogSendMovesRecord(s, w, pick, dbFails, r);
    case _ => OtherEffectLeavesLog(s, w, pick, dbFails);
  }

  lemma OtherEffectLeavesLog(s: Ledger, w: Worker, pick: int, dbFails: bool)
    requires !w.LogFlushing? && !w.Logging?
    ensures var t := Effect(s, w, dbFails);
            && t.logged == s.logged && t.logQueue == s.logQueue && t.table == s.table && t.unlogged == s.unlogged
            && !Advance(s, w, pick).LogFlushing?
  {
  }

  lemma LogSendMovesRecord(s: Ledger, w: Worker, pick: int, dbFails: bool, r: Record)
    requires w.Logging?
    ensures var t := Effect(s, w, dbFails);
            && Times(t.logQueue, r) - Times(t.logged, r) == Times(s.logQueue, r) - Times(s.logged, r)
            && t.table == s.table && t.unlogged == s.unlogged
  {
  }

  lemma LogFlushMoves(s: Ledger, w: Worker, pick: int, dbFails: bool, r: Record)
    requires w.LogFlushing?
    ensures var t := Effect(s, w, dbFails);
            && Times(t.logQueue, r) + InBatch(Advance(s, w, pick), r) + Times(t.table, r) + Times(t.unlogged, r)
               == Times(s.logQueue, r) + InBatch(w, r) + Times(s.table, r) + Times(s.unlogged, r)
            && t.logged == s.logged
  {
    if s.logQueue != [] {
      assert s.logQueue == [s.logQueue[0]] + s.logQueue[1..];
    }
  }

  lemma NextConservesLog(s: Ledger, e: Event, r: Record)
    requires LogConservedFor(s, r)
    ensures LogConservedFor(Next(s, e), r)
  {
    match e
    case Finish(record) => BatchesAppend(s.workers, Logging(record), r);
    case FinishUnbilled(j) => BatchesAppend(s.workers, Opening(j, false), r);
    case FlushLog => BatchesAppend(s.workers, LogFlushing([]), r);
    case FlushKeys => BatchesAppend(s.workers, Flushing(s.registry), r);
    case CreateKey(_, _) =>
    case SetBalance(_, _) =>
    case Step(i, pick, dbFails) =>
      if i < |s.workers| {
        EffectMovesRecords(s, s.workers[i], pick, dbFails, r);
        BatchesUpdate(s.workers, i, Advance(s, s.workers[i], pick), r);
      }
  }

  lemma {:induction false} RunKeepsInv(s: Ledger, events: seq<Event>)
    requires Initial(s)
    ensures Inv(Run(s, events))
  {
    if events != [] {
      var e := events[|events| - 1];
      var before := Run(s, events[..|events| - 1]);
      RunKeepsInv(s, events[..|events| - 1]);
      NextKeepsRegistry(before, e);
      NextBalancesBooks(before, e);
      forall k
        ensures ConservedFor(Run(s, events), k)
      {
        assert ConservedFor(before, k);
        NextConserves(before, e, k);
      }
      forall r
        ensures LogConservedFor(Run(s, events), r)
      {
        assert LogConservedFor(before, r);
        NextConservesLog(before, e, r);
      }
    }
  }

  // ---------- Main results ----------

  /**
   Conservation: in every interleaving, what the log records bill to a key is what has been applied to
   its row, plus what waits in its channel, plus what requests and flushers carry between two steps, plus
   what failed updates lost, plus the non-positive totals that are never debited.
   */
  lemma {:induction false} SpendIsConserved(s: Ledger, events: seq<Event>, k: int)
    requires Initial(s)
    ensures var r := Run(s, events);
            Billed(r.logged, k)
            == Billed(r.applied, k) + Pending(r, k) + AllCarried(r.workers, k)
               + Billed(r.failed, k) + Billed(r.dropped, k)
    ensures var r := Run(s, events);
            s.accounts.Keys <= r.accounts.Keys && TotalSpend(r, k) == TotalSpend(s, k) + Billed(r.applied, k)
  {
    RunKeepsInv(s, events);
    assert ConservedFor(Run(s, events), k);
    AppliedIsTotalSpend(s, events, k);
  }

  lemma {:induction false} AppliedIsTotalSpend(s: Ledger, events: seq<Event>, k: int)
    requires Initial(s)
    ensures var r := Run(s, events);
            s.accounts.Keys <= r.accounts.Keys && TotalSpend(r, k) == TotalSpend(s, k) + Billed(r.applied, k)
  {
    if events != [] {
      AppliedIsTotalSpend(s, events[..|events| - 1], k);
      StepApplies(Run(s, events[..|events| - 1]), events[|events| - 1], k);
    }
  }

  /** One event moves a row's total exactly as it moves the applied debits, and loses no row. */
  lemma {:induction false} StepApplies(s: Ledger, e: Event, k: int)
    ensures var t := Next(s, e);
            && s.accounts.Keys <= t.accounts.Keys
            && TotalSpend(t, k) - TotalSpend(s, k) == Billed(t.applied, k) - Billed(s.applied, k)
  {
    if e.Step? && e.worker < |s.workers| {
      EffectApplies(s, s.workers[e.worker], e.dbFails, k);
    }
  }

  lemma EffectApplies(s: Ledger, w: Worker, dbFails: bool, k: int)
    ensures var t := Effect(s, w, dbFails);
            && t.accounts.Keys == s.accounts.Keys
            && TotalSpend(t, k) - TotalSpend(s, k) == Billed(t.applied, k) - Billed(s.applied, k)
  {
    if w.Draining? && !CanReceive(s, w.ch) && w.total > 0 {
      BilledAppend(s.applied, Record(w.keyId, w.total), k);
    } else {
      EffectIsNoDebit(s, w, dbFails);
    }
  }

  lemma EffectIsNoDebit(s: Ledger, w: Worker, dbFails: bool)
    requires !(w.Draining? && !CanReceive(s, w.ch) && w.total > 0)
    ensures Effect(s, w, dbFails).accounts == s.accounts && Effect(s, w, dbFails).applied == s.applied
  {
  }

  /** No step of any request or flush changes balance + totalSpend of any row. */
  lemma {:induction false} FlushKeepsCredit(s: Ledger, i: nat, pick: int, dbFails: bool, k: int)
    requires i < |s.workers| && k in s.accounts
    ensures var t := StepWorker(s, i, pick, dbFails);
            && k in t.accounts
            && t.accounts[k].balance + t.accounts[k].totalSpend == s.accounts[k].balance + s.accounts[k].totalSpend
  {
    var w := s.workers[i];
    if !(w.Draining? && !CanReceive(s, w.ch) && w.total > 0) {
      EffectIsNoDebit(s, w, dbFails);
    }
  }

  /** Over a whole run, balance + totalSpend is what the admin API last left it at. */
  lemma {:induction false} CreditIsConserved(s: Ledger, events: seq<Event>, k: int)
    requires Initial(s) && k in Run(s, events).accounts
    ensures var r := Run(s, events);
            k in r.credit && r.accounts[k].balance + r.accounts[k].totalSpend == r.credit[k]
  {
    RunKeepsInv(s, events);
  }

  /** Every record ever sent is in the log channel, in a flusher's batch, in the table or in a failed batch. */
  lemma {:induction false} LogIsConserved(s: Ledger, events: seq<Event>, r: Record)
    requires Initial(s)
    ensures var t := Run(s, events);
            Times(t.logged, r)
            == Times(t.logQueue, r) + InBatches(t.workers, r) + Times(t.table, r) + Times(t.unlogged, r)
  {
    RunKeepsInv(s, events);
    assert LogConservedFor(Run(s, events), r);
  }

  lemma {:induction false} QueuesAreBounded(s: Ledger, events: seq<Event>, ch: nat)
    requires Initial(s)
    ensures var r := Run(s, events);
            |r.logQueue| <= 100 && (ch < |r.channels| ==> |r.channels[ch]| <= 100)
  {
    RunKeepsInv(s, events);
  }

  // ---------- The queue registry ----------

  lemma RegistryStepGrows(s: Ledger, e: Event, k: int)
    requires k in s.registry
    ensures k in Next(s, e).registry && Next(s, e).registry[k] == s.registry[k]
  {
    if e.Step? && e.worker < |s.workers| {
      EffectGrowsRegistry(s, s.workers[e.worker], e.dbFails, k);
    }
  }

  lemma {:induction false} RegistryOnlyGrows(s: Ledger, before: seq<Event>, after: seq<Event>, k: int)
    requires k in Run(s, before).registry
    ensures k in Run(s, before + after).registry
    ensures Run(s, before + after).registry[k] == Run(s, before).registry[k]
  {
    if after == [] {
      assert before + after == before;
    } else {
      var events := before + after[..|after| - 1];
      RegistryOnlyGrows(s, before, after[..|after| - 1], k);
      RegistryStepGrows(Run(s, events), after[|after| - 1], k);
      assert (before + after)[..|before + after| - 1] == events;
    }
  }

  /**
   Under every interleaving of the read-locked check and the write-locked creation, all requests of one
   key get the same channel, at whatever two points of the run they hold one.
   */
  lemma {:induction false} OneChannelPerKey(s: Ledger, before: seq<Event>, after: seq<Event>, i: nat, j: nat)
    requires Initial(s)
    requires i < |Run(s, before).workers| && Run(s, before).workers[i].Sending?
    requires j < |Run(s, before + after).workers| && Run(s, before + after).workers[j].Sending?
    requires Run(s, before).workers[i].record.keyId == Run(s, before + after).workers[j].record.keyId
    ensures Run(s, before).workers[i].ch == Run(s, before + after).workers[j].ch
  {
    RunKeepsInv(s, before);
    RunKeepsInv(s, before + after);
    assert WorkerOk(Run(s, before).registry, Run(s, before).workers[i]);
    assert WorkerOk(Run(s, before + after).registry, Run(s, before + after).workers[j]);
    RegistryOnlyGrows(s, before, after, Run(s, before).workers[i].record.keyId);
  }

  /** A snapshot covers every channel that exists, so no amount that has been sent is out of a flush's reach. */
  lemma SnapshotReachesEveryChannel(s: Ledger, events: seq<Event>, ch: nat) returns (k: int)
    requires Initial(s) && ch < |Run(s, events).channels|
    ensures var w := Next(Run(s, events), FlushKeys).workers[|Run(s, events).workers|];
            w.Flushing? && k in w.todo && w.todo[k] == ch
  {
    RunKeepsInv(s, events);
    k := Run(s, events).owners[ch];
  }

  // ---------- Non-negative amounts ----------

  ghost predicate NonNegative(amounts: seq<int>) {
    forall i :: 0 <= i < |amounts| ==> amounts[i] >= 0
  }

  /** What the worker carries or is about to carry for the key is not negative. */
  ghost predicate WorkerNonNegative(w: Worker, k: int) {
    match w
    case Logging(r) => r.keyId == k ==> r.spend >= 0
    case Checking(r) => r.keyId == k ==> r.spend >= 0
    case Creating(r) => r.keyId == k ==> r.spend >= 0
    case Sending(r, _) => r.keyId == k ==> r.spend >= 0
    case Draining(_, keyId, _, total) => keyId == k ==> total >= 0
    case _ => true
  }

  ghost predicate ChannelNonNegative(s: Ledger, k: int) {
    k in s.registry && s.registry[k] < |s.channels| ==> NonNegative(s.channels[s.registry[k]])
  }

  ghost predicate DropsNothing(dropped: seq<Record>, k: int) {
    forall i :: 0 <= i < |dropped| && dropped[i].keyId == k ==> dropped[i].spend == 0
  }

  ghost predicate AmountsNonNegative(s: Ledger, k: int) {
    && (forall i :: 0 <= i < |s.workers| ==> WorkerNonNegative(s.workers[i], k))
    && ChannelNonNegative(s, k)
    && DropsNothing(s.dropped, k)
  }

  lemma SendKeepsNonNegative(s: Ledger, w: Worker, dbFails: bool, k: int)
    requires SharedOk(s) && WorkerOk(s.registry, w) && w.Sending?
    requires ChannelNonNegative(s, k) && WorkerNonNegative(w, k)
    ensures ChannelNonNegative(Effect(s, w, dbFails), k) && Effect(s, w, dbFails).dropped == s.dropped
  {
  }

  lemma DrainKeepsNonNegative(s: Ledger, w: Worker, pick: int, dbFails: bool, k: int)
    requires SharedOk(s) && WorkerOk(s.registry, w) && w.Draining?
    requires ChannelNonNegative(s, k) && WorkerNonNegative(w, k) && DropsNothing(s.dropped, k)
    ensures ChannelNonNegative(Effect(s, w, dbFails), k) && DropsNothing(Effect(s, w, dbFails).dropped, k)
    ensures WorkerNonNegative(Advance(s, w, pick), k)
  {
    if CanReceive(s, w.ch) && w.keyId == k {
      assert NonNegative(s.channels[w.ch]);
    }
  }

  lemma OtherEffectKeepsNonNegative(s: Ledger, w: Worker, pick: int, dbFails: bool, k: int)
    requires SharedOk(s) && WorkerNonNegative(w, k) && ChannelNonNegative(s, k) && !w.Sending? && !w.Draining?
    ensures ChannelNonNegative(Effect(s, w, dbFails), k) && Effect(s, w, dbFails).dropped == s.dropped
    ensures WorkerNonNegative(Advance(s, w, pick), k)
  {
  }

  lemma EffectKeepsNonNegative(s: Ledger, w: Worker, pick: int, dbFails: bool, k: int)
    requires SharedOk(s) && WorkerOk(s.registry, w)
    requires ChannelNonNegative(s, k) && WorkerNonNegative(w, k) && DropsNothing(s.dropped, k)
    ensures ChannelNonNegative(Effect(s, w, dbFails), k) && DropsNothing(Effect(s, w, dbFails).dropped, k)
    ensures WorkerNonNegative(Advance(s, w, pick), k)
  {
    if w.Sending? {
      SendKeepsNonNegative(s, w, dbFails, k);
    } else if w.Draining? {
      DrainKeepsNonNegative(s, w, pick, dbFails, k);
    } else {
      OtherEffectKeepsNonNegative(s, w, pick, dbFails, k);
    }
  }

  lemma {:induction false} StepKeepsNonNegative(s: Ledger, e: Event, k: int)
    requires RegistryInv(s) && AmountsNonNegative(s, k)
    requires e.Finish? && e.record.keyId == k ==> e.record.spend >= 0
    ensures AmountsNonNegative(Next(s, e), k)
  {
    if e.Step? && e.worker < |s.workers| {
      var w := s.workers[e.worker];
      assert WorkerOk(s.registry, w) && WorkerNonNegative(w, k);
      EffectKeepsNonNegative(s, w, e.pick, e.dbFails, k);
      StepKeepsWorkers(s, e.worker, e.pick, e.dbFails, k);
    }
  }

  lemma StepKeepsWorkers(s: Ledger, i: nat, pick: int, dbFails: bool, k: int)
    requires i < |s.workers| && AmountsNonNegative(s, k)
    requires WorkerNonNegative(Advance(s, s.workers[i], pick), k)
    requires ChannelNonNegative(Effect(s, s.workers[i], dbFails), k)
    requires DropsNothing(Effect(s, s.workers[i], dbFails).dropped, k)
    ensures AmountsNonNegative(StepWorker(s, i, pick, dbFails), k)
  {
    var t := StepWorker(s, i, pick, dbFails);
    assert t.workers == s.workers[i := Advance(s, s.workers[i], pick)];
  }

  lemma {:induction false} RunNonNegative(s: Ledger, events: seq<Event>, k: int)
    requires Initial(s)
    requires forall i :: 0 <= i < |events| && events[i].Finish? && events[i].record.keyId == k
                         ==> events[i].record.spend >= 0
    ensures AmountsNonNegative(Run(s, events), k)
  {
    if events != [] {
      RunNonNegative(s, events[..|events| - 1], k);
      RunKeepsInv(s, events[..|events| - 1]);
      StepKeepsNonNegative(Run(s, events[..|events| - 1]), events[|events| - 1], k);
    }
  }

  lemma {:induction false} BilledZeros(records: seq<Record>, k: int)
    requires DropsNothing(records, k)
    ensures Billed(records, k) == 0
  {
    if records != [] {
      BilledZeros(records[..|records| - 1], k);
    }
  }

  /** If a key's own amounts are not negative nothing of it is dropped: only failed updates lose spend. */
  lemma {:induction false} NonNegativeSpendIsConserved(s: Ledger, events: seq<Event>, k: int)
    requires Initial(s)
    requires forall i :: 0 <= i < |events| && events[i].Finish? && events[i].record.keyId == k
                         ==> events[i].record.spend >= 0
    ensures var r := Run(s, events);
            && Billed(r.dropped, k) == 0
            && Billed(r.logged, k)
               == TotalSpend(r, k) - TotalSpend(s, k) + Pending(r, k) + AllCarried(r.workers, k) + Billed(r.failed, k)
  {
    SpendIsConserved(s, events, k);
    RunNonNegative(s, events, k);
    BilledZeros(Run(s, events).dropped, k);
  }

  // ---------- From finished requests ----------

  /** The records of the requests that finished during a run, in order. */
  function Finishes(events: seq<Event>): seq<Record> {
    if events == [] then []
    else
      var before, e := Finishes(events[..|events| - 1]), events[|events| - 1];
      if e.Finish? then before + [e.record] else before
  }

  lemma {:induction false} FinishIsListed(events: seq<Event>, i: nat)
    requires i < |events| && events[i].Finish?
    ensures events[i].record in Finishes(events)
  {
    if i < |events| - 1 {
      FinishIsListed(events[..|events| - 1], i);
    }
  }

  /** What one finished request still has to log for a key. */
  function Unsent(w: Worker, keyId: int): int {
    if w.Logging? && w.record.keyId == keyId then w.record.spend else 0
  }

  /** What finished requests wait to log while the log channel is full. */
  function Waiting(ws: seq<Worker>, keyId: int): int {
    if ws == [] then 0 else Waiting(ws[..|ws| - 1], keyId) + Unsent(ws[|ws| - 1], keyId)
  }

  lemma {:induction false} WaitingUpdate(ws: seq<Worker>, i: nat, w: Worker, keyId: int)
    requires i < |ws|
    ensures Waiting(ws[i := w], keyId) == Waiting(ws, keyId) - Unsent(ws[i], keyId) + Unsent(w, keyId)
  {
    var last := |ws| - 1;
    if i < last {
      WaitingUpdate(ws[..last], i, w, keyId);
      assert ws[i := w][..last] == ws[..last][i := w];
    } else {
      assert ws[i := w][..last] == ws[..last];
    }
  }

  lemma WaitingAppend(ws: seq<Worker>, w: Worker, keyId: int)
    ensures Waiting(ws + [w], keyId) == Waiting(ws, keyId) + Unsent(w, keyId)
  {
    assert (ws + [w])[..|ws|] == ws;
  }

  /** A step logs what the worker had to log, or leaves both as they are. */
  lemma {:induction false} StepLogs(s: Ledger, w: Worker, pick: int, dbFails: bool, k: int)
    ensures Billed(Effect(s, w, dbFails).logged, k) + Unsent(Advance(s, w, pick), k)
            == Billed(s.logged, k) + Unsent(w, k)
  {
    if w.Logging? {
      BilledAppend(s.logged, w.record, k);
    } else {
      OtherEffectLogsNothing(s, w, pick, dbFails);
    }
  }

  lemma OtherEffectLogsNothing(s: Ledger, w: Worker, pick: int, dbFails: bool)
    requires !w.Logging?
    ensures Effect(s, w, dbFails).logged == s.logged && !Advance(s, w, pick).Logging?
  {
  }

  /** What finished requests bill to a key is logged or waiting to be. */
  lemma {:induction false} FinishedIsLogged(s: Ledger, events: seq<Event>, k: int)
    requires Initial(s)
    ensures var r := Run(s, events);
            Billed(Finishes(events), k) == Billed(r.logged, k) + Waiting(r.workers, k)
  {
    if events != [] {
      FinishedIsLogged(s, events[..|events| - 1], k);
      NextLogs(Run(s, events[..|events| - 1]), events[|events| - 1], k);
      LastFinish(events, k);
    }
  }

  /** What one event bills by ending a request. */
  function BilledBy(e: Event, k: int): int {
    if e.Finish? && e.record.keyId == k then e.record.spend else 0
  }

  lemma {:induction false} LastFinish(events: seq<Event>, k: int)
    requires events != []
    ensures Billed(Finishes(events), k)
            == Billed(Finishes(events[..|events| - 1]), k) + BilledBy(events[|events| - 1], k)
  {
    if events[|events| - 1].Finish? {
      BilledAppend(Finishes(events[..|events| - 1]), events[|events| - 1].record, k);
    }
  }

  lemma {:induction false} NextLogs(s: Ledger, e: Event, k: int)
    ensures var t := Next(s, e);
            Billed(t.logged, k) + Waiting(t.workers, k)
            == Billed(s.logged, k) + Waiting(s.workers, k) + BilledBy(e, k)
  {
    match e
    case Finish(r) => WaitingAppend(s.workers, Logging(r), k);
    case FinishUnbilled(j) => WaitingAppend(s.workers, Opening(j, false), k);
    case FlushLog => WaitingAppend(s.workers, LogFlushing([]), k);
    case FlushKeys => WaitingAppend(s.workers, Flushing(s.registry), k);
    case CreateKey(_, _) =>
    case SetBalance(_, _) =>
    case Step(i, pick, dbFails) =>
      if i < |s.workers| {
        StepLogs(s, s.workers[i], pick, dbFails, k);
        WaitingUpdate(s.workers, i, Advance(s, s.workers[i], pick), k);
      }
  }

  /**
   From the end of a request to its key's row: whatever the interleaving, what finished requests bill to a
   key has been debited, waits to be logged, waits in the key's channel, is carried between two steps, or
   was lost to a failed update or a total that was not positive.
   */
  lemma {:induction false} FinishedSpendIsConserved(s: Ledger, events: seq<Event>, k: int)
    requires Initial(s)
    ensures var r := Run(s, events);
            Billed(Finishes(events), k)
            == TotalSpend(r, k) - TotalSpend(s, k) + Waiting(r.workers, k) + Pending(r, k) + AllCarried(r.workers, k)
               + Billed(r.failed, k) + Billed(r.dropped, k)
  {
    SpendIsConserved(s, events, k);
    FinishedIsLogged(s, events, k);
  }

  /** Every request and flush has run to its end, and nothing waits for the key. */
  predicate Quiet(s: Ledger, k: int) {
    (forall i :: 0 <= i < |s.workers| ==> s.workers[i] == Done) && Pending(s, k) == 0
  }

  lemma {:induction false} QuietCarriesNothing(ws: seq<Worker>, k: int)
    requires forall i :: 0 <= i < |ws| ==> ws[i] == Done
    ensures AllCarried(ws, k) == 0 && Waiting(ws, k) == 0
  {
    if ws != [] {
      QuietCarriesNothing(ws[..|ws| - 1], k);
    }
  }

  // ---------- An undisturbed flush ----------

  function StepTimes(s: Ledger, i: nat, pick: int, n: nat): Ledger
    requires i < |s.workers|
    ensures i < |StepTimes(s, i, pick, n).workers|
    decreases n
  {
    if n == 0 then s else StepTimes(StepWorker(s, i, pick, false), i, pick, n - 1)
  }

  lemma {:induction false} DrainAlone(s: Ledger, i: nat, pick: int)
    requires i < |s.workers| && s.workers[i].Draining? && s.workers[i].ch < |s.channels|
    ensures var Draining(todo, keyId, ch, total) := s.workers[i];
            StepTimes(s, i, pick, |s.channels[ch]|)
            == Become(s, i, Draining(todo, keyId, ch, total + Sum(s.channels[ch]))).(channels := s.channels[ch := []])
    decreases |s.channels[s.workers[i].ch]|
  {
    var Draining(todo, keyId, ch, total) := s.workers[i];
    if s.channels[ch] == [] {
      assert s.channels == s.channels[ch := []];
      assert s.workers == s.workers[i := s.workers[i]];
    } else {
      ReceiveAlone(s, i, pick);
      var t := StepWorker(s, i, pick, false);
      DrainAlone(t, i, pick);
      assert t.channels[ch := []] == s.channels[ch := []];
      assert t.workers[i := Draining(todo, keyId, ch, total + Sum(s.channels[ch]))]
          == s.workers[i := Draining(todo, keyId, ch, total + Sum(s.channels[ch]))];
    }
  }

  lemma ReceiveAlone(s: Ledger, i: nat, pick: int)
    requires i < |s.workers| && s.workers[i].Draining? && CanReceive(s, s.workers[i].ch)
    ensures var Draining(todo, keyId, ch, total) := s.workers[i];
            StepWorker(s, i, pick, false)
            == Become(s, i, Draining(todo, keyId, ch, total + s.channels[ch][0]))
               .(channels := s.channels[ch := s.channels[ch][1..]])
  {
  }

  /**
   A flusher that nobody disturbs bills exactly what waits for a key: one step to take it up, one per
   amount, and one for the update, after which its channel is empty.
   */
  lemma UndisturbedFlushBillsPending(s: Ledger, i: nat, k: int)
    requires RegistryInv(s) && i < |s.workers| && s.workers[i].Flushing? && k in s.workers[i].todo
    requires k in s.accounts && Pending(s, k) > 0
    ensures k in s.registry && s.registry[k] < |s.channels|
    ensures var taken := StepTimes(s, i, k, 1);
            var drained := StepTimes(taken, i, k, |s.channels[s.registry[k]]|);
            var t := StepTimes(drained, i, k, 1);
            && t.workers[i] == Flushing(s.workers[i].todo - {k})
            && Pending(t, k) == 0
            && t.accounts
               == s.accounts[k := Account(s.accounts[k].balance - Pending(s, k),
                                          s.accounts[k].totalSpend + Pending(s, k))]
  {
    assert WorkerOk(s.registry, s.workers[i]);
    TakeUpAlone(s, i, k);
    var taken := StepTimes(s, i, k, 1);
    DrainAlone(taken, i, k);
    DebitAlone(StepTimes(taken, i, k, |s.channels[s.registry[k]]|), i, k);
  }

  lemma {:induction false} TakeUpAlone(s: Ledger, i: nat, k: int)
    requires i < |s.workers| && s.workers[i].Flushing? && k in s.workers[i].todo
    ensures var todo := s.workers[i].todo;
            StepTimes(s, i, k, 1) == Become(s, i, Draining(todo - {k}, k, todo[k], 0))
  {
    assert StepTimes(s, i, k, 1) == StepTimes(StepWorker(s, i, k, false), i, k, 0);
  }

  lemma {:induction false} DebitAlone(s: Ledger, i: nat, k: int)
    requires i < |s.workers| && s.workers[i].Draining? && s.workers[i].keyId == k && k in s.accounts
    requires !CanReceive(s, s.workers[i].ch) && s.workers[i].total > 0
    ensures var Draining(todo, _, _, total) := s.workers[i];
            StepTimes(s, i, k, 1) == Become(Debit(s, total, k, false), i, Flushing(todo))
  {
    assert StepTimes(s, i, k, 1) == StepTimes(StepWorker(s, i, k, false), i, k, 0);
  }

  // ---------- The flush loops ----------

  /** The queues once the channels of `done` have been drained. */
  function Drained(queues: map<int, seq<int>>, done: set<int>): map<int, seq<int>> {
    map k | k in queues :: if k in done then [] else queues[k]
  }

  /** The accounts once the queues of `done` have been billed, except where the update fails. */
  function BilledTo(accounts: map<int, Account>, queues: map<int, seq<int>>, failing: set<int>, done: set<int>)
    : map<int, Account>
  {
    map k | k in accounts ::
      if k in done && k in queues && k !in failing && Sum(queues[k]) > 0
      then Account(accounts[k].balance - Sum(queues[k]), accounts[k].totalSpend + Sum(queues[k]))
      else accounts[k]
  }

  lemma OneMoreKey(queues: map<int, seq<int>>, accounts: map<int, Account>, failing: set<int>, done: set<int>, k: int)
    requires k in queues && k !in done
    ensures Drained(queues, done)[k] == queues[k]
    ensures Drained(queues, done + {k}) == Drained(queues, done)[k := []]
    ensures var before := BilledTo(accounts, queues, failing, done);
            var total := Sum(queues[k]);
            BilledTo(accounts, queues, failing, done + {k})
            == if total > 0 && k !in failing && k in accounts
               then before[k := Account(before[k].balance - total, before[k].totalSpend + total)]
               else before
  {
  }

  class Store {
    var queues: map<int, seq<int>>
    var accounts: map<int, Account>
    var logQueue: seq<Record>
    var table: seq<Record>

    constructor (queues: map<int, seq<int>>, accounts: map<int, Account>, logQueue: seq<Record>)
      ensures this.queues == queues && this.accounts == accounts && this.logQueue == logQueue && table == []
    {
      this.queues, this.accounts, this.logQueue, this.table := queues, accounts, logQueue, [];
    }

    /** `failing` are the keys whose update does not go through. */
    method FlushKeySpend(snapshot: set<int>, failing: set<int>)
      requires snapshot <= queues.Keys
      modifies this`queues, this`accounts
      ensures queues == Drained(old(queues), snapshot)
      ensures accounts == BilledTo(old(accounts), old(queues), failing, snapshot)
    {
      var todo := snapshot;
      ghost var done: set<int> := {};
      assert queues == Drained(queues, {}) && accounts == BilledTo(accounts, queues, failing, {});
      while todo != {}
        invariant todo !! done && todo + done == snapshot
        invariant queues == Drained(old(queues), done)
        invariant accounts == BilledTo(old(accounts), old(queues), failing, done)
        decreases todo
      {
        NonEmptyHasMember(todo);
        var keyId :| keyId in todo;
        todo := todo - {keyId};
        var total := Drain(keyId);
        if total > 0 {
          UpdateKeySpendRecord(total, keyId, keyId in failing);
        }
        OneMoreKey(old(queues), old(accounts), failing, done, keyId);
        done := done + {keyId};
      }
    }

    /** The inner loop: receives until the channel is empty. */
    method Drain(keyId: int) returns (total: int)
      requires keyId in queues
      modifies this`queues
      ensures total == Sum(old(queues[keyId]))
      ensures queues == old(queues)[keyId := []]
    {
      total := 0;
      assert queues == queues[keyId := queues[keyId]];
      while queues[keyId] != []
        invariant keyId in queues
        invariant total + Sum(queues[keyId]) == Sum(old(queues[keyId]))
        invariant queues == old(queues)[keyId := queues[keyId]]
        decreases |queues[keyId]|
      {
        var amount := queues[keyId][0];
        queues := queues[keyId := queues[keyId][1..]];
        total := total + amount;
      }
    }

    method UpdateKeySpendRecord(total: int, keyId: int, fails: bool)
      modifies this`accounts
      ensures accounts == if fails || keyId !in old(accounts) then old(accounts)
                          else old(accounts)[keyId := Account(old(accounts[keyId].balance) - total,
                                                              old(accounts[keyId].totalSpend) + total)]
    {
      if !fails && keyId in accounts {
        var a := accounts[keyId];
        accounts := accounts[keyId := Account(a.balance - total, a.totalSpend + total)];
      }
    }

    method FlushSpendLog(fails: bool)
      modifies this`logQueue, this`table
      ensures logQueue == []
      ensures table == if fails then old(table) else old(table) + old(logQueue)
    {
      var batch: seq<Record> := [];
      while logQueue != []
        invariant batch + logQueue == old(logQueue)
        invariant table == old(table)
        decreases |logQueue|
      {
        batch := batch + [logQueue[0]];
        logQueue := logQueue[1..];
      }
      if |batch| > 0 && !fails {
        table := table + batch;
      }
    }
  }
}
