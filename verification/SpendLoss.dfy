/**
 Which finished requests can lose spend by being drained without a debit: those of a negative amount, and no
 others. A run that serves requests one at a time, flushing after each, loses every negative amount.
 */
module SpendLoss {
  import opened SpendLedger

  // ---------- Runs built event by event ----------

  lemma {:induction false} Then(s: Ledger, events: seq<Event>, r: Ledger, e: Event)
    returns (more: seq<Event>, next: Ledger)
    requires Run(s, events) == r
    ensures next == Next(r, e) && Run(s, more) == next
    ensures Finishes(more) == if e.Finish? then Finishes(events) + [e.record] else Finishes(events)
  {
    more, next := events + [e], Next(r, e);
    assert more[..|more| - 1] == events && more[|more| - 1] == e;
  }

  /** A step of the worker that came last. */
  lemma {:induction false} ThenLast(s: Ledger, events: seq<Event>, r: Ledger, ws: seq<Worker>, w: Worker, pick: int)
    returns (more: seq<Event>, next: Ledger)
    requires Run(s, events) == r && r.workers == ws + [w]
    ensures Run(s, more) == next && Finishes(more) == Finishes(events)
    ensures next == Effect(r, w, false).(workers := ws + [Advance(r, w, pick)])
  {
    more, next := Then(s, events, r, Step(|ws|, pick, false));
    assert r.workers[|ws| := Advance(r, w, pick)] == ws + [Advance(r, w, pick)];
  }

  lemma {:induction false} RunKeepsRegistry(s: Ledger, events: seq<Event>)
    requires Initial(s)
    ensures RegistryInv(Run(s, events))
  {
    RunKeepsInv(s, events);
  }

  // ---------- One request, served alone ----------

  /** Nothing is on its way: the log channel and every key's channel are empty. */
  ghost predicate Idle(s: Ledger) {
    s.logQueue == [] && forall ch :: 0 <= ch < |s.channels| ==> s.channels[ch] == []
  }

  /** The ledger once the record has been logged and its amount sent. */
  ghost function Sent(s: Ledger, r: Record): Ledger
    requires RegistryOk(Registered(s, r.keyId)) && r.keyId in Registered(s, r.keyId).registry
  {
    var t := Registered(s, r.keyId);
    t.(logQueue := [r], logged := s.logged + [r], workers := s.workers + [Done],
       channels := t.channels[t.registry[r.keyId] := [r.spend]])
  }

  lemma RegisteredIsIdle(s: Ledger, keyId: int)
    requires RegistryOk(s) && Idle(s)
    ensures RegistryOk(Registered(s, keyId)) && keyId in Registered(s, keyId).registry && Idle(Registered(s, keyId))
  {
  }

  /** A request ends and logs its record. */
  lemma {:induction false} LogAlone(s: Ledger, before: seq<Event>, a: Ledger, r: Record)
    returns (events: seq<Event>, t: Ledger)
    requires Run(s, before) == a && Idle(a)
    ensures Run(s, events) == t && Finishes(events) == Finishes(before) + [r]
    ensures t == a.(logQueue := [r], logged := a.logged + [r], workers := a.workers + [Checking(r)])
  {
    events, t := Then(s, before, a, Finish(r));
    events, t := ThenLast(s, events, t, a.workers, Logging(r), 0);
    assert [] + [r] == [r];
  }

  /** It finds its key's channel, or makes one. */
  lemma {:induction false} OpenAlone(s: Ledger, before: seq<Event>, a: Ledger, ws: seq<Worker>, r: Record)
    returns (events: seq<Event>, t: Ledger)
    requires Run(s, before) == a && a.workers == ws + [Checking(r)]
    ensures Run(s, events) == t && Finishes(events) == Finishes(before)
    ensures r.keyId in Registered(a, r.keyId).registry
    ensures t == Registered(a, r.keyId).(workers := ws + [Sending(r, Registered(a, r.keyId).registry[r.keyId])])
  {
    events, t := ThenLast(s, before, a, ws, Checking(r), 0);
    if r.keyId !in a.registry {
      events, t := ThenLast(s, events, t, ws, Creating(r), 0);
    }
  }

  lemma {:induction false} SendAlone(s: Ledger, before: seq<Event>, a: Ledger, r: Record)
    returns (events: seq<Event>, t: Ledger)
    requires Run(s, before) == a && Idle(a) && RegistryOk(a)
    ensures Run(s, events) == t && Finishes(events) == Finishes(before) + [r]
    ensures RegistryOk(Registered(a, r.keyId)) && r.keyId in Registered(a, r.keyId).registry
    ensures t == Sent(a, r)
  {
    RegisteredIsIdle(a, r.keyId);
    events, t := LogAlone(s, before, a, r);
    events, t := OpenAlone(s, events, t, a.workers, r);
    var ch := t.registry[r.keyId];
    assert t.channels == Registered(a, r.keyId).channels && t.channels[ch] + [r.spend] == [r.spend];
    events, t := ThenLast(s, events, t, a.workers, Sending(r, ch), 0);
  }

  // ---------- Its two flushes ----------

  lemma {:induction false} FlushLogAlone(s: Ledger, before: seq<Event>, a: Ledger, r: Record)
    returns (events: seq<Event>, t: Ledger)
    requires Run(s, before) == a && a.logQueue == [r]
    ensures Run(s, events) == t && Finishes(events) == Finishes(before)
    ensures t == a.(logQueue := [], table := a.table + [r], workers := a.workers + [Done])
  {
    events, t := Then(s, before, a, FlushLog);
    events, t := ThenLast(s, events, t, a.workers, LogFlushing([]), 0);
    assert [] + [r] == [r];
    events, t := ThenLast(s, events, t, a.workers, LogFlushing([r]), 0);
  }

  /** A flusher takes up the key and receives its one amount. */
  lemma {:induction false} DrainKeyAlone(s: Ledger, before: seq<Event>, a: Ledger, r: Record, ch: nat)
    returns (events: seq<Event>, t: Ledger)
    requires Run(s, before) == a && r.keyId in a.registry && a.registry[r.keyId] == ch < |a.channels|
    requires a.channels[ch] == [r.spend]
    ensures Run(s, events) == t && Finishes(events) == Finishes(before)
    ensures t == a.(channels := a.channels[ch := []],
                    workers := a.workers + [Draining(a.registry - {r.keyId}, r.keyId, ch, r.spend)])
  {
    events, t := TakeUpKey(s, before, a, r.keyId);
    assert [r.spend][1..] == [];
    events, t := ThenLast(s, events, t, a.workers, Draining(a.registry - {r.keyId}, r.keyId, ch, 0), 0);
  }

  lemma {:induction false} TakeUpKey(s: Ledger, before: seq<Event>, a: Ledger, k: int)
    returns (events: seq<Event>, t: Ledger)
    requires Run(s, before) == a && k in a.registry
    ensures Run(s, events) == t && Finishes(events) == Finishes(before)
    ensures t == a.(workers := a.workers + [Draining(a.registry - {k}, k, a.registry[k], 0)])
  {
    events, t := Then(s, before, a, FlushKeys);
    events, t := ThenLast(s, events, t, a.workers, Flushing(a.registry), k);
  }

  /** Then it debits it or drops it. */
  lemma {:induction false} FlushKeyAlone(s: Ledger, before: seq<Event>, a: Ledger, r: Record)
    returns (events: seq<Event>, t: Ledger)
    requires Run(s, before) == a && r.keyId in a.registry && a.registry[r.keyId] < |a.channels|
    requires a.channels[a.registry[r.keyId]] == [r.spend]
    ensures Run(s, events) == t && Finishes(events) == Finishes(before)
    ensures t.logQueue == a.logQueue && t.channels == a.channels[a.registry[r.keyId] := []]
    ensures t.dropped == if r.spend <= 0 then a.dropped + [r] else a.dropped
  {
    var ch := a.registry[r.keyId];
    events, t := DrainKeyAlone(s, before, a, r, ch);
    SettleDrops(t, Draining(a.registry - {r.keyId}, r.keyId, ch, r.spend), r);
    events, t := ThenLast(s, events, t, a.workers, Draining(a.registry - {r.keyId}, r.keyId, ch, r.spend), 0);
  }

  lemma SettleDrops(s: Ledger, w: Worker, r: Record)
    requires w.Draining? && w.keyId == r.keyId && w.total == r.spend && !CanReceive(s, w.ch)
    ensures var t := Effect(s, w, false);
            && t.logQueue == s.logQueue && t.channels == s.channels
            && t.dropped == if r.spend <= 0 then s.dropped + [r] else s.dropped
  {
  }

  /** A whole request, with a flush of both channels behind it: whatever is not positive is lost. */
  lemma {:induction false} ServeAlone(s: Ledger, before: seq<Event>, r: Record) returns (events: seq<Event>)
    requires Initial(s) && Idle(Run(s, before))
    ensures Idle(Run(s, events)) && Finishes(events) == Finishes(before) + [r]
    ensures Run(s, events).dropped
            == if r.spend <= 0 then Run(s, before).dropped + [r] else Run(s, before).dropped
  {
    var a := Run(s, before);
    RunKeepsRegistry(s, before);
    RegisteredIsIdle(a, r.keyId);
    var t;
    events, t := SendAlone(s, before, a, r);
    events, t := FlushLogAlone(s, events, t, r);
    events, t := FlushKeyAlone(s, events, t, r);
  }

  // ---------- Any number of requests ----------

  /** What is lost for the key when the record's amount is flushed by itself. */
  function Loss(r: Record, k: int): int {
    if r.keyId == k && r.spend <= 0 then r.spend else 0
  }

  function Losses(records: seq<Record>, k: int): int {
    if records == [] then 0 else Losses(records[..|records| - 1], k) + Loss(records[|records| - 1], k)
  }

  lemma {:induction false} DropOne(dropped: seq<Record>, r: Record, k: int)
    ensures Billed(if r.spend <= 0 then dropped + [r] else dropped, k) == Billed(dropped, k) + Loss(r, k)
  {
    BilledAppend(dropped, r, k);
  }

  lemma {:induction false} LossesAppend(records: seq<Record>, r: Record, k: int)
    ensures Losses(records + [r], k) == Losses(records, k) + Loss(r, k)
  {
    assert (records + [r])[..|records|] == records;
  }

  /** Served one at a time, the requests lose all of their amounts that are not positive. */
  lemma {:induction false} ServeAll(s: Ledger, records: seq<Record>, k: int) returns (events: seq<Event>)
    requires Initial(s)
    ensures Finishes(events) == records && Idle(Run(s, events))
    ensures Billed(Run(s, events).dropped, k) == Losses(records, k)
  {
    if records == [] {
      events := [];
    } else {
      var init, r := records[..|records| - 1], records[|records| - 1];
      var before := ServeAll(s, init, k);
      events := ServeOneMore(s, before, init, r, k);
      assert records == init + [r];
    }
  }

  lemma {:induction false} ServeOneMore(s: Ledger, before: seq<Event>, records: seq<Record>, r: Record, k: int)
    returns (events: seq<Event>)
    requires Initial(s) && Finishes(before) == records && Idle(Run(s, before))
    requires Billed(Run(s, before).dropped, k) == Losses(records, k)
    ensures Finishes(events) == records + [r] && Idle(Run(s, events))
    ensures Billed(Run(s, events).dropped, k) == Losses(records + [r], k)
  {
    events := ServeAlone(s, before, r);
    DropOne(Run(s, before).dropped, r, k);
    LossesAppend(records, r, k);
  }

  ghost predicate NoneNegative(records: seq<Record>, k: int) {
    forall i :: 0 <= i < |records| && records[i].keyId == k ==> records[i].spend >= 0
  }

  lemma {:induction false} LossesAreNegative(records: seq<Record>, k: int)
    ensures Losses(records, k) <= 0
    ensures Losses(records, k) == 0 <==> NoneNegative(records, k)
  {
    if records != [] {
      var init := records[..|records| - 1];
      LossesAreNegative(init, k);
      assert NoneNegative(records, k) ==> NoneNegative(init, k);
    }
  }

  /** No run in which exactly these requests finish drops anything of the key. */
  ghost predicate NeverDrops(s: Ledger, records: seq<Record>, k: int) {
    forall events :: Finishes(events) == records ==> Billed(Run(s, events).dropped, k) == 0
  }

  /**
   Whichever requests finish, no interleaving drops spend of a key exactly when none of its amounts is
   negative: otherwise some run loses what they bill.
   */
  lemma {:induction false} OnlyNegativeSpendIsDropped(s: Ledger, records: seq<Record>, k: int)
    requires Initial(s)
    ensures NeverDrops(s, records, k) <==> NoneNegative(records, k)
  {
    if NoneNegative(records, k) {
      forall events | Finishes(events) == records
        ensures Billed(Run(s, events).dropped, k) == 0
      {
        NothingDropped(s, events, records, k);
      }
    } else {
      var events := ServeAll(s, records, k);
      LossesAreNegative(records, k);
    }
  }

  lemma {:induction false} NothingDropped(s: Ledger, events: seq<Event>, records: seq<Record>, k: int)
    requires Initial(s) && Finishes(events) == records && NoneNegative(records, k)
    ensures Billed(Run(s, events).dropped, k) == 0
  {
    forall i | 0 <= i < |events| && events[i].Finish? && events[i].record.keyId == k
      ensures events[i].record.spend >= 0
    {
      FinishIsListed(events, i);
      var j :| 0 <= j < |records| && records[j] == events[i].record;
    }
    NonNegativeSpendIsConserved(s, events, k);
  }
}
