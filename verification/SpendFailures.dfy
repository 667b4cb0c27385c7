/**
 What the admin API and a failing database do to the ledger, what a run keeps when the database works, and the
 workers that run undisturbed.
 */
module SpendFailures {
  import opened SpendLedger

  // ---------- The admin API ----------

  /** A new key starts with its balance and nothing spent; an update sets the balance alone. */
  lemma AdminSetsBalance(s: Ledger, k: int, balance: int)
    ensures k !in s.accounts ==> Next(s, CreateKey(k, balance)).accounts == s.accounts[k := Account(balance, 0)]
    ensures k in s.accounts ==>
              && Next(s, CreateKey(k, balance)) == s
              && Next(s, SetBalance(k, balance)).accounts
                 == s.accounts[k := Account(balance, s.accounts[k].totalSpend)]
    ensures k in Next(s, CreateKey(k, balance)).credit && k !in s.accounts ==>
              Next(s, CreateKey(k, balance)).credit[k] == balance
  {
  }

  // ---------- Failures ----------

  /** No database update or insert of the run fails. */
  ghost predicate NeverFails(events: seq<Event>) {
    forall i :: 0 <= i < |events| && events[i].Step? ==> !events[i].dbFails
  }

  /** Failed debits are those of keys that have no row. */
  ghost predicate OnlyUnknownFail(s: Ledger, known: set<int>) {
    && s.unlogged == [] && known <= s.accounts.Keys
    && forall i :: 0 <= i < |s.failed| ==> s.failed[i].keyId !in known
  }

  lemma EffectWithoutFailure(s: Ledger, w: Worker, known: set<int>)
    requires OnlyUnknownFail(s, known)
    ensures OnlyUnknownFail(Effect(s, w, false), known)
  {
  }

  /** When the database works, every log record ends in the table and every debit of a known key in its row. */
  lemma {:induction false} NothingIsLostWithoutFailure(s: Ledger, events: seq<Event>, r: Record)
    requires Initial(s) && NeverFails(events)
    ensures var t := Run(s, events);
            && OnlyUnknownFail(t, s.accounts.Keys)
            && Times(t.logged, r) == Times(t.logQueue, r) + InBatches(t.workers, r) + Times(t.table, r)
  {
    OnlyUnknownFailInRun(s, events);
    LogIsConserved(s, events, r);
  }

  lemma {:induction false} OnlyUnknownFailInRun(s: Ledger, events: seq<Event>)
    requires Initial(s) && NeverFails(events)
    ensures OnlyUnknownFail(Run(s, events), s.accounts.Keys)
  {
    if events != [] {
      var before, e := Run(s, events[..|events| - 1]), events[|events| - 1];
      OnlyUnknownFailInRun(s, events[..|events| - 1]);
      if e.Step? && e.worker < |before.workers| {
        EffectWithoutFailure(before, before.workers[e.worker], s.accounts.Keys);
      }
    }
  }

  /** A failing insert loses the batch and leaves the table; a failing update loses the total and leaves the rows. */
  lemma FailuresLose(s: Ledger, i: nat, pick: int)
    requires i < |s.workers|
    ensures var w, t := s.workers[i], StepWorker(s, i, pick, true);
            && (w.LogFlushing? && s.logQueue == [] ==> t.unlogged == s.unlogged + w.batch && t.table == s.table)
            && (w.Draining? && !CanReceive(s, w.ch) && w.total > 0 ==>
                  t.failed == s.failed + [Record(w.keyId, w.total)] && t.accounts == s.accounts)
  {
  }

  /** A log flusher that nobody disturbs inserts the whole channel, in its order. */
  lemma {:induction false} UndisturbedLogFlush(s: Ledger, i: nat, batch: seq<Record>)
    requires i < |s.workers| && s.workers[i] == LogFlushing(batch)
    ensures var t := StepTimes(s, i, 0, |s.logQueue| + 1);
            t.logQueue == [] && t.table == s.table + batch + s.logQueue && t.workers == s.workers[i := Done]
    decreases |s.logQueue|
  {
    var t := StepWorker(s, i, 0, false);
    if s.logQueue == [] {
      assert StepTimes(s, i, 0, 1) == StepTimes(t, i, 0, 0);
    } else {
      UndisturbedLogFlush(t, i, batch + [s.logQueue[0]]);
      assert s.logQueue == [s.logQueue[0]] + s.logQueue[1..];
    }
  }

  /** A request without a record registers its key's channel, and is done after two steps. */
  lemma {:induction false} UnbilledRequestOpensChannel(s: Ledger, i: nat, keyId: int)
    requires i < |s.workers| && s.workers[i] == Opening(keyId, false)
    ensures var t := StepTimes(s, i, 0, 2);
            keyId in t.registry && t.workers[i] == Done
    ensures keyId in s.registry ==> StepTimes(s, i, 0, 2).registry == s.registry
  {
    var t := StepWorker(s, i, 0, false);
    assert StepTimes(s, i, 0, 2) == StepTimes(t, i, 0, 1);
    assert StepTimes(t, i, 0, 1) == StepTimes(StepWorker(t, i, 0, false), i, 0, 0);
  }
}
