/** From a finished exchange to what it costs: logSpendMiddleware and the two spend records it queues. */
module Billing {
  import opened Basics
  import opened Config
  import opened Retry
  import opened Usage
  import Spend = SpendLedger

  /** Per token, of a model group; None when the group has no price. */
  datatype Price = Price(input: int, output: int)

  predicate HasTokens(t: Tokens) {
    t.total > 0 || t.prompt > 0 || t.completion > 0
  }

  function Cost(t: Tokens, price: Price): int {
    price.input * t.prompt + price.output * t.completion
  }

  /** CreateSpendRecord, on a request whose key is known. */
  method CreateSpendRecord(payload: Option<Payload>, keyId: int, price: Option<Price>)
    returns (record: Option<Spend.Record>)
    ensures record == Bill(payload, Some(keyId), price)
    ensures record.Some? <==>
              && payload.Some? && price.Some?
              && (payload.value.usage.total > 0 || payload.value.usage.prompt > 0 || payload.value.usage.completion > 0)
    ensures record.Some? ==>
              && record.value.keyId == keyId
              && record.value.spend
                 == price.value.input * payload.value.usage.prompt + price.value.output * payload.value.usage.completion
  {
    if payload.None? {
      return None;
    }
    var usage := payload.value.usage;
    if usage.total <= 0 && usage.prompt <= 0 && usage.completion <= 0 {
      return None;
    }
    if price.None? {
      return None;
    }
    var amount := price.value.input * usage.prompt + price.value.output * usage.completion;
    return Some(Spend.Record(keyId, amount));
  }

  /** The record of a request, if it gets one. */
  function Bill(payload: Option<Payload>, keyId: Option<int>, price: Option<Price>): Option<Spend.Record> {
    if payload.Some? && keyId.Some? && price.Some? && HasTokens(payload.value.usage) then
      Some(Spend.Record(keyId.value, Cost(payload.value.usage, price.value)))
    else None
  }

  /** The bill of a key for some usage of a priced group. */
  function BillFor(usage: Tokens, keyId: int, price: Price): Option<Spend.Record> {
    Bill(Some(Payload("", usage)), Some(keyId), Some(price))
  }

  /** Usage is billed exactly when one of its counts is positive; only then, and only to that key. */
  lemma BilledUsage(usage: Tokens, keyId: int, price: Price)
    ensures BillFor(usage, keyId, price).None? <==> usage.total <= 0 && usage.prompt <= 0 && usage.completion <= 0
    ensures BillFor(usage, keyId, price).Some? ==> BillFor(usage, keyId, price).value.keyId == keyId
  {
  }

  /** A total costs nothing by itself, a prompt token the input price and a completion token the output price. */
  lemma {:induction false} EachTokenHasItsPrice(usage: Tokens, keyId: int, price: Price)
    requires BillFor(usage, keyId, price).Some?
    ensures BillFor(Tokens(0, 0, 1), keyId, price) == Some(Spend.Record(keyId, 0))
    ensures var spend := BillFor(usage, keyId, price).value.spend;
            && (BillFor(usage.(prompt := usage.prompt + 1), keyId, price).Some? ==>
                  BillFor(usage.(prompt := usage.prompt + 1), keyId, price).value.spend == spend + price.input)
            && (BillFor(usage.(completion := usage.completion + 1), keyId, price).Some? ==>
                  BillFor(usage.(completion := usage.completion + 1), keyId, price).value.spend == spend + price.output)
            && (BillFor(usage.(total := usage.total + 1), keyId, price).Some? ==>
                  BillFor(usage.(total := usage.total + 1), keyId, price).value.spend == spend)
  {
    assert price.input * (usage.prompt + 1) == price.input * usage.prompt + price.input;
    assert price.output * (usage.completion + 1) == price.output * usage.completion + price.output;
  }

  /** logSpendMiddleware: the record sent to the log channel, and the amount sent to the key's own channel. */
  method LogSpend(path: string, payload: Option<Payload>, keyId: Option<int>, price: Option<Price>)
    returns (record: Option<Spend.Record>, amount: Option<int>)
    ensures record == if path == "/v1/models" then None else Bill(payload, keyId, price)
    ensures amount == if record.Some? then Some(record.value.spend) else None
  {
    if path == "/v1/models" || payload.None? || keyId.None? {
      return None, None;
    }
    record := CreateSpendRecord(payload, keyId.value, price);
    amount := if record.Some? then Some(record.value.spend) else None;
  }

  /**
   For every behaviour of the upstreams, an exchange is billed for its last attempt or not at all, and only
   if that attempt succeeded and the client was sent no error.
   */
  lemma BilledForTheLastAttempt(q: Request, candidates: seq<ModelConfig>, oracle: nat -> Upstream,
                                keyId: Option<int>, price: Option<Price>)
    requires candidates != []
    ensures var x := Handled(q, candidates, oracle);
            var n := |x.attempts|;
            && 1 <= n <= |Schedule(candidates)|
            && var m, u := Schedule(candidates)[n - 1], oracle(n - 1);
            && Bill(x.reply.payload, keyId, price)
               == (if Forward(q, m, u).error.None? then Bill(Earned(q, m, u), keyId, price) else None)
            && (Bill(x.reply.payload, keyId, price).Some? ==> x.reply.errors == [])
  {
    OneAnswer(q, candidates, oracle);
    var x := Handled(q, candidates, oracle);
    var n := |x.attempts|;
    if Retries(q, Schedule(candidates), oracle, n - 1) {
      RetryIsSilent(q, Schedule(candidates)[n - 1], oracle(n - 1), UNTOUCHED);
    }
  }

  predicate BreaksOff(q: Request, u: Upstream) {
    u.Responded? && u.status < 500 && u.sse && q.stream && (u.broken || !Fits(u.room, |u.body|))
  }

  /** A stream that broke off is not billed, whatever usage it had reported and however much was relayed. */
  lemma BrokenStreamsAreFree(q: Request, candidates: seq<ModelConfig>, oracle: nat -> Upstream,
                             keyId: Option<int>, price: Option<Price>)
    requires candidates != []
    requires var n := |Handled(q, candidates, oracle).attempts|;
             n >= 1 && BreaksOff(q, oracle(n - 1))
    ensures Bill(Handled(q, candidates, oracle).reply.payload, keyId, price).None?
  {
    BilledForTheLastAttempt(q, candidates, oracle, keyId, price);
  }

  // ---------- The bills of many requests ----------

  /** Token counts and prices that are not negative never make a negative bill. */
  lemma {:induction false} BillIsNotNegative(payload: Option<Payload>, keyId: Option<int>, price: Option<Price>)
    requires payload.Some? ==> payload.value.usage.prompt >= 0 && payload.value.usage.completion >= 0
    requires price.Some? ==> price.value.input >= 0 && price.value.output >= 0
    ensures var bill := Bill(payload, keyId, price);
            bill.Some? ==> bill.value.spend >= 0
  {
    if Bill(payload, keyId, price).Some? {
      assert price.value.input * payload.value.usage.prompt >= 0;
      assert price.value.output * payload.value.usage.completion >= 0;
    }
  }

  datatype Served = Served(
    q: Request,
    candidates: seq<ModelConfig>,
    oracle: nat -> Upstream,
    keyId: Option<int>,
    price: Option<Price>)

  function BillOf(r: Served): Option<Spend.Record> {
    Bill(Handled(r.q, r.candidates, r.oracle).reply.payload, r.keyId, r.price)
  }

  /** Prices are not negative, and neither are the token counts any attempt can earn. */
  ghost predicate Honest(r: Served) {
    && r.candidates != []
    && (r.price.Some? ==> r.price.value.input >= 0 && r.price.value.output >= 0)
    && forall m, k: nat :: m in r.candidates ==> EarnsTokens(r.q, m, r.oracle(k))
  }

  predicate EarnsTokens(q: Request, m: ModelConfig, u: Upstream) {
    var earned := Earned(q, m, u);
    earned.Some? ==> earned.value.usage.prompt >= 0 && earned.value.usage.completion >= 0
  }

  lemma HonestBill(r: Served)
    requires Honest(r)
    ensures BillOf(r).Some? ==> BillOf(r).value.spend >= 0
  {
    BilledForTheLastAttempt(r.q, r.candidates, r.oracle, r.keyId, r.price);
    var n := |Handled(r.q, r.candidates, r.oracle).attempts|;
    var m, u := Schedule(r.candidates)[n - 1], r.oracle(n - 1);
    ScheduledIsCandidate(r.candidates, n - 1);
    assert EarnsTokens(r.q, m, u);
    BillIsNotNegative(Earned(r.q, m, u), r.keyId, r.price);
  }

  /** The bills of the served requests, in the order in which they end. */
  function Bills(served: seq<Served>): seq<Spend.Record> {
    if served == [] then []
    else
      var before, bill := Bills(served[..|served| - 1]), BillOf(served[|served| - 1]);
      if bill.Some? then before + [bill.value] else before
  }

  lemma {:induction false} BillIsServed(served: seq<Served>, record: Spend.Record)
    requires record in Bills(served)
    ensures exists j :: 0 <= j < |served| && BillOf(served[j]) == Some(record)
  {
    var last := |served| - 1;
    if BillOf(served[last]) != Some(record) {
      BillIsServed(served[..last], record);
      var j :| 0 <= j < last && BillOf(served[..last][j]) == Some(record);
      assert served[j] == served[..last][j];
    }
  }

  // ---------- What a served request costs, read off its upstreams ----------

  /** The round that decides a request: the first one that may not be retried, or none. */
  function DecidingRound(r: Served): nat {
    Deciding(r.q, Schedule(r.candidates), r.oracle)
  }

  /** The payload of that round's upstream, if the round succeeds. */
  function Won(r: Served): Option<Payload> {
    var schedule, n := Schedule(r.candidates), DecidingRound(r);
    if n < |schedule| && Forward(r.q, schedule[n], r.oracle(n)).error.None? then Earned(r.q, schedule[n], r.oracle(n))
    else None
  }

  /** What the request costs a key: the priced tokens of that payload, if it has any. */
  function CostTo(r: Served, k: int): int {
    var won := Won(r);
    if r.keyId == Some(k) && r.price.Some? && won.Some? && HasTokens(won.value.usage)
    then Cost(won.value.usage, r.price.value)
    else 0
  }

  function Costs(served: seq<Served>, k: int): int {
    if served == [] then 0 else Costs(served[..|served| - 1], k) + CostTo(served[|served| - 1], k)
  }

  /** The tokens the request is billed for: those its deciding round won, if any of the counts is positive. */
  function TokensWon(r: Served, k: int): Tokens {
    var won := Won(r);
    if r.keyId == Some(k) && won.Some?
       && (won.value.usage.total > 0 || won.value.usage.prompt > 0 || won.value.usage.completion > 0)
    then won.value.usage
    else NO_TOKENS
  }

  function PromptTokens(served: seq<Served>, k: int): int {
    if served == [] then 0 else PromptTokens(served[..|served| - 1], k) + TokensWon(served[|served| - 1], k).prompt
  }

  function CompletionTokens(served: seq<Served>, k: int): int {
    if served == [] then 0
    else CompletionTokens(served[..|served| - 1], k) + TokensWon(served[|served| - 1], k).completion
  }

  /** Every request of the key has that price. */
  ghost predicate PricedAt(served: seq<Served>, k: int, price: Price) {
    forall j :: 0 <= j < |served| && served[j].keyId == Some(k) ==> served[j].price == Some(price)
  }

  lemma {:induction false} OneCost(r: Served, k: int, price: Price)
    requires r.keyId == Some(k) ==> r.price == Some(price)
    ensures CostTo(r, k) == price.input * TokensWon(r, k).prompt + price.output * TokensWon(r, k).completion
  {
  }

  lemma AddCosts(price: Price, p: int, c: int, moreP: int, moreC: int)
    ensures (price.input * p + price.output * c) + (price.input * moreP + price.output * moreC)
            == price.input * (p + moreP) + price.output * (c + moreC)
  {
    assert price.input * (p + moreP) == price.input * p + price.input * moreP;
    assert price.output * (c + moreC) == price.output * c + price.output * moreC;
  }

  /** At one price, a key's requests cost the input price of their prompts and the output price of their completions. */
  lemma {:induction false} CostsAreTokens(served: seq<Served>, k: int, price: Price)
    requires PricedAt(served, k, price)
    ensures Costs(served, k) == price.input * PromptTokens(served, k) + price.output * CompletionTokens(served, k)
  {
    if served != [] {
      var init, r := served[..|served| - 1], served[|served| - 1];
      CostsAreTokens(init, k, price);
      OneCost(r, k, price);
      var won := TokensWon(r, k);
      AddCosts(price, PromptTokens(init, k), CompletionTokens(init, k), won.prompt, won.completion);
    }
  }

  lemma {:induction false} NoCandidatesNoBill(r: Served)
    requires r.candidates == []
    ensures BillOf(r).None? && Won(r).None?
  {
    assert Schedule(r.candidates) == [];
  }

  /** The attempts of an exchange are the rounds up to the deciding one. */
  lemma {:induction false} AttemptsReachDecision(r: Served)
    requires r.candidates != [] && DecidingRound(r) < |Schedule(r.candidates)|
    ensures |Handled(r.q, r.candidates, r.oracle).attempts| == DecidingRound(r) + 1
  {
    DecidedExchange(r.q, r.candidates, r.oracle, DecidingRound(r));
  }

  /** A request is billed for what its deciding round won, and otherwise not at all. */
  lemma {:induction false} BillIsWon(r: Served)
    ensures BillOf(r) == Bill(Won(r), r.keyId, r.price)
  {
    if r.candidates == [] {
      NoCandidatesNoBill(r);
    } else {
      BilledForTheLastAttempt(r.q, r.candidates, r.oracle, r.keyId, r.price);
      if DecidingRound(r) < |Schedule(r.candidates)| {
        AttemptsReachDecision(r);
      } else {
        ExhaustedExchange(r.q, r.candidates, r.oracle);
      }
    }
  }

  /** The bills of the served requests add up to what their deciding rounds cost. */
  lemma {:induction false} BillsAreCosts(served: seq<Served>, k: int)
    ensures Spend.Billed(Bills(served), k) == Costs(served, k)
  {
    if served != [] {
      var init, r := served[..|served| - 1], served[|served| - 1];
      BillsAreCosts(init, k);
      BillIsWon(r);
      if BillOf(r).Some? {
        Spend.BilledAppend(Bills(init), BillOf(r).value, k);
      }
    }
  }

  // ---------- Whole runs ----------

  /**
   From upstream answers to key balances. The finished requests of a run are the bills of the served ones,
   each once and in order; then, whatever the upstreams do and however requests and flushes interleave, what
   the deciding rounds of those requests cost a key is what its row has been debited, plus what waits to be
   logged, waits in its channel or is carried between two steps, plus what failed updates and non-positive
   totals lost.
   */
  lemma {:induction false} BillsReachBalances(s: Spend.Ledger, events: seq<Spend.Event>, served: seq<Served>, k: int)
    requires Spend.Initial(s) && Spend.Finishes(events) == Bills(served)
    ensures var after := Spend.Run(s, events);
            Costs(served, k)
            == Spend.TotalSpend(after, k) - Spend.TotalSpend(s, k)
               + Spend.Waiting(after.workers, k) + Spend.Pending(after, k) + Spend.AllCarried(after.workers, k)
               + Spend.Billed(after.failed, k) + Spend.Billed(after.dropped, k)
  {
    BillsAreCosts(served, k);
    Spend.FinishedSpendIsConserved(s, events, k);
  }

  /** The requests of one key have prices and counts that are not negative. */
  ghost predicate AllHonest(served: seq<Served>, k: int) {
    forall j :: 0 <= j < |served| && served[j].keyId == Some(k) ==> Honest(served[j])
  }

  /** Then only failed updates lose anything of that key. */
  lemma {:induction false} HonestBillsDropNothing(s: Spend.Ledger, events: seq<Spend.Event>,
                                                 served: seq<Served>, k: int)
    requires Spend.Initial(s) && Spend.Finishes(events) == Bills(served) && AllHonest(served, k)
    ensures Spend.Billed(Spend.Run(s, events).dropped, k) == 0
  {
    forall i | 0 <= i < |events| && events[i].Finish? && events[i].record.keyId == k
      ensures events[i].record.spend >= 0
    {
      Spend.FinishIsListed(events, i);
      BillIsServed(served, events[i].record);
      var j :| 0 <= j < |served| && BillOf(served[j]) == Some(events[i].record);
      HonestBill(served[j]);
    }
    Spend.NonNegativeSpendIsConserved(s, events, k);
  }

  /**
   Once every request and flush has run to its end and the key's channel is empty, the key has been debited by
   exactly what its requests cost, less what failed updates lost.
   */
  lemma {:induction false} QuietBillsAreDebited(s: Spend.Ledger, events: seq<Spend.Event>, served: seq<Served>, k: int)
    requires Spend.Initial(s) && Spend.Finishes(events) == Bills(served)
    requires Spend.Quiet(Spend.Run(s, events), k) && AllHonest(served, k)
    ensures var after := Spend.Run(s, events);
            Spend.TotalSpend(after, k)
            == Spend.TotalSpend(s, k) + Costs(served, k) - Spend.Billed(after.failed, k)
  {
    BillsReachBalances(s, events, served, k);
    HonestBillsDropNothing(s, events, served, k);
    Spend.QuietCarriesNothing(Spend.Run(s, events).workers, k);
  }

  /**
   End to end, when all requests of a key have one price: a run that has come to rest has debited the key the
   input price for every prompt token and the output price for every completion token its deciding rounds won,
   less what failed updates lost.
   */
  lemma {:induction false} QuietRunDebitsTokens(s: Spend.Ledger, events: seq<Spend.Event>, served: seq<Served>,
                                               k: int, price: Price)
    requires Spend.Initial(s) && Spend.Finishes(events) == Bills(served)
    requires Spend.Quiet(Spend.Run(s, events), k) && AllHonest(served, k) && PricedAt(served, k, price)
    ensures var after := Spend.Run(s, events);
            Spend.TotalSpend(after, k)
            == Spend.TotalSpend(s, k)
               + price.input * PromptTokens(served, k) + price.output * CompletionTokens(served, k)
               - Spend.Billed(after.failed, k)
  {
    QuietBillsAreDebited(s, events, served, k);
    CostsAreTokens(served, k, price);
  }
}
