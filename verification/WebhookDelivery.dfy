/** One webhook delivery: its retry state machine, the sender that drives it, and its backoff. */
module WebhookDelivery {
  import opened Prelude

  datatype AllOrNetworks = AllNetworks | NetworkList(networks: seq<string>)
  {
    predicate Contains(network: string) {
      AllNetworks? || network in networks
    }

    predicate IsEmpty() {
      NetworkList? && networks == []
    }
  }

  datatype WebhookConfig = WebhookConfig(
    endpoint: string, networks: AllOrNetworks, maxRetries: Option<nat>, alertOnLowBalances: Option<bool>)

  /** A delivery as stored and copied around; times are milliseconds. */
  datatype Delivery = Delivery(
    id: nat, config: WebhookConfig, eventType: string, payload: string,
    attempts: nat, maxRetries: nat,
    lastAttemptAt: Option<nat>, nextRetryAt: Option<nat>,
    completed: bool, failed: bool, errorMessage: Option<string>)

  function NewDelivery(id: nat, config: WebhookConfig, eventType: string, payload: string): Delivery {
    Delivery(id, config, eventType, payload, 0, if config.maxRetries.Some? then config.maxRetries.value else 3,
             None, None, false, false, None)
  }

  predicate ShouldRetry(d: Delivery) {
    !d.completed && !d.failed && d.attempts < d.maxRetries
  }

  predicate IsReadyForRetry(d: Delivery, now: nat) {
    ShouldRetry(d) && (d.nextRetryAt.Some? ==> now >= d.nextRetryAt.value)
  }

  predicate Terminal(d: Delivery) {
    d.completed || d.failed
  }

  function AttemptMarked(d: Delivery, now: nat, delay: Option<nat>): Delivery {
    var d' := d.(attempts := d.attempts + 1, lastAttemptAt := Some(now));
    if delay.Some? then d'.(nextRetryAt := Some(now + delay.value)) else d'
  }

  function CompletedMarked(d: Delivery): Delivery {
    d.(completed := true, nextRetryAt := None)
  }

  function FailedMarked(d: Delivery, error: string): Delivery {
    d.(failed := true, errorMessage := Some(error), nextRetryAt := None)
  }

  // ---- Backoff --------------------------------------------------------------

  const INITIAL_RETRY_DELAY_MS: nat := 1000
  const MAX_RETRY_DELAY_MS: nat := 120000

  /**
   1000 * 2^attempt, capped. The exponent is the attempt number as a signed
   32-bit integer, so attempts from 2^31 on are negative exponents.
   */
  function CalculateRetryDelay(attempt: nat): nat {
    if attempt < TWO_TO_THE_31 then Min(INITIAL_RETRY_DELAY_MS * Pow2(attempt), MAX_RETRY_DELAY_MS)
    else if attempt < TWO_TO_THE_32 then
      Min(Quotient(INITIAL_RETRY_DELAY_MS, Pow2(TWO_TO_THE_32 - attempt)), MAX_RETRY_DELAY_MS)
    else 0
  }

  lemma {:induction false} Pow2Grows(a: nat, b: nat)
    requires a <= b
    ensures Pow2(a) <= Pow2(b)
  {
    if a < b {
      Pow2Grows(a, b - 1);
    }
  }

  /** One second, doubled with every attempt, and two minutes from the eighth attempt on. */
  lemma RetryDelayIs(attempt: nat)
    requires attempt < 0x8000_0000
    ensures CalculateRetryDelay(attempt) ==
            if attempt < 7 then [1000, 2000, 4000, 8000, 16000, 32000, 64000][attempt] else 120000
  {
    assert Pow2(3) == 8 && Pow2(6) == 64;
    assert Pow2(7) == 2 * Pow2(6);
    if attempt >= 7 {
      Pow2Grows(7, attempt);
    }
  }

  /** From 2^31 on the exponent is negative, and nearly every delay is zero. */
  lemma WrappedDelayIs(attempt: nat)
    requires 0x8000_0000 <= attempt
    ensures CalculateRetryDelay(attempt) ==
            if 0xffff_fff6 < attempt <= 0xffff_ffff then [500, 250, 125, 62, 31, 15, 7, 3, 1][0xffff_ffff - attempt]
            else 0
  {
    if attempt <= 0xffff_ffff {
      var e := TWO_TO_THE_32 - attempt;
      SmallPowers();
      if e >= 10 {
        Pow2Grows(10, e);
        QuotientIsUnique(1000, Pow2(e), 0);
      } else {
        QuotientIsUnique(1000, Pow2(e), [500, 250, 125, 62, 31, 15, 7, 3, 1][e - 1]);
      }
    }
  }

  lemma SmallPowers()
    ensures Pow2(1) == 2 && Pow2(2) == 4 && Pow2(3) == 8 && Pow2(4) == 16 && Pow2(5) == 32
    ensures Pow2(6) == 64 && Pow2(7) == 128 && Pow2(8) == 256 && Pow2(9) == 512 && Pow2(10) == 1024
  {
    assert Pow2(3) == 8;
    assert Pow2(6) == 64;
    assert Pow2(8) == 256;
  }

  /** The documented backoff is a lower bound exactly for the first 2^31 attempts. */
  lemma BackoffHoldsIffNotWrapped(attempt: nat)
    requires attempt < TWO_TO_THE_32
    ensures CalculateRetryDelay(attempt) >= Min(INITIAL_RETRY_DELAY_MS * Pow2(attempt), MAX_RETRY_DELAY_MS)
            <==> attempt < TWO_TO_THE_31
  {
    if attempt >= TWO_TO_THE_31 {
      var p := Pow2(TWO_TO_THE_32 - attempt);
      assert p == 2 * Pow2(TWO_TO_THE_32 - attempt - 1);
      HalvingQuotient(INITIAL_RETRY_DELAY_MS, p);
      assert INITIAL_RETRY_DELAY_MS * Pow2(attempt) >= INITIAL_RETRY_DELAY_MS;
    }
  }

  lemma HalvingQuotient(n: nat, p: nat)
    requires p >= 2
    ensures 2 * Quotient(n, p) <= n
  {
    assert Quotient(n, p) * p >= Quotient(n, p) * 2;
  }

  // ---- Sending --------------------------------------------------------------

  /** What came back: a success status, or an error status or transport failure with its text. */
  datatype Outcome = Delivered | Failure(error: string)

  function FailedAttempt(d: Delivery, error: string, now: nat): Delivery {
    var delay := if ShouldRetry(d) then Some(CalculateRetryDelay(d.attempts)) else None;
    var d' := AttemptMarked(d, now, delay);
    if !ShouldRetry(d') then FailedMarked(d', error) else d'
  }

  /** The delivery after one request started at `now`. */
  function Sent(d: Delivery, outcome: Outcome, now: nat): Delivery {
    if outcome.Delivered? then CompletedMarked(d) else FailedAttempt(d, outcome.error, now)
  }

  /** The working copy of a delivery while it is being sent. */
  class DeliveryCell {
    const id: nat
    const config: WebhookConfig
    const eventType: string
    const payload: string
    const maxRetries: nat
    var attempts: nat
    var lastAttemptAt: Option<nat>
    var nextRetryAt: Option<nat>
    var completed: bool
    var failed: bool
    var errorMessage: Option<string>

    constructor (d: Delivery)
      ensures Record() == d
    {
      id, config, eventType, payload, maxRetries := d.id, d.config, d.eventType, d.payload, d.maxRetries;
      attempts, lastAttemptAt, nextRetryAt := d.attempts, d.lastAttemptAt, d.nextRetryAt;
      completed, failed, errorMessage := d.completed, d.failed, d.errorMessage;
    }

    function Record(): Delivery
      reads this
    {
      Delivery(id, config, eventType, payload, attempts, maxRetries,
               lastAttemptAt, nextRetryAt, completed, failed, errorMessage)
    }

    method MarkAttempt(now: nat, nextRetryDelayMs: Option<nat>)
      modifies this
      ensures Record() == AttemptMarked(old(Record()), now, nextRetryDelayMs)
    {
      attempts := attempts + 1;
      lastAttemptAt := Some(now);
      if nextRetryDelayMs.Some? {
        nextRetryAt := Some(now + nextRetryDelayMs.value);
      }
    }

    method MarkCompleted()
      modifies this
      ensures Record() == CompletedMarked(old(Record()))
    {
      completed := true;
      nextRetryAt := None;
    }

    method MarkFailed(error: string)
      modifies this
      ensures Record() == FailedMarked(old(Record()), error)
    {
      failed := true;
      errorMessage := Some(error);
      nextRetryAt := None;
    }

    method HandleFailedAttempt(error: string, now: nat)
      modifies this
      ensures Record() == FailedAttempt(old(Record()), error, now)
    {
      var nextRetryDelay := None;
      if ShouldRetry(Record()) {
        nextRetryDelay := Some(CalculateRetryDelay(attempts));
      }
      MarkAttempt(now, nextRetryDelay);
      if !ShouldRetry(Record()) {
        MarkFailed(error);
      }
    }
  }

  method SendWebhook(delivery: Delivery, outcome: Outcome, startTime: nat) returns (r: Delivery)
    ensures r == Sent(delivery, outcome, startTime)
  {
    var cell := new DeliveryCell(delivery);
    match outcome {
      case Delivered => cell.MarkCompleted();
      case Failure(error) => cell.HandleFailedAttempt(error, startTime);
    }
    return cell.Record();
  }

  /** A batch: each delivery is sent by its own task, and a task that panics returns nothing. */
  datatype Task = Finished(outcome: Outcome, startTime: nat) | Panicked

  function Survivors(deliveries: seq<Delivery>, tasks: seq<Task>): seq<Delivery>
    requires |deliveries| == |tasks|
  {
    if tasks == [] then []
    else
      var n := |tasks| - 1;
      var before := Survivors(deliveries[..n], tasks[..n]);
      if tasks[n].Panicked? then before
      else before + [Sent(deliveries[n], tasks[n].outcome, tasks[n].startTime)]
  }

  method SendMultipleWebhooks(deliveries: seq<Delivery>, tasks: seq<Task>) returns (results: seq<Delivery>)
    requires |deliveries| == |tasks|
    ensures results == Survivors(deliveries, tasks)
  {
    results := [];
    for i := 0 to |deliveries|
      invariant results == Survivors(deliveries[..i], tasks[..i])
    {
      assert deliveries[..i + 1][..i] == deliveries[..i] && tasks[..i + 1][..i] == tasks[..i];
      match tasks[i] {
        case Finished(outcome, startTime) =>
          var sent := SendWebhook(deliveries[i], outcome, startTime);
          results := results + [sent];
        case Panicked =>
      }
    }
    assert deliveries[..|deliveries|] == deliveries && tasks[..|deliveries|] == tasks;
  }

  function FinishedCount(tasks: seq<Task>): nat {
    if tasks == [] then 0
    else FinishedCount(tasks[..|tasks| - 1]) + if tasks[|tasks| - 1].Finished? then 1 else 0
  }

  /** The results are those of the tasks that finished, in their order: each comes after the finished ones before it. */
  lemma {:induction false} SurvivorAt(deliveries: seq<Delivery>, tasks: seq<Task>, i: nat)
    requires |deliveries| == |tasks| && i < |tasks| && tasks[i].Finished?
    ensures var results := Survivors(deliveries, tasks);
      && |results| == FinishedCount(tasks) > FinishedCount(tasks[..i])
      && results[FinishedCount(tasks[..i])] == Sent(deliveries[i], tasks[i].outcome, tasks[i].startTime)
    decreases |tasks|
  {
    var n := |tasks| - 1;
    SurvivorCount(deliveries[..n], tasks[..n]);
    if i < n {
      SurvivorAt(deliveries[..n], tasks[..n], i);
      assert tasks[..n][..i] == tasks[..i];
    }
  }

  lemma {:induction false} SurvivorCount(deliveries: seq<Delivery>, tasks: seq<Task>)
    requires |deliveries| == |tasks|
    ensures |Survivors(deliveries, tasks)| == FinishedCount(tasks)
    decreases |tasks|
  {
    if tasks != [] {
      SurvivorCount(deliveries[..|tasks| - 1], tasks[..|tasks| - 1]);
    }
  }

  // ---- The retry machine ----------------------------------------------------

  /**
   The state of a delivery with at least one attempt allowed: never both
   completed and failed; failed only with every attempt used; open only with an
   attempt left; and a scheduled retry lies at most the cap after the last one.
   */
  ghost predicate Sound(d: Delivery) {
    && !(d.completed && d.failed)
    && d.attempts <= d.maxRetries
    && (d.failed ==> d.attempts == d.maxRetries)
    && (!d.failed ==> d.attempts < d.maxRetries)
    && (Terminal(d) ==> d.nextRetryAt.None?)
    && (d.nextRetryAt.Some? ==>
          && d.lastAttemptAt.Some? && d.attempts >= 1
          && d.nextRetryAt.value == d.lastAttemptAt.value + CalculateRetryDelay(d.attempts - 1))
  }

  /** Sending a delivery that should be sent keeps it sound and uses exactly one attempt or completes it. */
  lemma SendingKeepsSound(d: Delivery, outcome: Outcome, now: nat)
    requires Sound(d) && ShouldRetry(d)
    ensures var d' := Sent(d, outcome, now);
      && Sound(d')
      && d'.attempts + (if d'.completed then 1 else 0) == d.attempts + 1
      && (d'.completed <==> outcome.Delivered?)
      && (d'.failed <==> outcome.Failure? && d.attempts + 1 == d.maxRetries)
      && (!Terminal(d') ==> d'.nextRetryAt == Some(now + CalculateRetryDelay(d.attempts)))
      && d'.id == d.id && d'.maxRetries == d.maxRetries
  {
  }

  /**
   What sending writes into the record, field by field, for a delivery that should be
   sent: a success completes it; a failure counts the attempt with its start time and
   plans the next one, or, when it was the last, fails the delivery with the error.
   */
  lemma SendingWrites(d: Delivery, outcome: Outcome, now: nat)
    requires !d.completed && !d.failed && d.attempts < d.maxRetries && d.attempts < 0x8000_0000
    ensures var backoff := if d.attempts < 7 then [1000, 2000, 4000, 8000, 16000, 32000, 64000][d.attempts] else 120000;
      Sent(d, outcome, now) ==
      match outcome
      case Delivered => d.(completed := true, nextRetryAt := None)
      case Failure(error) =>
        if d.attempts + 1 < d.maxRetries
        then d.(attempts := d.attempts + 1, lastAttemptAt := Some(now), nextRetryAt := Some(now + backoff))
        else d.(attempts := d.attempts + 1, lastAttemptAt := Some(now), nextRetryAt := None,
                failed := true, errorMessage := Some(error))
  {
    RetryDelayIs(d.attempts);
  }

  /** One look at the delivery by its only worker, and the request it starts if the delivery is ready. */
  datatype Poll = Poll(now: nat, startTime: nat, outcome: Outcome)

  datatype History = History(delivery: Delivery, sends: seq<Poll>)

  function PollOnce(h: History, p: Poll): History {
    if IsReadyForRetry(h.delivery, p.now)
    then History(Sent(h.delivery, p.outcome, p.startTime), h.sends + [p])
    else h
  }

  function PollAll(h: History, polls: seq<Poll>): History
    decreases |polls|
  {
    if polls == [] then h else PollAll(PollOnce(h, polls[0]), polls[1..])
  }

  ghost predicate HistoryOk(h: History) {
    && Sound(h.delivery)
    && |h.sends| == h.delivery.attempts + (if h.delivery.completed then 1 else 0)
    && (forall i :: 0 <= i < |h.sends| - 1 ==>
          h.sends[i].startTime + CalculateRetryDelay(i) <= h.sends[i + 1].now)
    && (|h.sends| > 0 && !Terminal(h.delivery) ==>
          h.delivery.nextRetryAt == Some(h.sends[|h.sends| - 1].startTime + CalculateRetryDelay(|h.sends| - 1)))
  }

  lemma PollKeepsHistory(h: History, p: Poll)
    requires HistoryOk(h)
    ensures HistoryOk(PollOnce(h, p)) && PollOnce(h, p).delivery.maxRetries == h.delivery.maxRetries
  {
    if IsReadyForRetry(h.delivery, p.now) {
      SendingKeepsSound(h.delivery, p.outcome, p.startTime);
    }
  }

  lemma {:induction false} PollsKeepHistory(h: History, polls: seq<Poll>)
    requires HistoryOk(h)
    ensures HistoryOk(PollAll(h, polls)) && PollAll(h, polls).delivery.maxRetries == h.delivery.maxRetries
    decreases |polls|
  {
    if polls != [] {
      PollKeepsHistory(h, polls[0]);
      PollsKeepHistory(PollOnce(h, polls[0]), polls[1..]);
    }
  }

  /**
   Whenever and however often a single worker polls a new delivery with at
   least one attempt: it is sent at most maxRetries times, is never both
   completed and failed, and its n-th retry waits at least the capped backoff
   after the request before it was started.
   */
  lemma SingleWorkerBounds(id: nat, config: WebhookConfig, eventType: string, payload: string, polls: seq<Poll>)
    requires 1 <= NewDelivery(id, config, eventType, payload).maxRetries
    ensures var d0 := NewDelivery(id, config, eventType, payload);
      var h := PollAll(History(d0, []), polls);
      && |h.sends| <= d0.maxRetries
      && !(h.delivery.completed && h.delivery.failed)
      && (h.delivery.failed ==> |h.sends| == d0.maxRetries)
      && (forall i :: 0 <= i < |h.sends| - 1 && i < TWO_TO_THE_31 ==>
            h.sends[i + 1].now >= h.sends[i].startTime + Min(INITIAL_RETRY_DELAY_MS * Pow2(i), MAX_RETRY_DELAY_MS))
  {
    var d0 := NewDelivery(id, config, eventType, payload);
    PollsKeepHistory(History(d0, []), polls);
  }

  /** Each poll comes at least the longest backoff after the start of the one before. */
  predicate Spaced(polls: seq<Poll>) {
    forall i :: 0 < i < |polls| ==> polls[i].now >= polls[i - 1].startTime + MAX_RETRY_DELAY_MS
  }

  lemma DelayIsCapped(attempt: nat)
    ensures CalculateRetryDelay(attempt) <= MAX_RETRY_DELAY_MS
  {
  }

  lemma {:induction false} SpacedPollsFinish(h: History, polls: seq<Poll>)
    requires HistoryOk(h) && Spaced(polls)
    requires polls != [] && h.delivery.nextRetryAt.Some? ==> h.delivery.nextRetryAt.value <= polls[0].now
    requires !Terminal(h.delivery) ==> |polls| >= h.delivery.maxRetries - h.delivery.attempts
    ensures Terminal(PollAll(h, polls).delivery)
    decreases |polls|
  {
    if polls != [] {
      PollKeepsHistory(h, polls[0]);
      var h' := PollOnce(h, polls[0]);
      DelayIsCapped(h.delivery.attempts);
      if !Terminal(h.delivery) {
        SendingKeepsSound(h.delivery, polls[0].outcome, polls[0].startTime);
      }
      assert Spaced(polls[1..]);
      SpacedPollsFinish(h', polls[1..]);
    }
  }

  /** Polled maxRetries times, the longest backoff apart, a delivery ends in exactly one of completed and failed. */
  lemma KeptPolledItEnds(id: nat, config: WebhookConfig, eventType: string, payload: string, polls: seq<Poll>)
    requires NewDelivery(id, config, eventType, payload).maxRetries >= 1
    requires Spaced(polls) && |polls| >= NewDelivery(id, config, eventType, payload).maxRetries
    ensures var d := PollAll(History(NewDelivery(id, config, eventType, payload), []), polls).delivery;
      d.completed != d.failed
  {
    var h := History(NewDelivery(id, config, eventType, payload), []);
    SpacedPollsFinish(h, polls);
    PollsKeepHistory(h, polls);
  }

  /** With no attempt allowed a delivery is never sent, and never becomes terminal either. */
  lemma {:induction false} NoRetriesMeansNeverSent(h: History, polls: seq<Poll>)
    requires h.delivery.maxRetries == 0
    ensures PollAll(h, polls) == h
    decreases |polls|
  {
    if polls != [] {
      NoRetriesMeansNeverSent(h, polls[1..]);
    }
  }
}
