/**
 Every interleaving of queueing, workers that hold copies, and the sweeper on
 the shared map of deliveries.
 */
module WebhookWorkers {
  import opened Prelude
  import opened WebhookDelivery
  import opened WebhookStore

  /** A worker's batch: copies still to be sent, and copies sent but not yet stored. */
  datatype Worker = Worker(todo: Pending, done: Pending)

  /**
   `known` remembers each identifier ever queued with its number of attempts;
   `sends` counts requests by identifier, and `lost` those whose result was never
   recorded: its send panicked with the request out, or the background pass
   could not take the manager's lock again and threw its results away.
   */
  datatype State = State(
    pending: Pending, workers: map<nat, Worker>,
    known: map<nat, nat>, sends: multiset<nat>, lost: multiset<nat>)

  const START := State(map[], map[], map[], multiset{}, multiset{})

  datatype Event =
    | Queue(id: nat, config: WebhookConfig, eventType: string, payload: string)
    | Snapshot(worker: nat, now: nat)
    | Send(worker: nat, id: nat, outcome: Outcome, startTime: nat)
    | Panic(worker: nat, id: nat, requestOut: bool)
    | StoreBatch(worker: nat)
    | Discard(worker: nat)
    | Sweep

  predicate Enabled(s: State, e: Event) {
    match e
    case Queue(id, _, _, _) => id !in s.known
    case Snapshot(w, _) => w !in s.workers
    case Send(w, id, _, _) => w in s.workers && id in s.workers[w].todo
    case Panic(w, id, _) => w in s.workers && id in s.workers[w].todo
    case StoreBatch(w) => w in s.workers && s.workers[w].todo == map[]
    case Discard(w) => w in s.workers
    case Sweep => true
  }

  function Next(s: State, e: Event): State
    requires Enabled(s, e)
  {
    match e
    case Queue(id, config, eventType, payload) =>
      var d := NewDelivery(id, config, eventType, payload);
      s.(pending := s.pending[id := d], known := s.known[id := d.maxRetries])
    case Snapshot(w, now) =>
      s.(workers := s.workers[w := Worker(Ready(s.pending, now), map[])])
    case Send(w, id, outcome, startTime) =>
      var b := s.workers[w];
      var b' := Worker(b.todo - {id}, b.done[id := Sent(b.todo[id], outcome, startTime)]);
      s.(workers := s.workers[w := b'], sends := s.sends + multiset{id})
    case Panic(w, id, requestOut) =>
      var b := s.workers[w];
      var s' := s.(workers := s.workers[w := Worker(b.todo - {id}, b.done)]);
      if requestOut then s'.(sends := s.sends + multiset{id}, lost := s.lost + multiset{id}) else s'
    case StoreBatch(w) =>
      s.(pending := s.pending + s.workers[w].done, workers := s.workers - {w})
    case Discard(w) =>
      s.(workers := s.workers - {w}, lost := s.lost + multiset(s.workers[w].done.Keys))
    case Sweep => s.(pending := Retained(s.pending))
  }

  /** A request is counted whenever one goes out, and is lost when it panics or its batch is discarded. */
  lemma StepCounts(s: State, e: Event, id: nat)
    requires Enabled(s, e)
    ensures var goesOut := match e
        case Send(_, i, _, _) => i == id
        case Panic(_, i, requestOut) => i == id && requestOut
        case _ => false;
      var isLost := match e
        case Panic(_, i, requestOut) => i == id && requestOut
        case Discard(w) => id in s.workers[w].done
        case _ => false;
      && Next(s, e).sends[id] == s.sends[id] + (if goesOut then 1 else 0)
      && Next(s, e).lost[id] == s.lost[id] + (if isLost then 1 else 0)
  {
  }

  /** Storing a batch one by one is the same as merging it, the identifiers being distinct. */
  lemma StoringIsMerging(pending: Pending, updated: seq<Delivery>, done: Pending)
    requires forall i, j :: 0 <= i < j < |updated| ==> updated[i].id != updated[j].id
    requires forall i :: 0 <= i < |updated| ==> updated[i].id in done && done[updated[i].id] == updated[i]
    requires forall id :: id in done ==> exists i :: 0 <= i < |updated| && updated[i].id == id
    ensures InsertAll(pending, updated) == pending + done
  {
    var a, b := InsertAll(pending, updated), pending + done;
    forall id: nat
      ensures id in a <==> id in b
      ensures id in a ==> a[id] == b[id]
    {
      InsertedKeys(pending, updated, id);
      if id in done {
        var i :| 0 <= i < |updated| && updated[i].id == id;
        var j :| 0 <= j < |updated| && updated[j] == a[id];
        assert i == j;
      } else {
        assert forall i :: 0 <= i < |updated| ==> updated[i].id != id;
      }
    }
  }

  predicate Legal(s: State, events: seq<Event>)
    decreases |events|
  {
    events == [] || (Enabled(s, events[0]) && Legal(Next(s, events[0]), events[1..]))
  }

  function Run(s: State, events: seq<Event>): State
    requires Legal(s, events)
    decreases |events|
  {
    if events == [] then s else Run(Next(s, events[0]), events[1..])
  }

  // ---- Any interleaving -----------------------------------------------------

  /** Sound, or never to be sent at all. */
  ghost predicate StoredOk(id: nat, d: Delivery) {
    && d.id == id
    && if d.maxRetries >= 1 then Sound(d) else d.attempts == 0 && !Terminal(d)
  }

  ghost predicate AllOk(ds: Pending) {
    forall id :: id in ds ==> StoredOk(id, ds[id])
  }

  ghost predicate BatchOk(b: Worker) {
    && AllOk(b.todo) && AllOk(b.done)
    && (forall id :: id in b.todo ==> ShouldRetry(b.todo[id]))
  }

  ghost predicate Inv(s: State) {
    && AllOk(s.pending)
    && (forall w :: w in s.workers ==> BatchOk(s.workers[w]))
  }

  lemma StepKeepsInv(s: State, e: Event)
    requires Inv(s) && Enabled(s, e)
    ensures Inv(Next(s, e))
  {
    match e
    case Send(w, id, outcome, startTime) =>
      assert BatchOk(s.workers[w]);
      SendingKeepsSound(s.workers[w].todo[id], outcome, startTime);
    case Panic(w, id, requestOut) =>
      assert BatchOk(s.workers[w]);
    case StoreBatch(w) =>
      assert BatchOk(s.workers[w]);
    case Discard(w) =>
    case Queue(id, config, eventType, payload) =>
    case Snapshot(w, now) =>
    case Sweep =>
  }

  lemma {:induction false} RunKeepsInv(s: State, events: seq<Event>)
    requires Inv(s) && Legal(s, events)
    ensures Inv(Run(s, events))
    decreases |events|
  {
    if events != [] {
      StepKeepsInv(s, events[0]);
      RunKeepsInv(Next(s, events[0]), events[1..]);
    }
  }

  /**
   In every interleaving, stale write-backs included, a stored delivery with an
   attempt allowed is never both completed and failed, has used at most its
   attempts, is failed only with all of them used, and is open only with one left.
   */
  lemma StoredDeliveriesAreSound(events: seq<Event>, id: nat)
    requires Legal(START, events) && id in Run(START, events).pending
    ensures var d := Run(START, events).pending[id];
      d.maxRetries >= 1 ==>
        && !(d.completed && d.failed)
        && d.attempts <= d.maxRetries
        && (d.failed ==> d.attempts == d.maxRetries)
        && (!Terminal(d) ==> d.attempts < d.maxRetries)
  {
    RunKeepsInv(START, events);
    assert StoredOk(id, Run(START, events).pending[id]);
  }

  /** In one step the only way out of the map is the sweeper, and it takes exactly the terminal deliveries. */
  lemma OnlyTheSweeperRemoves(s: State, e: Event, id: nat)
    requires Enabled(s, e) && id in s.pending
    ensures id !in Next(s, e).pending <==> e.Sweep? && (s.pending[id].completed || s.pending[id].failed)
  {
  }

  /**
   In every interleaving a worker takes along exactly the stored deliveries that are
   due: neither completed nor failed, with an attempt left, and not before the next
   retry that the last failure planned.
   */
  lemma SnapshotTakesTheDue(s: State, worker: nat, now: nat, id: nat)
    requires Enabled(s, Snapshot(worker, now))
    ensures var taken := Next(s, Snapshot(worker, now)).workers[worker].todo;
      && (id in taken ==> id in s.pending && taken[id] == s.pending[id])
      && (id in s.pending ==>
            var d := s.pending[id];
            id in taken <==>
            && !d.completed && !d.failed && d.attempts < d.maxRetries
            && (d.nextRetryAt.Some? ==> d.nextRetryAt.value <= now))
  {
  }

  /** Event k is a sweep that found the delivery stored and terminal. */
  ghost predicate SweptAt(s: State, events: seq<Event>, id: nat, k: nat) {
    && k < |events| && events[k].Sweep? && Legal(s, events[..k])
    && id in Run(s, events[..k]).pending && Terminal(Run(s, events[..k]).pending[id])
  }

  lemma {:induction false} MissingWasSwept(s: State, events: seq<Event>, id: nat)
    requires Legal(s, events) && (id in s.known ==> id in s.pending)
    requires id in Run(s, events).known && id !in Run(s, events).pending
    ensures exists k: nat :: SweptAt(s, events, id, k)
    decreases |events|
  {
    var s' := Next(s, events[0]);
    if id in s.pending && id !in s'.pending {
      OnlyTheSweeperRemoves(s, events[0], id);
      assert SweptAt(s, events, id, 0);
    } else {
      MissingWasSwept(s', events[1..], id);
      var k: nat :| SweptAt(s', events[1..], id, k);
      assert events[..k + 1][1..] == events[1..][..k];
      assert SweptAt(s, events, id, k + 1);
    }
  }

  /** Over every run, a queued delivery that is no longer stored was terminal in the map when a sweep took it. */
  lemma OnlyTerminalDeliveriesLeave(events: seq<Event>, id: nat)
    requires Legal(START, events)
    requires id in Run(START, events).known && id !in Run(START, events).pending
    ensures exists k: nat :: SweptAt(START, events, id, k)
  {
    MissingWasSwept(START, events, id);
  }

  // ---- Stale copies ---------------------------------------------------------

  lemma {:induction false} TraceIsRun(states: seq<State>, events: seq<Event>)
    requires |states| == |events| + 1
    requires forall i :: 0 <= i < |events| ==>
               Enabled(states[i], events[i]) && Next(states[i], events[i]) == states[i + 1]
    ensures Legal(states[0], events) && Run(states[0], events) == states[|events|]
    decreases |events|
  {
    if events != [] {
      assert Next(states[0], events[0]) == states[1..][0];
      TraceIsRun(states[1..], events[1..]);
    }
  }

  /** The states of a run in which two workers copy one delivery and only the first delivers it. */
  function StaleState(d: Delivery, after: nat): State {
    var good, bad := Sent(d, Delivered, 0), Sent(d, Failure("down"), 0);
    var known := map[d.id := d.maxRetries];
    var copy := Worker(map[d.id := d], map[]);
    var sent, missed := Worker(map[], map[d.id := good]), Worker(map[], map[d.id := bad]);
    var one := multiset{d.id};
    match after
    case 0 => START
    case 1 => State(map[d.id := d], map[], known, multiset{}, multiset{})
    case 2 => State(map[d.id := d], map[1 := copy], known, multiset{}, multiset{})
    case 3 => State(map[d.id := d], map[1 := copy, 2 := copy], known, multiset{}, multiset{})
    case 4 => State(map[d.id := d], map[1 := sent, 2 := copy], known, one, multiset{})
    case 5 => State(map[d.id := d], map[1 := sent, 2 := missed], known, one + one, multiset{})
    case 6 => State(map[d.id := good], map[2 := missed], known, one + one, multiset{})
    case _ => State(map[d.id := bad], map[], known, one + one, multiset{})
  }

  function StaleEvents(d: Delivery): seq<Event> {
    [Queue(d.id, d.config, d.eventType, d.payload), Snapshot(1, 0), Snapshot(2, 0),
     Send(1, d.id, Delivered, 0), Send(2, d.id, Failure("down"), 0), StoreBatch(1), StoreBatch(2)]
  }

  lemma OneCopySent(s: State, w: nat, d: Delivery, outcome: Outcome)
    requires w in s.workers && s.workers[w] == Worker(map[d.id := d], map[])
    ensures Next(s, Send(w, d.id, outcome, 0))
            == s.(workers := s.workers[w := Worker(map[], map[d.id := Sent(d, outcome, 0)])],
                  sends := s.sends + multiset{d.id})
  {
    assert map[d.id := d] - {d.id} == map[];
  }


  lemma OneCopyStored(s: State, w: nat, d: Delivery, stored: Delivery)
    requires w in s.workers && s.workers[w] == Worker(map[], map[d.id := d]) && s.pending == map[d.id := stored]
    ensures Next(s, StoreBatch(w)) == s.(pending := map[d.id := d], workers := s.workers - {w})
  {
    assert map[d.id := stored] + map[d.id := d] == map[d.id := d];
  }

  lemma CopiesAreTaken(d: Delivery, i: nat)
    requires d == NewDelivery(d.id, d.config, d.eventType, d.payload) && d.maxRetries >= 1 && i < 3
    ensures Enabled(StaleState(d, i), StaleEvents(d)[i])
    ensures Next(StaleState(d, i), StaleEvents(d)[i]) == StaleState(d, i + 1)
  {
    assert Ready(map[d.id := d], 0) == map[d.id := d];
    var s, s' := Next(StaleState(d, i), StaleEvents(d)[i]), StaleState(d, i + 1);
    assert s.pending == s'.pending && s.workers == s'.workers && s.known == s'.known;
  }

  lemma StaleStep(d: Delivery, i: nat)
    requires d == NewDelivery(d.id, d.config, d.eventType, d.payload) && d.maxRetries >= 1 && i < 7
    ensures Enabled(StaleState(d, i), StaleEvents(d)[i])
    ensures Next(StaleState(d, i), StaleEvents(d)[i]) == StaleState(d, i + 1)
  {
    var s, s' := StaleState(d, i), StaleState(d, i + 1);
    var good, bad := Sent(d, Delivered, 0), Sent(d, Failure("down"), 0);
    if i < 3 {
      CopiesAreTaken(d, i);
    } else if i == 3 {
      OneCopySent(s, 1, d, Delivered);
      assert s.workers[1 := Worker(map[], map[d.id := good])] == s'.workers;
      assert multiset{} + multiset{d.id} == multiset{d.id};
    } else if i == 4 {
      OneCopySent(s, 2, d, Failure("down"));
      assert s.workers[2 := Worker(map[], map[d.id := bad])] == s'.workers;
    } else if i == 5 {
      OneCopyStored(s, 1, good, d);
      assert s.workers - {1} == s'.workers;
    } else {
      OneCopyStored(s, 2, bad, good);
      assert s.workers - {2} == s'.workers;
    }
  }

  /**
   Two workers that copied the same delivery: the first delivers it and stores
   it as completed, the second stores its own failed copy over it, and with a
   retry left the delivery is open again although its receiver has it.
   */
  lemma StaleCopyUndoesCompletion(d: Delivery)
    requires d == NewDelivery(d.id, d.config, d.eventType, d.payload) && d.maxRetries >= 2
    ensures var events := StaleEvents(d);
      && Legal(START, events[..6]) && Run(START, events[..6]).pending == map[d.id := CompletedMarked(d)]
      && Legal(START, events) && d.id in Run(START, events).pending
      && !Terminal(Run(START, events).pending[d.id])
  {
    var states := seq(8, i requires 0 <= i < 8 => StaleState(d, i));
    forall i | 0 <= i < 7
      ensures Enabled(states[i], StaleEvents(d)[i]) && Next(states[i], StaleEvents(d)[i]) == states[i + 1]
    {
      StaleStep(d, i);
    }
    TraceIsRun(states, StaleEvents(d));
    TraceIsRun(states[..7], StaleEvents(d)[..6]);
  }

  // ---- Without exclusivity ------------------------------------------------------

  /** The delivery is stored as new, workers 0 to n - 1 have it, and n requests were made. */
  ghost predicate Requested(s: State, d: Delivery, n: nat) {
    && s.pending == map[d.id := d] && (forall w :: w in s.workers ==> w < n) && s.sends[d.id] >= n
    && exists events: seq<Event> :: Legal(START, events) && Run(START, events) == s
  }

  lemma {:induction false} Append(s: State, events: seq<Event>, e: Event)
    requires Legal(s, events) && Enabled(Run(s, events), e)
    ensures Legal(s, events + [e]) && Run(s, events + [e]) == Next(Run(s, events), e)
    decreases |events|
  {
    var all := events + [e];
    if events == [] {
      assert all == [e] && all[1..] == [];
      assert Legal(Next(s, e), []);
    } else {
      assert all[0] == events[0] && all[1..] == events[1..] + [e];
      Append(Next(s, events[0]), events[1..], e);
    }
  }

  /** A worker that copies the delivery before anybody stores a result sends it once more. */
  lemma OneMoreRequest(s: State, d: Delivery, n: nat)
    requires Requested(s, d, n) && IsReadyForRetry(d, 0)
    ensures var s1, e := Next(s, Snapshot(n, 0)), Send(n, d.id, Delivered, 0);
      Enabled(s1, e) && Requested(Next(s1, e), d, n + 1)
  {
    var events: seq<Event> :| Legal(START, events) && Run(START, events) == s;
    var s1 := Next(s, Snapshot(n, 0));
    assert d.id in Ready(s.pending, 0);
    var e := Send(n, d.id, Delivered, 0);
    var s2 := Next(s1, e);
    Append(START, events, Snapshot(n, 0));
    Append(START, events + [Snapshot(n, 0)], e);
    assert Run(START, events + [Snapshot(n, 0)] + [e]) == s2;
    assert Requested(s2, d, n + 1);
  }

  lemma {:induction false} ManyRequests(d: Delivery, n: nat)
    requires d == NewDelivery(d.id, d.config, d.eventType, d.payload) && d.maxRetries >= 1
    ensures exists s: State :: Requested(s, d, n)
    decreases n
  {
    if n == 0 {
      var e := Queue(d.id, d.config, d.eventType, d.payload);
      Append(START, [], e);
      assert [] + [e] == [e];
      assert Requested(Next(START, e), d, 0);
    } else {
      ManyRequests(d, n - 1);
      var s: State :| Requested(s, d, n - 1);
      OneMoreRequest(s, d, n - 1);
    }
  }

  /**
   Without exclusivity there is no bound: for every n some run requests a new
   delivery, even one with a single attempt allowed, at least n times.
   */
  lemma RequestsAreUnbounded(d: Delivery, n: nat)
    requires d == NewDelivery(d.id, d.config, d.eventType, d.payload) && d.maxRetries >= 1
    ensures exists events: seq<Event> :: Legal(START, events) && Run(START, events).sends[d.id] >= n
  {
    ManyRequests(d, n);
    var s: State :| Requested(s, d, n);
  }

  // ---- When completion is final -----------------------------------------------

  /** No worker holds a copy of the delivery that is still to be sent, or a result that is not success. */
  predicate NoStaleCopy(s: State, id: nat) {
    forall w :: w in s.workers ==>
      id !in s.workers[w].todo && (id in s.workers[w].done ==> s.workers[w].done[id].completed)
  }

  /** Whatever happens later, the delivery is completed as long as it is stored. */
  ghost predicate CompletedForever(s: State, id: nat) {
    forall later: seq<Event> :: Legal(s, later) ==>
      (id in Run(s, later).pending ==> Run(s, later).pending[id].completed)
  }

  ghost predicate Settled(s: State, id: nat) {
    && id in s.known && NoStaleCopy(s, id)
    && (id in s.pending ==> s.pending[id].completed)
  }

  lemma StepKeepsSettled(s: State, e: Event, id: nat)
    requires Settled(s, id) && Enabled(s, e)
    ensures Settled(Next(s, e), id)
  {
  }

  lemma {:induction false} SettledStays(s: State, later: seq<Event>, id: nat)
    requires Settled(s, id) && Legal(s, later)
    ensures id in Run(s, later).pending ==> Run(s, later).pending[id].completed
    decreases |later|
  {
    if later != [] {
      StepKeepsSettled(s, later[0], id);
      SettledStays(Next(s, later[0]), later[1..], id);
    }
  }

  /** The delivery can come to be stored as not completed. */
  ghost predicate CanReopen(s: State, id: nat) {
    exists later: seq<Event> ::
      Legal(s, later) && id in Run(s, later).pending && !Run(s, later).pending[id].completed
  }

  lemma ReopensAfter(s: State, e: Event, id: nat)
    requires Enabled(s, e) && CanReopen(Next(s, e), id)
    ensures CanReopen(s, id)
  {
    var later: seq<Event> :|
      && Legal(Next(s, e), later)
      && id in Run(Next(s, e), later).pending && !Run(Next(s, e), later).pending[id].completed;
    var events := [e] + later;
    assert events[1..] == later;
    assert Legal(s, events) && Run(s, events) == Run(Next(s, e), later);
  }

  /** A worker with an unsuccessful result drops the rest of its batch and stores what it has. */
  lemma {:induction false} HeldFailureReopens(s: State, w: nat, id: nat)
    requires w in s.workers && id in s.workers[w].done && !s.workers[w].done[id].completed
    requires id !in s.workers[w].todo
    ensures CanReopen(s, id)
    decreases |s.workers[w].todo|
  {
    var todo := s.workers[w].todo;
    if todo == map[] {
      var s' := Next(s, StoreBatch(w));
      assert id in s'.pending && !s'.pending[id].completed;
      assert Legal(s', []) && Run(s', []) == s';
      assert CanReopen(s', id);
      ReopensAfter(s, StoreBatch(w), id);
    } else {
      assert todo.Keys != {};
      var other :| other in todo.Keys;
      var e := Panic(w, other, false);
      var s' := Next(s, e);
      assert s'.workers[w].todo.Keys == todo.Keys - {other};
      assert |todo.Keys| == |todo| && |s'.workers[w].todo.Keys| == |s'.workers[w].todo|;
      HeldFailureReopens(s', w, id);
      ReopensAfter(s, e, id);
    }
  }

  /** An unsent copy can still fail, and then its result is stored. */
  lemma UnsentCopyReopens(s: State, w: nat, id: nat)
    requires w in s.workers && id in s.workers[w].todo && !s.workers[w].todo[id].completed
    ensures CanReopen(s, id)
  {
    var e := Send(w, id, Failure("down"), 0);
    HeldFailureReopens(Next(s, e), w, id);
    ReopensAfter(s, e, id);
  }

  ghost predicate KnownInv(s: State) {
    forall id :: id in s.pending ==> id in s.known
  }

  ghost predicate CopiesKnown(s: State) {
    forall w, id :: w in s.workers && (id in s.workers[w].todo || id in s.workers[w].done) ==> id in s.known
  }

  lemma {:induction false} RunKeepsKnown(s: State, events: seq<Event>)
    requires KnownInv(s) && CopiesKnown(s) && Legal(s, events)
    ensures KnownInv(Run(s, events))
    decreases |events|
  {
    if events != [] {
      RunKeepsKnown(Next(s, events[0]), events[1..]);
    }
  }

  /**
   In every reachable state, a completed delivery stays completed whatever
   happens later if and only if no worker holds an unsent copy of it or a result
   of it that is not success.
   */
  lemma CompletionIsFinalIff(events: seq<Event>, id: nat)
    requires Legal(START, events)
    requires id in Run(START, events).pending && Run(START, events).pending[id].completed
    ensures CompletedForever(Run(START, events), id) <==> NoStaleCopy(Run(START, events), id)
  {
    var s := Run(START, events);
    RunKeepsInv(START, events);
    RunKeepsKnown(START, events);
    if NoStaleCopy(s, id) {
      forall later: seq<Event> | Legal(s, later)
        ensures id in Run(s, later).pending ==> Run(s, later).pending[id].completed
      {
        SettledStays(s, later, id);
      }
    } else {
      var w :| w in s.workers
        && (id in s.workers[w].todo || (id in s.workers[w].done && !s.workers[w].done[id].completed));
      assert BatchOk(s.workers[w]);
      if id in s.workers[w].todo {
        UnsentCopyReopens(s, w, id);
      } else {
        HeldFailureReopens(s, w, id);
      }
      assert !CompletedForever(s, id);
    }
  }

  // ---- One worker per delivery at a time ------------------------------------

  predicate Held(s: State, id: nat) {
    exists w :: w in s.workers && (id in s.workers[w].todo || id in s.workers[w].done)
  }

  /** No delivery is copied out while another worker still holds a copy of it. */
  predicate Exclusive(s: State, e: Event) {
    e.Snapshot? ==> forall id :: id in Ready(s.pending, e.now) ==> !Held(s, id)
  }

  predicate AllExclusive(s: State, events: seq<Event>)
    requires Legal(s, events)
    decreases |events|
  {
    events == [] || (Exclusive(s, events[0]) && AllExclusive(Next(s, events[0]), events[1..]))
  }

  /** Attempts used up by the delivery as far as it is recorded. */
  function Spent(d: Delivery): nat {
    d.attempts + if d.completed then 1 else 0
  }

  /** A held copy is the only one, and the stored delivery has not moved since it was taken. */
  ghost predicate HoldingOk(s: State, w: nat, id: nat)
    requires w in s.workers
  {
    var b := s.workers[w];
    && (id in b.todo ==>
          && id !in b.done
          && id in s.pending && s.pending[id] == b.todo[id])
    && (id in b.done ==>
          && id in s.pending && !Terminal(s.pending[id])
          && Spent(b.done[id]) == Spent(s.pending[id]) + 1)
    && (id in b.todo || id in b.done ==>
          forall w' :: w' in s.workers && w' != w ==> id !in s.workers[w'].todo && id !in s.workers[w'].done)
  }

  predicate DoneBy(s: State, w: nat, id: nat) {
    w in s.workers && id in s.workers[w].done
  }

  /** Requests made, as the freshest copy of the delivery accounts for them. */
  ghost predicate AccountOk(s: State, id: nat) {
    && (id in s.pending ==> id in s.known && s.pending[id].maxRetries == s.known[id])
    && (id in s.pending && (forall w :: !DoneBy(s, w, id)) ==>
          s.sends[id] == Spent(s.pending[id]) + s.lost[id])
    && (forall w :: DoneBy(s, w, id) ==>
          && id in s.known && s.workers[w].done[id].maxRetries == s.known[id]
          && s.sends[id] == Spent(s.workers[w].done[id]) + s.lost[id])
    && (id in s.known ==> s.sends[id] <= s.known[id] + s.lost[id])
    && (id !in s.known ==> s.sends[id] == 0 == s.lost[id])
  }

  /** An account is a matter of the identifier's own entries. */
  lemma AccountUnaffected(s: State, s': State, id: nat)
    requires AccountOk(s, id)
    requires Lookup(s'.pending, id) == Lookup(s.pending, id) && Lookup(s'.known, id) == Lookup(s.known, id)
    requires s'.sends[id] == s.sends[id] && s'.lost[id] == s.lost[id]
    requires forall w :: DoneBy(s', w, id) <==> DoneBy(s, w, id)
    requires forall w :: DoneBy(s', w, id) ==> s'.workers[w].done[id] == s.workers[w].done[id]
    ensures AccountOk(s', id)
  {
    assert id in s'.pending <==> Lookup(s'.pending, id).Some?;
    assert id in s.pending <==> Lookup(s.pending, id).Some?;
    assert id in s'.known <==> Lookup(s'.known, id).Some?;
    assert id in s.known <==> Lookup(s.known, id).Some?;
  }

  ghost predicate ExclusiveInv(s: State) {
    && Inv(s)
    && (forall w, id :: w in s.workers ==> HoldingOk(s, w, id))
    && (forall id :: AccountOk(s, id))
  }

  lemma SpentIsBounded(id: nat, d: Delivery)
    requires StoredOk(id, d)
    ensures Spent(d) <= d.maxRetries
  {
  }

  lemma SendKeepsHolding(s: State, w: nat, id: nat, outcome: Outcome, startTime: nat, v: nat, i: nat)
    requires ExclusiveInv(s) && Enabled(s, Send(w, id, outcome, startTime))
    requires v in s.workers
    ensures HoldingOk(Next(s, Send(w, id, outcome, startTime)), v, i)
  {
    assert HoldingOk(s, v, i) && HoldingOk(s, w, id) && BatchOk(s.workers[w]);
    SendingKeepsSound(s.workers[w].todo[id], outcome, startTime);
  }

  lemma SendKeepsAccount(s: State, w: nat, id: nat, outcome: Outcome, startTime: nat, i: nat)
    requires ExclusiveInv(s) && Enabled(s, Send(w, id, outcome, startTime))
    ensures AccountOk(Next(s, Send(w, id, outcome, startTime)), i)
  {
    var s' := Next(s, Send(w, id, outcome, startTime));
    assert AccountOk(s, i);
    if i == id {
      assert HoldingOk(s, w, id) && BatchOk(s.workers[w]);
      assert forall v :: !DoneBy(s, v, id);
      SendingKeepsSound(s.workers[w].todo[id], outcome, startTime);
      SpentIsBounded(id, s'.workers[w].done[id]);
      assert forall v :: DoneBy(s', v, id) ==> v == w;
      assert DoneBy(s', w, id);
    } else {
      AccountUnaffected(s, s', i);
    }
  }

  lemma SendKeepsExclusive(s: State, w: nat, id: nat, outcome: Outcome, startTime: nat)
    requires ExclusiveInv(s) && Enabled(s, Send(w, id, outcome, startTime))
    ensures ExclusiveInv(Next(s, Send(w, id, outcome, startTime)))
  {
    var e := Send(w, id, outcome, startTime);
    StepKeepsInv(s, e);
    forall v, i | v in s.workers
      ensures HoldingOk(Next(s, e), v, i)
    {
      SendKeepsHolding(s, w, id, outcome, startTime, v, i);
    }
    forall i
      ensures AccountOk(Next(s, e), i)
    {
      SendKeepsAccount(s, w, id, outcome, startTime, i);
    }
  }

  lemma PanicKeepsExclusive(s: State, w: nat, id: nat, requestOut: bool)
    requires ExclusiveInv(s) && Enabled(s, Panic(w, id, requestOut))
    ensures ExclusiveInv(Next(s, Panic(w, id, requestOut)))
  {
    var e := Panic(w, id, requestOut);
    var s' := Next(s, e);
    StepKeepsInv(s, e);
    assert HoldingOk(s, w, id);
    forall v, i | v in s'.workers
      ensures HoldingOk(s', v, i)
    {
      assert HoldingOk(s, v, i);
    }
    forall i
      ensures AccountOk(s', i)
    {
      assert AccountOk(s, i);
      assert forall v :: DoneBy(s', v, i) <==> DoneBy(s, v, i);
      if i != id {
        AccountUnaffected(s, s', i);
      }
    }
  }

  lemma StoreKeepsAccount(s: State, w: nat, i: nat)
    requires ExclusiveInv(s) && Enabled(s, StoreBatch(w))
    ensures AccountOk(Next(s, StoreBatch(w)), i)
  {
    var s' := Next(s, StoreBatch(w));
    assert AccountOk(s, i) && HoldingOk(s, w, i);
    if DoneBy(s, w, i) {
      assert s'.pending[i] == s.workers[w].done[i];
      assert forall v :: !DoneBy(s', v, i);
    } else {
      assert forall v :: DoneBy(s', v, i) <==> DoneBy(s, v, i);
      AccountUnaffected(s, s', i);
    }
  }

  lemma StoreKeepsExclusive(s: State, w: nat)
    requires ExclusiveInv(s) && Enabled(s, StoreBatch(w))
    ensures ExclusiveInv(Next(s, StoreBatch(w)))
  {
    var e := StoreBatch(w);
    var s' := Next(s, e);
    StepKeepsInv(s, e);
    forall v, i | v in s'.workers
      ensures HoldingOk(s', v, i)
    {
      assert HoldingOk(s, v, i);
      assert HoldingOk(s, w, i);
    }
    forall i
      ensures AccountOk(s', i)
    {
      StoreKeepsAccount(s, w, i);
    }
  }

  lemma DiscardKeepsExclusive(s: State, w: nat)
    requires ExclusiveInv(s) && Enabled(s, Discard(w))
    ensures ExclusiveInv(Next(s, Discard(w)))
  {
    var e := Discard(w);
    var s' := Next(s, e);
    StepKeepsInv(s, e);
    forall v, i | v in s'.workers
      ensures HoldingOk(s', v, i)
    {
      assert HoldingOk(s, v, i);
    }
    forall i
      ensures AccountOk(s', i)
    {
      assert AccountOk(s, i) && HoldingOk(s, w, i);
      if DoneBy(s, w, i) {
        assert forall v :: !DoneBy(s', v, i);
        assert s'.lost[i] == s.lost[i] + 1;
      } else {
        assert forall v :: DoneBy(s', v, i) <==> DoneBy(s, v, i);
        AccountUnaffected(s, s', i);
      }
    }
  }

  lemma SnapshotKeepsExclusive(s: State, w: nat, now: nat)
    requires ExclusiveInv(s) && Enabled(s, Snapshot(w, now)) && Exclusive(s, Snapshot(w, now))
    ensures ExclusiveInv(Next(s, Snapshot(w, now)))
  {
    var e := Snapshot(w, now);
    var s' := Next(s, e);
    StepKeepsInv(s, e);
    forall v, i | v in s'.workers
      ensures HoldingOk(s', v, i)
    {
      if v != w {
        assert HoldingOk(s, v, i);
      }
      assert i in Ready(s.pending, now) ==> !Held(s, i);
    }
    forall i
      ensures AccountOk(s', i)
    {
      assert AccountOk(s, i);
      assert forall v :: DoneBy(s', v, i) <==> DoneBy(s, v, i);
      AccountUnaffected(s, s', i);
    }
  }

  lemma QueueKeepsExclusive(s: State, e: Event)
    requires ExclusiveInv(s) && Enabled(s, e) && e.Queue?
    ensures ExclusiveInv(Next(s, e))
  {
    var s' := Next(s, e);
    StepKeepsInv(s, e);
    forall v, i | v in s'.workers
      ensures HoldingOk(s', v, i)
    {
      assert HoldingOk(s, v, i);
      assert AccountOk(s, i);
    }
    forall i
      ensures AccountOk(s', i)
    {
      assert AccountOk(s, i);
      assert forall v :: DoneBy(s', v, i) <==> DoneBy(s, v, i);
      if i != e.id {
        AccountUnaffected(s, s', i);
      }
    }
  }

  lemma SweepKeepsExclusive(s: State)
    requires ExclusiveInv(s)
    ensures ExclusiveInv(Next(s, Sweep))
  {
    var s' := Next(s, Sweep);
    StepKeepsInv(s, Sweep);
    forall v, i | v in s'.workers
      ensures HoldingOk(s', v, i)
    {
      assert HoldingOk(s, v, i);
      assert BatchOk(s.workers[v]);
    }
    forall i
      ensures AccountOk(s', i)
    {
      assert AccountOk(s, i);
      assert forall v :: DoneBy(s', v, i) <==> DoneBy(s, v, i);
    }
  }

  lemma {:induction false} ExclusiveRunKeepsInv(s: State, events: seq<Event>)
    requires ExclusiveInv(s) && Legal(s, events) && AllExclusive(s, events)
    ensures ExclusiveInv(Run(s, events))
    decreases |events|
  {
    if events != [] {
      match events[0] {
        case Send(w, id, outcome, startTime) => SendKeepsExclusive(s, w, id, outcome, startTime);
        case Panic(w, id, requestOut) => PanicKeepsExclusive(s, w, id, requestOut);
        case StoreBatch(w) => StoreKeepsExclusive(s, w);
        case Discard(w) => DiscardKeepsExclusive(s, w);
        case Snapshot(w, now) => SnapshotKeepsExclusive(s, w, now);
        case Queue(_, _, _, _) => QueueKeepsExclusive(s, events[0]);
        case Sweep => SweepKeepsExclusive(s);
      }
      ExclusiveRunKeepsInv(Next(s, events[0]), events[1..]);
    }
  }

  /**
   With one worker per delivery at a time, over every run: a delivery is
   requested at most maxRetries times, not counting requests whose result was
   never recorded.
   */
  lemma ExclusiveWorkersBoundSends(events: seq<Event>, id: nat)
    requires Legal(START, events) && AllExclusive(START, events)
    requires id in Run(START, events).known
    ensures var s := Run(START, events); s.sends[id] <= s.known[id] + s.lost[id]
  {
    ExclusiveRunKeepsInv(START, events);
    assert AccountOk(Run(START, events), id);
  }

  /** Nobody holds it, and it is terminal or already swept. */
  ghost predicate Finished(s: State, id: nat) {
    && id in s.known && !Held(s, id)
    && (id in s.pending ==> Terminal(s.pending[id]))
  }

  lemma FinishedStays(s: State, e: Event, id: nat)
    requires Enabled(s, e) && Finished(s, id)
    ensures Finished(Next(s, e), id) && Next(s, e).sends[id] == s.sends[id]
    ensures id in Next(s, e).pending ==> id in s.pending && Next(s, e).pending[id] == s.pending[id]
  {
    var s' := Next(s, e);
    assert forall w :: w in s.workers ==> id !in s.workers[w].todo && id !in s.workers[w].done;
    assert forall w :: w in s'.workers ==> id !in s'.workers[w].todo && id !in s'.workers[w].done;
  }

  /** A delivery that is finished with no copy out stays finished: it is never sent or stored differently again. */
  lemma {:induction false} FinishedIsFinal(s: State, events: seq<Event>, id: nat)
    requires Finished(s, id) && Legal(s, events)
    ensures var s' := Run(s, events);
      && s'.sends[id] == s.sends[id]
      && (id in s'.pending ==> id in s.pending && s'.pending[id] == s.pending[id])
    decreases |events|
  {
    if events != [] {
      FinishedStays(s, events[0], id);
      FinishedIsFinal(Next(s, events[0]), events[1..], id);
    }
  }

  /** Under exclusivity a terminal stored delivery never has a copy out, so completion is final. */
  lemma ExclusiveCompletionIsFinal(events: seq<Event>, later: seq<Event>, id: nat)
    requires Legal(START, events) && AllExclusive(START, events)
    requires id in Run(START, events).pending && Terminal(Run(START, events).pending[id])
    requires Legal(Run(START, events), later)
    ensures var s, s' := Run(START, events), Run(Run(START, events), later);
      && s'.sends[id] == s.sends[id]
      && (id in s'.pending ==> s'.pending[id] == s.pending[id])
  {
    ExclusiveRunKeepsInv(START, events);
    var s := Run(START, events);
    assert AccountOk(s, id);
    forall w | w in s.workers
      ensures id !in s.workers[w].todo && id !in s.workers[w].done
    {
      assert HoldingOk(s, w, id) && BatchOk(s.workers[w]);
    }
    FinishedIsFinal(s, later, id);
  }
}
