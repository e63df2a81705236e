/**
 How many operations a stretch of time holds when requests are served
 concurrently: the window law of serial runs carries over as long as
 reservations happen in the order of their clock readings, and not beyond.
 */
module RateStretch {
  import opened Prelude
  import opened RateWindow
  import opened RateInterleaving
  import Law = RateWindowLaw

  /** The step counts a reservation on this key. */
  predicate Counts(config: Config, key: CacheKey, s: System, e: Event) {
    && e.Act? && e.id in s.flights && s.flights[e.id].pc >= 3
    && KeyOf(s.flights[e.id].request, StepTier(s.flights[e.id].pc)) == key && Configured(config, key)
  }

  function Extend(config: Config, key: CacheKey, s: System, log: seq<Law.Admission>, e: Event): seq<Law.Admission> {
    if Counts(config, key, s, e)
    then
      var at := s.flights[e.id].clock;
      log + [Law.NextAdmission(log, at, AfterReserve(Cached(s.caches, key), at, WindowSecondsFor(config, key)))]
    else log
  }

  /** The reservations on one key, in the order in which they happen, each with the clock reading it used. */
  function Log(config: Config, k: nat, key: CacheKey, s: System, log: seq<Law.Admission>, events: seq<Event>)
    : seq<Law.Admission>
    requires Legal(config, k, s, events)
    decreases |events|
  {
    if events == [] then log
    else
      Log(config, k, key, Next(config, k, s, events[0]), Extend(config, key, s, log, events[0]), events[1..])
  }

  predicate NoGiveBacks(events: seq<Event>) {
    forall i :: 0 <= i < |events| ==> !events[i].GiveBack?
  }

  /** No reservation uses an older clock reading than the one before it. */
  predicate InClockOrder(log: seq<Law.Admission>) {
    forall i, j :: 0 <= i <= j < |log| ==> log[i].at <= log[j].at
  }

  lemma {:induction false} LogGrows(
    config: Config, k: nat, key: CacheKey, s: System, log: seq<Law.Admission>, events: seq<Event>)
    requires Legal(config, k, s, events)
    ensures log <= Log(config, k, key, s, log, events)
    decreases |events|
  {
    if events != [] {
      LogGrows(config, k, key, Next(config, k, s, events[0]), Extend(config, key, s, log, events[0]), events[1..]);
    }
  }

  function LastAt(log: seq<Law.Admission>): nat {
    if log == [] then 0 else log[|log| - 1].at
  }

  /** Other steps leave the counter of the key alone. */
  lemma OtherStepsLeaveTheCounter(config: Config, k: nat, key: CacheKey, s: System, e: Event)
    requires Enabled(k, s, e) && !e.GiveBack? && !Counts(config, key, s, e)
    ensures Cached(Next(config, k, s, e).caches, key) == Cached(s.caches, key)
  {
    if e.Act? && s.flights[e.id].pc >= 3 {
      var f := s.flights[e.id];
      ReserveOnKey(config, s.caches, KeyOf(f.request, StepTier(f.pc)), f.clock, key);
    }
  }

  /** A counted reservation leaves its counter within the bound for interleavings. */
  lemma ReservationIsBounded(config: Config, k: nat, key: CacheKey, s: System, e: Event, limit: nat)
    requires k >= 1 && LimitFor(config, key) == Some(limit) && Inv(config, k, s)
    requires Enabled(k, s, e) && Counts(config, key, s, e)
    ensures var usage := AfterReserve(Cached(s.caches, key), s.flights[e.id].clock, WindowSecondsFor(config, key));
      Cached(Next(config, k, s, e).caches, key) == Some(usage) && usage.usageCount <= limit + k - 1
  {
    ReserveOnKey(config, s.caches, key, s.flights[e.id].clock, key);
    StepKeepsInv(config, k, s, e);
    assert CounterOk(config, k, Next(config, k, s, e), key);
  }

  lemma StepKeepsLedger(
    config: Config, k: nat, key: CacheKey, s: System, log: seq<Law.Admission>, e: Event, limit: nat)
    requires k >= 1 && LimitFor(config, key) == Some(limit) && Inv(config, k, s)
    requires Enabled(k, s, e) && !e.GiveBack?
    requires LastAt(log) <= LastAt(Extend(config, key, s, log, e))
    requires Law.Ledger(log, Cached(s.caches, key), WindowSecondsFor(config, key), limit + k - 1, LastAt(log))
    ensures var log' := Extend(config, key, s, log, e);
      Law.Ledger(
        log', Cached(Next(config, k, s, e).caches, key), WindowSecondsFor(config, key), limit + k - 1, LastAt(log'))
  {
    var w, bound := WindowSecondsFor(config, key), limit + k - 1;
    if Counts(config, key, s, e) {
      var at := s.flights[e.id].clock;
      var cached := Cached(s.caches, key);
      ReservationIsBounded(config, k, key, s, e, limit);
      Law.LedgerHoldsLater(log, cached, w, bound, LastAt(log), at);
      Law.LedgerStep(log, cached, w, bound, at);
    } else {
      OtherStepsLeaveTheCounter(config, k, key, s, e);
    }
  }

  lemma {:induction false} RunKeepsLedger(
    config: Config, k: nat, key: CacheKey, s: System, log: seq<Law.Admission>, events: seq<Event>, limit: nat)
    requires k >= 1 && LimitFor(config, key) == Some(limit) && Inv(config, k, s)
    requires Legal(config, k, s, events) && NoGiveBacks(events)
    requires InClockOrder(Log(config, k, key, s, log, events))
    requires Law.Ledger(log, Cached(s.caches, key), WindowSecondsFor(config, key), limit + k - 1, LastAt(log))
    ensures Law.LogLaw(Log(config, k, key, s, log, events), WindowSecondsFor(config, key), limit + k - 1)
    decreases |events|
  {
    if events != [] {
      var s', log' := Next(config, k, s, events[0]), Extend(config, key, s, log, events[0]);
      LogGrows(config, k, key, s', log', events[1..]);
      assert LastAt(log) <= LastAt(log') by {
        var all := Log(config, k, key, s, log, events);
        assert log' == all[..|log'|];
        if log != [] {
          assert all[|log| - 1] == log'[|log| - 1] == log[|log| - 1];
        }
      }
      StepKeepsLedger(config, k, key, s, log, events[0], limit);
      StepKeepsInv(config, k, s, events[0]);
      RunKeepsLedger(config, k, key, s', log', events[1..], limit);
    }
  }

  /**
   The window law for concurrent requests: with at most k of them in flight, no
   give-backs, and reservations on a key in the order of their clock readings,
   reservations whose readings are at most m windows apart number at most
   (m + 1) * (limit + k - 1).
   */
  lemma ReservationsInAStretch(
    config: Config, k: nat, events: seq<Event>, key: CacheKey, limit: nat, m: nat, i: nat, j: nat)
    requires k >= 1 && LimitFor(config, key) == Some(limit)
    requires Legal(config, k, START, events) && NoGiveBacks(events)
    requires InClockOrder(Log(config, k, key, START, [], events))
    requires i <= j < |Log(config, k, key, START, [], events)|
    requires var log := Log(config, k, key, START, [], events);
      log[j].at - log[i].at <= m * WindowSecondsFor(config, key)
    ensures j - i + 1 <= (m + 1) * (limit + k - 1)
  {
    var w, log := WindowSecondsFor(config, key), Log(config, k, key, START, [], events);
    assert Inv(config, k, START);
    RunKeepsLedger(config, k, key, START, [], events, limit);
    assert Law.PairLaw(log[i], log[j], j - i + 1, w, limit + k - 1);
    Law.StretchArithmetic(log[i], log[j], j - i + 1, w, limit + k - 1, m);
  }

  // ---- One request at a time ---------------------------------------------------

  /** Readings so far are in order, and a reading about to be used is not older than the last. */
  ghost predicate ReadingsOk(s: System, log: seq<Law.Admission>) {
    && |s.flights| <= 1 && InClockOrder(log) && LastAt(log) <= s.now
    && (forall id :: id in s.flights && s.flights[id].armed ==> LastAt(log) <= s.flights[id].clock <= s.now)
  }

  lemma OnlyFlight(flights: map<nat, Flight>, a: nat, b: nat)
    requires |flights| <= 1 && a in flights && b in flights
    ensures a == b
  {
    assert {a, b} <= flights.Keys && |flights.Keys| == |flights|;
    if a != b {
      SubsetIsSmaller({a, b}, flights.Keys);
    }
  }

  lemma ActKeepsReadings(config: Config, key: CacheKey, s: System, log: seq<Law.Admission>, id: nat)
    requires ReadingsOk(s, log) && Enabled(1, s, Act(id))
    ensures ReadingsOk(Next(config, 1, s, Act(id)), Extend(config, key, s, log, Act(id)))
  {
    var s' := Next(config, 1, s, Act(id));
    forall other | other in s'.flights
      ensures !s'.flights[other].armed
    {
      OnlyFlight(s.flights, id, other);
    }
    SubsetIsSmaller(s'.flights.Keys, s.flights.Keys);
    assert |s'.flights.Keys| == |s'.flights| && |s.flights.Keys| == |s.flights|;
  }

  lemma StepKeepsReadings(config: Config, key: CacheKey, s: System, log: seq<Law.Admission>, e: Event)
    requires ReadingsOk(s, log) && Enabled(1, s, e)
    ensures ReadingsOk(Next(config, 1, s, e), Extend(config, key, s, log, e))
  {
    var s' := Next(config, 1, s, e);
    assert |s'.flights.Keys| == |s'.flights| && |s.flights.Keys| == |s.flights|;
    match e
    case Act(id) => ActKeepsReadings(config, key, s, log, id);
    case Arrive(id, _) => assert s'.flights.Keys == s.flights.Keys + {id};
    case ReadClock(_) => assert s'.flights.Keys == s.flights.Keys;
    case Abandon(_) => SubsetIsSmaller(s'.flights.Keys, s.flights.Keys);
    case Tick(_) =>
    case GiveBack(_) =>
  }

  lemma {:induction false} OneAtATimeIsInOrder(
    config: Config, key: CacheKey, s: System, log: seq<Law.Admission>, events: seq<Event>)
    requires ReadingsOk(s, log) && Legal(config, 1, s, events)
    ensures InClockOrder(Log(config, 1, key, s, log, events))
    decreases |events|
  {
    if events != [] {
      StepKeepsReadings(config, key, s, log, events[0]);
      OneAtATimeIsInOrder(
        config, key, Next(config, 1, s, events[0]), Extend(config, key, s, log, events[0]), events[1..]);
    }
  }

  /** One request at a time keeps the law, whatever the configuration and however long a step takes. */
  lemma OneAtATimeKeepsTheLaw(
    config: Config, events: seq<Event>, key: CacheKey, limit: nat, m: nat, i: nat, j: nat)
    requires LimitFor(config, key) == Some(limit)
    requires Legal(config, 1, START, events) && NoGiveBacks(events)
    requires i <= j < |Log(config, 1, key, START, [], events)|
    requires var log := Log(config, 1, key, START, [], events);
      log[j].at - log[i].at <= m * WindowSecondsFor(config, key)
    ensures j - i + 1 <= (m + 1) * limit
  {
    assert ReadingsOk(START, []);
    OneAtATimeIsInOrder(config, key, START, [], events);
    ReservationsInAStretch(config, 1, events, key, limit, m, i, j);
  }
}
