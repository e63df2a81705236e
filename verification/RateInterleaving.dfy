/**
 Concurrent requests against the rate limiter. Each of the six steps of a
 request reads the clock first and takes the cache lock afterwards, so other
 requests can act between a step's clock reading and its locked action.
 */
module RateInterleaving {
  import opened Prelude
  import opened RateWindow

  /** A request between its first check and its last reservation; `clock` is its latest reading. */
  datatype Flight = Flight(request: Request, pc: nat, clock: nat, armed: bool)

  datatype System = System(caches: Caches, now: nat, flights: map<nat, Flight>)

  datatype Event =
    | Arrive(id: nat, request: Request)
    | ReadClock(id: nat)
    | Act(id: nat)
    | Abandon(id: nat)
    | Tick(seconds: nat)
    | GiveBack(key: CacheKey)

  /** The order of the six steps: three checks, then three reservations. */
  function StepTier(pc: nat): Tier {
    if pc == 0 || pc == 5 then RelayerTier else if pc == 1 || pc == 4 then GlobalTier else UserTier
  }

  function CheckStep(tier: Tier): nat {
    match tier
    case RelayerTier => 0
    case GlobalTier => 1
    case UserTier => 2
  }

  function ReserveStep(tier: Tier): nat {
    match tier
    case UserTier => 3
    case GlobalTier => 4
    case RelayerTier => 5
  }

  /** At most k requests are in flight; a step acts only after its clock reading. */
  predicate Enabled(k: nat, s: System, e: Event) {
    match e
    case Arrive(id, _) => id !in s.flights && |s.flights| < k
    case ReadClock(id) => id in s.flights && !s.flights[id].armed
    case Act(id) => id in s.flights && s.flights[id].armed
    case Abandon(id) => id in s.flights
    case Tick(_) => true
    case GiveBack(_) => true
  }

  function Next(config: Config, k: nat, s: System, e: Event): System
    requires Enabled(k, s, e)
  {
    match e
    case Arrive(id, request) => s.(flights := s.flights[id := Flight(request, 0, 0, false)])
    case ReadClock(id) => s.(flights := s.flights[id := s.flights[id].(clock := s.now, armed := true)])
    case Act(id) => Acted(config, s, id)
    case Abandon(id) => s.(flights := s.flights - {id})
    case Tick(seconds) => s.(now := s.now + seconds)
    case GiveBack(key) => s.(caches := Revert(config, s.caches, key))
  }

  function Acted(config: Config, s: System, id: nat): System
    requires id in s.flights
  {
    var f := s.flights[id];
    var key := KeyOf(f.request, StepTier(f.pc));
    var onward := s.flights[id := f.(pc := f.pc + 1, armed := false)];
    if f.pc < 3 then
      if PassesCheck(config, s.caches, key, f.clock) then s.(flights := onward) else s.(flights := s.flights - {id})
    else
      var caches := Reserve(config, s.caches, key, f.clock);
      s.(caches := caches, flights := if f.pc < 5 then onward else s.flights - {id})
  }

  predicate Legal(config: Config, k: nat, s: System, events: seq<Event>)
    decreases |events|
  {
    events == [] || (Enabled(k, s, events[0]) && Legal(config, k, Next(config, k, s, events[0]), events[1..]))
  }

  function Run(config: Config, k: nat, s: System, events: seq<Event>): System
    requires Legal(config, k, s, events)
    decreases |events|
  {
    if events == [] then s else Run(config, k, Next(config, k, s, events[0]), events[1..])
  }

  const START := System(EMPTY_CACHES, 0, map[])

  // ---- A request alone is served as a whole ---------------------------------

  /** n steps of one request, each with its clock reading. */
  function Steps(id: nat, n: nat): seq<Event> {
    if n == 0 then [] else [ReadClock(id), Act(id)] + Steps(id, n - 1)
  }

  /** The system with one more request in flight. */
  function WithFlight(s: System, caches: Caches, id: nat, f: Flight): System {
    s.(caches := caches, flights := s.flights[id := f])
  }

  /** These events can happen, and lead there. */
  predicate Leads(config: Config, k: nat, s: System, events: seq<Event>, s': System) {
    Legal(config, k, s, events) && Run(config, k, s, events) == s'
  }

  lemma StepsUnfold(config: Config, k: nat, s: System, id: nat, n: nat, s': System)
    requires n >= 1 && id in s.flights && !s.flights[id].armed
    requires Leads(config, k, Next(config, k, Next(config, k, s, ReadClock(id)), Act(id)), Steps(id, n - 1), s')
    ensures Leads(config, k, s, Steps(id, n), s')
  {
    var events := Steps(id, n);
    var s1 := Next(config, k, s, ReadClock(id));
    assert events[0] == ReadClock(id) && events[1..][0] == Act(id) && events[1..][1..] == Steps(id, n - 1);
    assert Legal(config, k, s1, events[1..]) == Legal(config, k, Next(config, k, s1, Act(id)), Steps(id, n - 1));
  }

  /** Where one reading and one action of a flight lead, with nobody else acting. */
  function AfterStep(config: Config, s: System, caches: Caches, id: nat, f: Flight): System {
    var key := KeyOf(f.request, StepTier(f.pc));
    var onward := f.(pc := f.pc + 1, clock := s.now);
    if f.pc < 3 then
      if PassesCheck(config, caches, key, s.now) then WithFlight(s, caches, id, onward) else s.(caches := caches)
    else
      var reserved := Reserve(config, caches, key, s.now);
      if f.pc < 5 then WithFlight(s, reserved, id, onward) else s.(caches := reserved)
  }

  lemma StepAlone(config: Config, k: nat, s: System, caches: Caches, id: nat, f: Flight, n: nat, s': System)
    requires id !in s.flights && !f.armed && n >= 1
    requires Leads(config, k, AfterStep(config, s, caches, id, f), Steps(id, n - 1), s')
    ensures Leads(config, k, WithFlight(s, caches, id, f), Steps(id, n), s')
  {
    var before := WithFlight(s, caches, id, f);
    assert s.flights[id := f][id := f.(clock := s.now, armed := true)] - {id} == s.flights;
    assert Next(config, k, Next(config, k, before, ReadClock(id)), Act(id)) == AfterStep(config, s, caches, id, f);
    StepsUnfold(config, k, before, id, n, s');
  }

  lemma CheckAlone(config: Config, k: nat, s: System, id: nat, f: Flight, n: nat, s': System)
    requires id !in s.flights && !f.armed && f.pc < 3
    requires PassesCheck(config, s.caches, KeyOf(f.request, StepTier(f.pc)), s.now)
    requires Leads(config, k, WithFlight(s, s.caches, id, f.(pc := f.pc + 1, clock := s.now)), Steps(id, n), s')
    ensures Leads(config, k, WithFlight(s, s.caches, id, f), Steps(id, n + 1), s')
  {
    StepAlone(config, k, s, s.caches, id, f, n + 1, s');
  }

  lemma ReserveAlone(config: Config, k: nat, s: System, caches: Caches, id: nat, f: Flight, n: nat, s': System)
    requires id !in s.flights && !f.armed && 3 <= f.pc < 5
    requires Leads(config, k,
                   WithFlight(s, Reserve(config, caches, KeyOf(f.request, StepTier(f.pc)), s.now), id,
                              f.(pc := f.pc + 1, clock := s.now)),
                   Steps(id, n), s')
    ensures Leads(config, k, WithFlight(s, caches, id, f), Steps(id, n + 1), s')
  {
    StepAlone(config, k, s, caches, id, f, n + 1, s');
  }

  lemma ReservesAlone(config: Config, k: nat, s: System, id: nat, request: Request)
    requires id !in s.flights
    ensures Leads(config, k, WithFlight(s, s.caches, id, Flight(request, 3, s.now, false)), Steps(id, 3),
                  s.(caches := ReserveAll(config, s.caches, request, Instant(s.now))))
  {
    var c1 := Reserve(config, s.caches, KeyOf(request, UserTier), s.now);
    var c2 := Reserve(config, c1, KeyOf(request, GlobalTier), s.now);
    var end := s.(caches := Reserve(config, c2, KeyOf(request, RelayerTier), s.now));
    StepAlone(config, k, s, c2, id, Flight(request, 5, s.now, false), 1, end);
    ReserveAlone(config, k, s, c1, id, Flight(request, 4, s.now, false), 1, end);
    ReserveAlone(config, k, s, s.caches, id, Flight(request, 3, s.now, false), 2, end);
  }

  /** Where a request that has just arrived ends, and after how many steps. */
  lemma FlightAlone(config: Config, k: nat, s: System, id: nat, request: Request)
    requires id !in s.flights
    ensures var refusal := Refusal(config, s.caches, request, Instant(s.now));
      Leads(config, k, WithFlight(s, s.caches, id, Flight(request, 0, 0, false)),
            Steps(id, if refusal.None? then 6 else CheckStep(refusal.value) + 1),
            s.(caches := Serve(config, s.caches, request, Instant(s.now))))
  {
    var first, second, third :=
      Flight(request, 0, 0, false), Flight(request, 1, s.now, false), Flight(request, 2, s.now, false);
    match Refusal(config, s.caches, request, Instant(s.now)) {
      case None =>
        var end := s.(caches := ReserveAll(config, s.caches, request, Instant(s.now)));
        ReservesAlone(config, k, s, id, request);
        CheckAlone(config, k, s, id, third, 3, end);
        CheckAlone(config, k, s, id, second, 4, end);
        CheckAlone(config, k, s, id, first, 5, end);
      case Some(RelayerTier) =>
        StepAlone(config, k, s, s.caches, id, first, 1, s);
      case Some(GlobalTier) =>
        StepAlone(config, k, s, s.caches, id, second, 1, s);
        CheckAlone(config, k, s, id, first, 1, s);
      case Some(UserTier) =>
        StepAlone(config, k, s, s.caches, id, third, 1, s);
        CheckAlone(config, k, s, id, second, 1, s);
        CheckAlone(config, k, s, id, first, 2, s);
    }
  }

  /**
   A request that nobody interrupts ends as the serial model says: all its steps when
   no tier refuses, the checks up to the refusing one otherwise, and the same counters.
   */
  lemma AloneIsServed(config: Config, k: nat, s: System, id: nat, request: Request)
    requires id !in s.flights && |s.flights| < k
    ensures var refusal := Refusal(config, s.caches, request, Instant(s.now));
      var n := if refusal.None? then 6 else CheckStep(refusal.value) + 1;
      Leads(config, k, s, [Arrive(id, request)] + Steps(id, n),
            s.(caches := Serve(config, s.caches, request, Instant(s.now))))
  {
    var refusal := Refusal(config, s.caches, request, Instant(s.now));
    var n := if refusal.None? then 6 else CheckStep(refusal.value) + 1;
    var events := [Arrive(id, request)] + Steps(id, n);
    FlightAlone(config, k, s, id, request);
    assert events[0] == Arrive(id, request) && events[1..] == Steps(id, n);
    assert Next(config, k, s, events[0]) == WithFlight(s, s.caches, id, Flight(request, 0, 0, false));
  }

  // ---- The invariant --------------------------------------------------------

  predicate Passed(f: Flight, tier: Tier) {
    CheckStep(tier) < f.pc <= ReserveStep(tier)
  }

  /**
   The flight may still add one to this window of the counter: it passed the
   check with a clock that does not outlive the window, or it is about to be
   let through because its clock reading is older than the window.
   */
  predicate MayCount(f: Flight, key: CacheKey, windowStart: nat, w: nat) {
    && KeyOf(f.request, TierOf(key)) == key
    && (|| (Passed(f, TierOf(key)) && f.clock <= windowStart + w)
        || (f.pc == CheckStep(TierOf(key)) && f.armed && f.clock < windowStart))
  }

  function Weighing(flights: map<nat, Flight>, key: CacheKey, windowStart: nat, w: nat): set<nat> {
    set id | id in flights && MayCount(flights[id], key, windowStart, w)
  }

  /** A flight only gets past the check of a limited counter if the limit is at least one. */
  predicate FlightOk(config: Config, f: Flight, now: nat) {
    && f.pc <= 5 && f.clock <= now
    && forall tier: Tier :: Passed(f, tier) && LimitFor(config, KeyOf(f.request, tier)).Some? ==>
         LimitFor(config, KeyOf(f.request, tier)).value >= 1
  }

  predicate CounterOk(config: Config, k: nat, s: System, key: CacheKey) {
    var limit, usage, w := LimitFor(config, key), Cached(s.caches, key), WindowSecondsFor(config, key);
    limit.Some? && usage.Some? ==>
      && usage.value.windowStart <= s.now
      && usage.value.usageCount + |Weighing(s.flights, key, usage.value.windowStart, w)| <= limit.value + k - 1
  }

  ghost predicate Inv(config: Config, k: nat, s: System) {
    && |s.flights| <= k
    && (forall id :: id in s.flights ==> FlightOk(config, s.flights[id], s.now))
    && (forall key: CacheKey :: CounterOk(config, k, s, key))
  }

  lemma WithoutOne(flights: map<nat, Flight>, id: nat, a: set<nat>)
    requires id in flights && a <= flights.Keys - {id}
    ensures |a| <= |flights| - 1
  {
    SubsetIsSmaller(a, flights.Keys - {id});
    assert flights.Keys == (flights.Keys - {id}) + {id};
  }

  /** Counters whose window is unchanged, not higher, and weighed by no one new, stay good. */
  lemma CounterStays(config: Config, k: nat, s: System, s': System, key: CacheKey)
    requires CounterOk(config, k, s, key) && s'.now >= s.now
    requires Cached(s'.caches, key).Some? ==>
      && Cached(s.caches, key).Some?
      && Cached(s'.caches, key).value.windowStart == Cached(s.caches, key).value.windowStart
      && Cached(s'.caches, key).value.usageCount <= Cached(s.caches, key).value.usageCount
    requires Cached(s.caches, key).Some? ==>
      var start, w := Cached(s.caches, key).value.windowStart, WindowSecondsFor(config, key);
      Weighing(s'.flights, key, start, w) <= Weighing(s.flights, key, start, w)
    ensures CounterOk(config, k, s', key)
  {
    if Cached(s.caches, key).Some? {
      var start, w := Cached(s.caches, key).value.windowStart, WindowSecondsFor(config, key);
      SubsetIsSmaller(Weighing(s'.flights, key, start, w), Weighing(s.flights, key, start, w));
    }
  }

  /** Changing or adding one flight changes the weighing set by that flight alone. */
  lemma WeighingUpdate(flights: map<nat, Flight>, id: nat, f': Flight, key: CacheKey, start: nat, w: nat)
    ensures Weighing(flights[id := f'], key, start, w) ==
            if MayCount(f', key, start, w) then Weighing(flights, key, start, w) + {id}
            else Weighing(flights, key, start, w) - {id}
  {
  }

  lemma WeighingRemove(flights: map<nat, Flight>, id: nat, key: CacheKey, start: nat, w: nat)
    ensures Weighing(flights - {id}, key, start, w) == Weighing(flights, key, start, w) - {id}
  {
  }

  /** A passed check makes a flight weigh on a window only inside that window, at that very counter. */
  lemma CheckMakesWeigh(f: Flight, key: CacheKey, start: nat, w: nat)
    requires f.armed && f.pc < 3
    requires MayCount(f.(pc := f.pc + 1, armed := false), key, start, w) && !MayCount(f, key, start, w)
    ensures KeyOf(f.request, StepTier(f.pc)) == key && start <= f.clock <= start + w
  {
  }

  /** A reservation step only ever ends a flight's weighing. */
  lemma ReserveEndsWeighing(f: Flight, key: CacheKey, start: nat, w: nat)
    requires f.pc >= 3 && MayCount(f.(pc := f.pc + 1, armed := false), key, start, w)
    ensures MayCount(f, key, start, w) && KeyOf(f.request, StepTier(f.pc)) != key
  {
  }

  /** A flight that passes the check of a counter in its window was counted by that check. */
  lemma NewWeigherFits(config: Config, k: nat, s: System, id: nat, key: CacheKey, usage: UsageWindow, limit: nat)
    requires k >= 1 && |s.flights| <= k && id in s.flights && s.flights[id].armed && s.flights[id].pc < 3
    requires LimitFor(config, key) == Some(limit) && Cached(s.caches, key) == Some(usage)
    requires var f := s.flights[id]; PassesCheck(config, s.caches, KeyOf(f.request, StepTier(f.pc)), f.clock)
    requires var f, w := s.flights[id], WindowSecondsFor(config, key);
      MayCount(f.(pc := f.pc + 1, armed := false), key, usage.windowStart, w)
      && !MayCount(f, key, usage.windowStart, w)
    ensures usage.usageCount + |Weighing(s.flights, key, usage.windowStart, WindowSecondsFor(config, key))| + 1
            <= limit + k - 1
  {
    var w := WindowSecondsFor(config, key);
    CheckMakesWeigh(s.flights[id], key, usage.windowStart, w);
    assert CurrentUsage(Cached(s.caches, key), s.flights[id].clock, w) == usage.usageCount + 1;
    WithoutOne(s.flights, id, Weighing(s.flights, key, usage.windowStart, w));
  }

  /** Moving one flight on keeps a counter that it does not newly weigh on. */
  lemma MovedFlightKeepsCounter(config: Config, k: nat, s: System, id: nat, f': Flight, key: CacheKey)
    requires CounterOk(config, k, s, key) && id in s.flights
    requires Cached(s.caches, key).Some? ==>
      var start, w := Cached(s.caches, key).value.windowStart, WindowSecondsFor(config, key);
      MayCount(f', key, start, w) ==> MayCount(s.flights[id], key, start, w)
    ensures CounterOk(config, k, s.(flights := s.flights[id := f']), key)
  {
    if Cached(s.caches, key).Some? {
      var start, w := Cached(s.caches, key).value.windowStart, WindowSecondsFor(config, key);
      WeighingUpdate(s.flights, id, f', key, start, w);
    }
    CounterStays(config, k, s, s.(flights := s.flights[id := f']), key);
  }

  lemma PassedCheckKeepsCounter(config: Config, k: nat, s: System, id: nat, key: CacheKey)
    requires Inv(config, k, s) && Enabled(k, s, Act(id)) && s.flights[id].pc < 3
    requires var f := s.flights[id]; PassesCheck(config, s.caches, KeyOf(f.request, StepTier(f.pc)), f.clock)
    ensures CounterOk(config, k, Next(config, k, s, Act(id)), key)
  {
    var f := s.flights[id];
    var f' := f.(pc := f.pc + 1, armed := false);
    assert Next(config, k, s, Act(id)) == s.(flights := s.flights[id := f']);
    assert CounterOk(config, k, s, key);
    if Cached(s.caches, key).Some? && LimitFor(config, key).Some? {
      var usage, w := Cached(s.caches, key).value, WindowSecondsFor(config, key);
      if MayCount(f', key, usage.windowStart, w) && !MayCount(f, key, usage.windowStart, w) {
        NewWeigherFits(config, k, s, id, key, usage, LimitFor(config, key).value);
        WeighingUpdate(s.flights, id, f', key, usage.windowStart, w);
      } else {
        MovedFlightKeepsCounter(config, k, s, id, f', key);
      }
    }
  }

  /** The counter a reservation step counts in. */
  lemma ReservationOnItsKey(config: Config, k: nat, s: System, id: nat)
    requires Inv(config, k, s) && Enabled(k, s, Act(id)) && s.flights[id].pc >= 3
    ensures CounterOk(config, k, Next(config, k, s, Act(id)), KeyOf(s.flights[id].request, StepTier(s.flights[id].pc)))
  {
    var s' := Next(config, k, s, Act(id));
    var f := s.flights[id];
    var key := KeyOf(f.request, StepTier(f.pc));
    ReserveOnKey(config, s.caches, key, f.clock, key);
    assert CounterOk(config, k, s, key);
    assert FlightOk(config, f, s.now);
    if LimitFor(config, key).Some? {
      assert Passed(f, TierOf(key));
      var w := WindowSecondsFor(config, key);
      var usage := AfterReserve(Cached(s.caches, key), f.clock, w);
      FreshWindowIsCurrent(f.clock, w);
      WeighingUpdate(s.flights, id, f.(pc := f.pc + 1, armed := false), key, usage.windowStart, w);
      WeighingRemove(s.flights, id, key, usage.windowStart, w);
      var before, after :=
        Weighing(s.flights, key, usage.windowStart, w), Weighing(s'.flights, key, usage.windowStart, w);
      assert after == before - {id};
      WithoutOne(s.flights, id, after);
      if Cached(s.caches, key).Some? && !Expired(Cached(s.caches, key).value, f.clock, w) {
        assert id in before;
      }
    }
  }

  lemma ReservationKeepsCounter(config: Config, k: nat, s: System, id: nat, key: CacheKey)
    requires Inv(config, k, s) && Enabled(k, s, Act(id)) && s.flights[id].pc >= 3
    ensures CounterOk(config, k, Next(config, k, s, Act(id)), key)
  {
    var s' := Next(config, k, s, Act(id));
    var f := s.flights[id];
    var target := KeyOf(f.request, StepTier(f.pc));
    if key == target {
      ReservationOnItsKey(config, k, s, id);
    } else {
      ReserveOnKey(config, s.caches, target, f.clock, key);
      assert CounterOk(config, k, s, key);
      if Cached(s.caches, key).Some? {
        var start, w := Cached(s.caches, key).value.windowStart, WindowSecondsFor(config, key);
        var f' := f.(pc := f.pc + 1, armed := false);
        WeighingUpdate(s.flights, id, f', key, start, w);
        WeighingRemove(s.flights, id, key, start, w);
        if MayCount(f', key, start, w) {
          ReserveEndsWeighing(f, key, start, w);
        }
      }
      CounterStays(config, k, s, s', key);
    }
  }

  lemma ActedFlightOk(config: Config, k: nat, s: System, id: nat)
    requires Inv(config, k, s) && Enabled(k, s, Act(id))
    ensures var s' := Next(config, k, s, Act(id)); id in s'.flights ==> FlightOk(config, s'.flights[id], s'.now)
  {
    var s' := Next(config, k, s, Act(id));
    var f := s.flights[id];
    assert FlightOk(config, f, s.now);
    if id in s'.flights {
      var f' := s'.flights[id];
      forall tier: Tier | Passed(f', tier) && LimitFor(config, KeyOf(f'.request, tier)).Some?
        ensures LimitFor(config, KeyOf(f'.request, tier)).value >= 1
      {
        assert Passed(f, tier) || f.pc == CheckStep(tier);
      }
    }
  }

  lemma ActKeepsInv(config: Config, k: nat, s: System, id: nat)
    requires Inv(config, k, s) && Enabled(k, s, Act(id))
    ensures Inv(config, k, Next(config, k, s, Act(id)))
  {
    var s' := Next(config, k, s, Act(id));
    ActedFlightOk(config, k, s, id);
    SubsetIsSmaller(s'.flights.Keys, s.flights.Keys);
    assert |s'.flights.Keys| == |s'.flights|;
    forall key: CacheKey
      ensures CounterOk(config, k, s', key)
    {
      var f := s.flights[id];
      if f.pc >= 3 {
        ReservationKeepsCounter(config, k, s, id, key);
      } else if PassesCheck(config, s.caches, KeyOf(f.request, StepTier(f.pc)), f.clock) {
        PassedCheckKeepsCounter(config, k, s, id, key);
      } else {
        CounterStays(config, k, s, s', key);
      }
    }
  }

  lemma ArriveKeepsInv(config: Config, k: nat, s: System, id: nat, request: Request)
    requires Inv(config, k, s) && Enabled(k, s, Arrive(id, request))
    ensures Inv(config, k, Next(config, k, s, Arrive(id, request)))
  {
    var s' := Next(config, k, s, Arrive(id, request));
    assert s'.flights.Keys == s.flights.Keys + {id};
    assert |s'.flights| == |s.flights| + 1;
    forall key: CacheKey ensures CounterOk(config, k, s', key) {
      assert CounterOk(config, k, s, key);
      CounterStays(config, k, s, s', key);
    }
  }

  lemma ReadClockKeepsInv(config: Config, k: nat, s: System, id: nat)
    requires Inv(config, k, s) && Enabled(k, s, ReadClock(id))
    ensures Inv(config, k, Next(config, k, s, ReadClock(id)))
  {
    var s' := Next(config, k, s, ReadClock(id));
    assert s'.flights.Keys == s.flights.Keys;
    assert |s'.flights.Keys| == |s'.flights|;
    assert FlightOk(config, s.flights[id], s.now);
    assert FlightOk(config, s'.flights[id], s'.now) by {
      assert forall tier: Tier :: Passed(s'.flights[id], tier) ==> Passed(s.flights[id], tier);
    }
    forall key: CacheKey ensures CounterOk(config, k, s', key) {
      assert CounterOk(config, k, s, key);
      if LimitFor(config, key).Some? {
        CounterStays(config, k, s, s', key);
      }
    }
  }

  lemma AbandonKeepsInv(config: Config, k: nat, s: System, id: nat)
    requires Inv(config, k, s) && Enabled(k, s, Abandon(id))
    ensures Inv(config, k, Next(config, k, s, Abandon(id)))
  {
    var s' := Next(config, k, s, Abandon(id));
    SubsetIsSmaller(s'.flights.Keys, s.flights.Keys);
    assert |s'.flights.Keys| == |s'.flights|;
    forall key: CacheKey ensures CounterOk(config, k, s', key) {
      assert CounterOk(config, k, s, key);
      CounterStays(config, k, s, s', key);
    }
  }

  lemma GiveBackKeepsInv(config: Config, k: nat, s: System, target: CacheKey)
    requires Inv(config, k, s)
    ensures Inv(config, k, Next(config, k, s, GiveBack(target)))
  {
    var s' := Next(config, k, s, GiveBack(target));
    forall key: CacheKey ensures CounterOk(config, k, s', key) {
      assert CounterOk(config, k, s, key);
      RevertOnKey(config, s.caches, target, key);
      CounterStays(config, k, s, s', key);
    }
  }

  lemma TickKeepsInv(config: Config, k: nat, s: System, seconds: nat)
    requires Inv(config, k, s)
    ensures Inv(config, k, Next(config, k, s, Tick(seconds)))
  {
    var s' := Next(config, k, s, Tick(seconds));
    forall id | id in s'.flights ensures FlightOk(config, s'.flights[id], s'.now) {
      assert FlightOk(config, s.flights[id], s.now);
    }
    forall key: CacheKey ensures CounterOk(config, k, s', key) {
      assert CounterOk(config, k, s, key);
      CounterStays(config, k, s, s', key);
    }
  }

  lemma StepKeepsInv(config: Config, k: nat, s: System, e: Event)
    requires Inv(config, k, s) && Enabled(k, s, e)
    ensures Inv(config, k, Next(config, k, s, e))
  {
    match e
    case Arrive(id, request) => ArriveKeepsInv(config, k, s, id, request);
    case ReadClock(id) => ReadClockKeepsInv(config, k, s, id);
    case Act(id) => ActKeepsInv(config, k, s, id);
    case Abandon(id) => AbandonKeepsInv(config, k, s, id);
    case Tick(seconds) => TickKeepsInv(config, k, s, seconds);
    case GiveBack(target) => GiveBackKeepsInv(config, k, s, target);
  }

  lemma {:induction false} RunKeepsInv(config: Config, k: nat, s: System, events: seq<Event>)
    requires Inv(config, k, s) && Legal(config, k, s, events)
    ensures Inv(config, k, Run(config, k, s, events))
    decreases |events|
  {
    if events != [] {
      StepKeepsInv(config, k, s, events[0]);
      RunKeepsInv(config, k, Next(config, k, s, events[0]), events[1..]);
    }
  }

  /**
   In every interleaving of at most k requests, with any reverts, abandoned
   requests and passage of time, no limited counter exceeds limit + k - 1. One
   request at a time never exceeds the limit.
   */
  lemma CountersStayNearTheLimit(config: Config, k: nat, events: seq<Event>, key: CacheKey, limit: nat)
    requires k >= 1 && Legal(config, k, START, events) && LimitFor(config, key) == Some(limit)
    ensures var usage := Cached(Run(config, k, START, events).caches, key);
      usage.Some? ==>
        && usage.value.usageCount <= limit + k - 1
        && (k == 1 ==> usage.value.usageCount <= limit)
  {
    assert Inv(config, k, START);
    RunKeepsInv(config, k, START, events);
    assert CounterOk(config, k, Run(config, k, START, events), key);
  }
}
