/**
 Crowds of concurrent requests: how they are brought past their checks and
 counted one by one, and that they reach the bound of RateInterleaving.
 */
module RateCrowd {
  import opened Prelude
  import opened RateWindow
  import opened RateInterleaving
  import opened RateStretch
  import Law = RateWindowLaw

  /** Only one user's counter is limited; reservations are made with clock readings in a range. */
  datatype Setup = Setup(limit: nat, k: nat, request: Request, from: nat, to: nat)
  {
    function Rules(): Config {
      Minute(limit)
    }

    function Key(): CacheKey {
      KeyOf(request, UserTier)
    }

    predicate Fits(now: nat) {
      0 < limit < U64_MAX && from <= now <= to
    }
  }

  // ---- Reaching a state -------------------------------------------------------

  lemma {:induction false} AppendEvent(
    config: Config, k: nat, key: CacheKey, s: System, log: seq<Law.Admission>, events: seq<Event>, e: Event)
    requires Legal(config, k, s, events) && Enabled(k, Run(config, k, s, events), e)
    ensures Legal(config, k, s, events + [e])
    ensures Run(config, k, s, events + [e]) == Next(config, k, Run(config, k, s, events), e)
    ensures Log(config, k, key, s, log, events + [e])
            == Extend(config, key, Run(config, k, s, events), Log(config, k, key, s, log, events), e)
    decreases |events|
  {
    var all := events + [e];
    if events == [] {
      assert all[1..] == [] && all[0] == e;
      assert Legal(config, k, Next(config, k, s, e), []);
    } else {
      assert all[1..] == events[1..] + [e] && all[0] == events[0];
      AppendEvent(
        config, k, key, Next(config, k, s, events[0]), Extend(config, key, s, log, events[0]), events[1..], e);
    }
  }

  ghost predicate ReachedBy(p: Setup, s: System, n: nat, events: seq<Event>) {
    && Legal(p.Rules(), p.k, START, events) && NoGiveBacks(events)
    && Run(p.Rules(), p.k, START, events) == s
    && var log := Log(p.Rules(), p.k, p.Key(), START, [], events);
       |log| == n && forall i :: 0 <= i < n ==> p.from <= log[i].at <= p.to
  }

  /** Reached without give-backs, with n reservations so far, all with readings in the range. */
  ghost predicate Reached(p: Setup, s: System, n: nat) {
    exists events: seq<Event> :: ReachedBy(p, s, n, events)
  }

  predicate InTime(p: Setup, s: System, e: Event) {
    && !e.GiveBack?
    && (Counts(p.Rules(), p.Key(), s, e) ==> p.from <= s.flights[e.id].clock <= p.to)
  }

  function CountAfter(p: Setup, s: System, n: nat, e: Event): nat {
    if Counts(p.Rules(), p.Key(), s, e) then n + 1 else n
  }

  lemma ReachNext(p: Setup, s: System, n: nat, e: Event)
    requires Reached(p, s, n) && Enabled(p.k, s, e) && InTime(p, s, e)
    ensures Reached(p, Next(p.Rules(), p.k, s, e), CountAfter(p, s, n, e))
  {
    var events: seq<Event> :| ReachedBy(p, s, n, events);
    AppendEvent(p.Rules(), p.k, p.Key(), START, [], events, e);
    assert ReachedBy(p, Next(p.Rules(), p.k, s, e), CountAfter(p, s, n, e), events + [e]);
  }

  /** A set of states and counts that no such step leaves. */
  ghost predicate Closed(p: Setup, within: (System, nat) -> bool) {
    forall s: System, n: nat, e: Event :: within(s, n) && Enabled(p.k, s, e) && InTime(p, s, e) ==>
      within(Next(p.Rules(), p.k, s, e), CountAfter(p, s, n, e))
  }

  lemma ReachedIsClosed(p: Setup)
    ensures Closed(p, (s: System, n: nat) => Reached(p, s, n))
    ensures Reached(p, START, 0)
  {
    forall s: System, n: nat, e: Event | Reached(p, s, n) && Enabled(p.k, s, e) && InTime(p, s, e)
      ensures Reached(p, Next(p.Rules(), p.k, s, e), CountAfter(p, s, n, e))
    {
      ReachNext(p, s, n, e);
    }
    assert ReachedBy(p, START, 0, []);
  }

  lemma StepWithin(p: Setup, within: (System, nat) -> bool, s: System, n: nat, e: Event)
    requires Closed(p, within) && within(s, n) && Enabled(p.k, s, e) && InTime(p, s, e)
    ensures within(Next(p.Rules(), p.k, s, e), CountAfter(p, s, n, e))
  {
  }

  // ---- The steps of one request -----------------------------------------------

  /** Only the user's counter is in the caches. */
  function Holding(p: Setup, cached: Option<UsageWindow>): Caches {
    if cached.None? then EMPTY_CACHES else Caches(map[p.Key() := cached.value], map[], map[])
  }

  function Scene(p: Setup, cached: Option<UsageWindow>, now: nat, flights: map<nat, Flight>): System {
    System(Holding(p, cached), now, flights)
  }

  function With(s: System, p: Setup, id: nat, pc: nat, clock: nat): System {
    s.(flights := s.flights[id := Flight(p.request, pc, clock, false)])
  }

  /** The request at its step `pc`, having read the clock. */
  function Armed(s: System, p: Setup, id: nat, pc: nat): System {
    s.(flights := s.flights[id := Flight(p.request, pc, s.now, true)])
  }

  /** A clock reading and the action that follows it. */
  lemma Acts(p: Setup, within: (System, nat) -> bool, s: System, n: nat, id: nat, pc: nat, clock: nat)
    requires Closed(p, within) && p.from <= s.now <= p.to
    requires id !in s.flights && pc <= 5 && within(With(s, p, id, pc, clock), n)
    ensures within(Acted(p.Rules(), Armed(s, p, id, pc), id), if pc == 3 then n + 1 else n)
  {
    var s0, armed := With(s, p, id, pc, clock), Armed(s, p, id, pc);
    StepWithin(p, within, s0, n, ReadClock(id));
    assert Next(p.Rules(), p.k, s0, ReadClock(id)) == armed;
    StepWithin(p, within, armed, n, Act(id));
    assert Counts(p.Rules(), p.Key(), armed, Act(id)) <==> pc == 3;
  }

  lemma CheckMovesOn(
    p: Setup, cached: Option<UsageWindow>, now: nat, flights: map<nat, Flight>, id: nat, pc: nat)
    requires pc < 3 && CurrentUsage(cached, now, 60) <= p.limit < U64_MAX
    ensures var s := Scene(p, cached, now, flights);
      Acted(p.Rules(), Armed(s, p, id, pc), id) == With(s, p, id, pc + 1, now)
  {
    assert PassesCheck(p.Rules(), Holding(p, cached), KeyOf(p.request, StepTier(pc)), now);
  }

  /** A request that arrives while there is room passes its three checks. */
  lemma PassesItsChecks(
    p: Setup, within: (System, nat) -> bool, cached: Option<UsageWindow>, now: nat, flights: map<nat, Flight>,
    n: nat, id: nat)
    requires Closed(p, within) && p.Fits(now) && CurrentUsage(cached, now, 60) <= p.limit
    requires id !in flights && |flights| < p.k
    requires within(Scene(p, cached, now, flights), n)
    ensures within(With(Scene(p, cached, now, flights), p, id, 3, now), n)
  {
    var s := Scene(p, cached, now, flights);
    StepWithin(p, within, s, n, Arrive(id, p.request));
    Acts(p, within, s, n, id, 0, 0);
    CheckMovesOn(p, cached, now, flights, id, 0);
    Acts(p, within, s, n, id, 1, now);
    CheckMovesOn(p, cached, now, flights, id, 1);
    Acts(p, within, s, n, id, 2, now);
    CheckMovesOn(p, cached, now, flights, id, 2);
  }

  lemma ReserveMovesOn(p: Setup, cached: Option<UsageWindow>, now: nat, flights: map<nat, Flight>, id: nat)
    ensures Acted(p.Rules(), Armed(Scene(p, cached, now, flights), p, id, 3), id)
            == With(Scene(p, Some(AfterReserve(cached, now, 60)), now, flights), p, id, 4, now)
  {
  }

  /** The two unconfigured tiers change nothing, and then the request is done. */
  lemma LastStepsChangeNothing(p: Setup, s: System, id: nat)
    requires id !in s.flights
    ensures Acted(p.Rules(), Armed(s, p, id, 4), id) == With(s, p, id, 5, s.now)
    ensures Acted(p.Rules(), Armed(s, p, id, 5), id) == s
  {
    assert Armed(s, p, id, 5).flights - {id} == s.flights;
  }

  lemma Finishes(p: Setup, within: (System, nat) -> bool, s: System, n: nat, id: nat, clock: nat)
    requires Closed(p, within) && p.from <= s.now <= p.to
    requires id !in s.flights && within(With(s, p, id, 4, clock), n)
    ensures within(s, n)
  {
    LastStepsChangeNothing(p, s, id);
    Acts(p, within, s, n, id, 4, clock);
    Acts(p, within, s, n, id, 5, s.now);
  }

  lemma IsCounted(
    p: Setup, within: (System, nat) -> bool, cached: Option<UsageWindow>, now: nat, flights: map<nat, Flight>,
    n: nat, id: nat)
    requires Closed(p, within) && p.Fits(now) && id !in flights
    requires within(With(Scene(p, cached, now, flights), p, id, 3, now), n)
    ensures within(Scene(p, Some(AfterReserve(cached, now, 60)), now, flights), n + 1)
  {
    var s' := Scene(p, Some(AfterReserve(cached, now, 60)), now, flights);
    Acts(p, within, Scene(p, cached, now, flights), n, id, 3, now);
    ReserveMovesOn(p, cached, now, flights, id);
    Finishes(p, within, s', n + 1, id, now);
  }

  // ---- A crowd ------------------------------------------------------------------

  /** Besides the others, w requests that are past their checks and not counted yet; request 0 is not among them. */
  function Crew(p: Setup, now: nat, others: map<nat, Flight>, w: nat): (flights: map<nat, Flight>)
    ensures forall id :: id in flights <==> id in others || 1 <= id <= w
  {
    if w == 0 then others else Crew(p, now, others, w - 1)[w := Flight(p.request, 3, now, false)]
  }

  function Ids(w: nat): (ids: set<nat>)
    ensures forall id :: id in ids <==> 1 <= id <= w
    ensures |ids| == w
  {
    if w == 0 then {} else Ids(w - 1) + {w}
  }

  lemma CrewCount(p: Setup, now: nat, others: map<nat, Flight>, w: nat)
    requires others.Keys <= {0}
    ensures |Crew(p, now, others, w)| == |others| + w
  {
    var crew := Crew(p, now, others, w);
    assert crew.Keys == others.Keys + Ids(w);
    assert others.Keys !! Ids(w);
    assert |crew.Keys| == |crew| && |others.Keys| == |others|;
  }

  /** The counter once j requests have been counted in a new window. */
  function Filled(cached: Option<UsageWindow>, now: nat, j: nat): Option<UsageWindow> {
    if j == 0 then cached else Some(UsageWindow(j, CalculateWindowStart(now, 60)))
  }

  predicate Fresh(cached: Option<UsageWindow>, now: nat) {
    cached.None? || Expired(cached.value, now, 60)
  }

  ghost predicate AtStage(
    p: Setup, within: (System, nat) -> bool, cached: Option<UsageWindow>, now: nat, others: map<nat, Flight>,
    j: nat, w: nat, n: nat)
  {
    within(Scene(p, Filled(cached, now, j), now, Crew(p, now, others, w)), n)
  }

  lemma OneMoreWaits(
    p: Setup, within: (System, nat) -> bool, cached: Option<UsageWindow>, now: nat, others: map<nat, Flight>,
    j: nat, w: nat, n: nat)
    requires Closed(p, within) && p.Fits(now) && Fresh(cached, now)
    requires others.Keys <= {0} && |others| + w < p.k && j < p.limit
    requires AtStage(p, within, cached, now, others, j, w, n)
    ensures AtStage(p, within, cached, now, others, j, w + 1, n)
  {
    CrewCount(p, now, others, w);
    PassesItsChecks(p, within, Filled(cached, now, j), now, Crew(p, now, others, w), n, w + 1);
  }

  lemma OneIsCounted(
    p: Setup, within: (System, nat) -> bool, cached: Option<UsageWindow>, now: nat, others: map<nat, Flight>,
    j: nat, w: nat, n: nat)
    requires Closed(p, within) && p.Fits(now) && Fresh(cached, now) && others.Keys <= {0}
    requires AtStage(p, within, cached, now, others, j, w + 1, n)
    ensures AtStage(p, within, cached, now, others, j + 1, w, n + 1)
  {
    IsCounted(p, within, Filled(cached, now, j), now, Crew(p, now, others, w), n, w + 1);
  }

  /** What can be done with j requests counted, w waiting and n reservations made so far. */
  ghost predicate Playable(stage: (nat, nat, nat) -> bool, limit: nat, room: nat) {
    && (forall j: nat, w: nat, n: nat :: stage(j, w, n) && j < limit && w < room ==> stage(j, w + 1, n))
    && (forall j: nat, w: nat, n: nat :: stage(j, w, n) && w > 0 ==> stage(j + 1, w - 1, n + 1))
  }

  /** One after another, j requests are served. */
  lemma {:induction false} Fill(stage: (nat, nat, nat) -> bool, limit: nat, room: nat, j: nat, n: nat)
    requires Playable(stage, limit, room) && room > 0 && j <= limit && stage(0, 0, n)
    ensures stage(j, 0, n + j)
    decreases j
  {
    if j > 0 {
      Fill(stage, limit, room, j - 1, n);
      assert stage(j - 1, 1, n + (j - 1));
    }
  }

  /** With one place left below the limit, a whole crowd passes the checks. */
  lemma {:induction false} Gather(stage: (nat, nat, nat) -> bool, limit: nat, room: nat, w: nat, n: nat)
    requires Playable(stage, limit, room) && w <= room && limit > 0 && stage(limit - 1, 0, n)
    ensures stage(limit - 1, w, n)
    decreases w
  {
    if w > 0 {
      Gather(stage, limit, room, w - 1, n);
    }
  }

  lemma {:induction false} CountAll(
    stage: (nat, nat, nat) -> bool, limit: nat, room: nat, j: nat, w: nat, n: nat)
    requires Playable(stage, limit, room) && stage(j, w, n)
    ensures stage(j + w, 0, n + w)
    decreases w
  {
    if w > 0 {
      CountAll(stage, limit, room, j + 1, w - 1, n + 1);
    }
  }

  lemma FillAll(stage: (nat, nat, nat) -> bool, limit: nat, room: nat, n: nat)
    requires Playable(stage, limit, room) && limit > 0 && room > 0 && stage(0, 0, n)
    ensures stage(limit - 1 + room, 0, n + limit - 1 + room)
  {
    Fill(stage, limit, room, limit - 1, n);
    Gather(stage, limit, room, room, n + (limit - 1));
    CountAll(stage, limit, room, limit - 1, room, n + (limit - 1));
  }

  lemma StagesArePlayable(
    p: Setup, within: (System, nat) -> bool, cached: Option<UsageWindow>, now: nat, others: map<nat, Flight>,
    room: nat, stage: (nat, nat, nat) -> bool)
    requires Closed(p, within) && p.Fits(now) && Fresh(cached, now)
    requires others.Keys <= {0} && |others| + room <= p.k
    requires forall j: nat, w: nat, n: nat :: stage(j, w, n) <==> AtStage(p, within, cached, now, others, j, w, n)
    ensures Playable(stage, p.limit, room)
  {
    forall j: nat, w: nat, n: nat | stage(j, w, n) && j < p.limit && w < room
      ensures stage(j, w + 1, n)
    {
      OneMoreWaits(p, within, cached, now, others, j, w, n);
    }
    forall j: nat, w: nat, n: nat | stage(j, w, n) && w > 0
      ensures stage(j + 1, w - 1, n + 1)
    {
      OneIsCounted(p, within, cached, now, others, j, w - 1, n);
    }
  }

  lemma CrowdFillsStages(
    p: Setup, within: (System, nat) -> bool, cached: Option<UsageWindow>, now: nat, others: map<nat, Flight>,
    c: nat, n: nat)
    requires Closed(p, within) && p.Fits(now) && Fresh(cached, now)
    requires others.Keys <= {0} && 1 <= c && |others| + c <= p.k
    requires AtStage(p, within, cached, now, others, 0, 0, n)
    ensures AtStage(p, within, cached, now, others, p.limit - 1 + c, 0, n + p.limit - 1 + c)
  {
    var stage := (j: nat, w: nat, n: nat) => AtStage(p, within, cached, now, others, j, w, n);
    StagesArePlayable(p, within, cached, now, others, c, stage);
    assert stage(0, 0, n);
    FillAll(stage, p.limit, c, n);
  }

  /** All but the last place are filled one by one, and then a crowd of c takes the last. */
  lemma CrowdFills(
    p: Setup, within: (System, nat) -> bool, cached: Option<UsageWindow>, now: nat, others: map<nat, Flight>,
    c: nat, n: nat)
    requires Closed(p, within) && p.Fits(now) && Fresh(cached, now)
    requires others.Keys <= {0} && 1 <= c && |others| + c <= p.k
    requires within(Scene(p, cached, now, others), n)
    ensures within(
              Scene(p, Some(UsageWindow(p.limit - 1 + c, CalculateWindowStart(now, 60))), now, others),
              n + p.limit - 1 + c)
  {
    CrowdFillsStages(p, within, cached, now, others, c, n);
  }

  /** For every limit and every k some interleaving of k requests brings a counter to limit + k - 1. */
  lemma BoundIsReached(limit: nat, k: nat, request: Request)
    requires 0 < limit < U64_MAX && k >= 1
    ensures exists events: seq<Event> ::
      Legal(Minute(limit), k, START, events) &&
      Cached(Run(Minute(limit), k, START, events).caches, KeyOf(request, UserTier))
        == Some(UsageWindow(limit + k - 1, 0))
  {
    var p := Setup(limit, k, request, 0, 0);
    ReachedIsClosed(p);
    QuotientIsUnique(0, 60, 0);
    CrowdFills(p, (s: System, n: nat) => Reached(p, s, n), None, 0, map[], k, 0);
    var s := Scene(p, Some(UsageWindow(limit + k - 1, 0)), 0, map[]);
    assert Reached(p, s, limit - 1 + k);
    var events: seq<Event> :| ReachedBy(p, s, limit - 1 + k, events);
    assert Cached(s.caches, p.Key()) == Some(UsageWindow(limit + k - 1, 0));
  }
}
