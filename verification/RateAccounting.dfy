/**
 What a counter says about the reservations behind it, when requests are served
 one at a time and reservations may be given back at any later moment.
 */
module RateAccounting {
  import opened Prelude
  import opened RateWindow

  /** One admitted request; `epoch` numbers the windows of the counter under study. */
  datatype Mark = Mark(request: Request, epoch: nat)

  datatype State = State(caches: Caches, epoch: nat, made: seq<Mark>, returned: set<nat>)

  const START := State(EMPTY_CACHES, 0, [], {})

  datatype Event =
    | Make(request: Request, clock: Clock)
    | GiveBack(reservation: nat)

  /** A reservation is given back at most once. */
  predicate Enabled(s: State, e: Event) {
    e.GiveBack? ==> e.reservation < |s.made| && e.reservation !in s.returned
  }

  /** Reserving at this time starts a new window of the counter. */
  predicate Resets(config: Config, caches: Caches, key: CacheKey, now: nat) {
    var cached := Cached(caches, key);
    cached.None? || Expired(cached.value, now, WindowSecondsFor(config, key))
  }

  function Next(config: Config, key: CacheKey, s: State, e: Event): State
    requires Enabled(s, e)
  {
    match e
    case Make(request, clock) =>
      if Refusal(config, s.caches, request, clock).Some? then s
      else
        var reset := Touches(config, request, key) && Resets(config, s.caches, key, clock.ReserveTime(TierOf(key)));
        var epoch := if reset then s.epoch + 1 else s.epoch;
        State(Serve(config, s.caches, request, clock), epoch, s.made + [Mark(request, epoch)], s.returned)
    case GiveBack(i) =>
      s.(caches := RevertAll(config, s.caches, s.made[i].request), returned := s.returned + {i})
  }

  predicate Legal(config: Config, key: CacheKey, s: State, events: seq<Event>)
    decreases |events|
  {
    events == [] || (Enabled(s, events[0]) && Legal(config, key, Next(config, key, s, events[0]), events[1..]))
  }

  function Count(s: State, key: CacheKey): nat {
    var cached := Cached(s.caches, key);
    if cached.Some? then cached.value.usageCount else 0
  }

  /** The reservations of the current window of the counter that are still out. */
  function Outstanding(config: Config, key: CacheKey, s: State): set<nat> {
    set i: nat |
      i < |s.made| && i !in s.returned && s.made[i].epoch == s.epoch && Touches(config, s.made[i].request, key)
  }

  ghost predicate Exact(config: Config, key: CacheKey, s: State) {
    Count(s, key) == |Outstanding(config, key, s)|
  }

  /** No mark is ahead of the current window. */
  ghost predicate Inv(config: Config, key: CacheKey, s: State) {
    && (forall i :: 0 <= i < |s.made| ==> s.made[i].epoch <= s.epoch)
    && Count(s, key) <= |Outstanding(config, key, s)|
  }

  /** Given back in the window it was made in; or there is nothing left to subtract. */
  predicate OnTime(config: Config, key: CacheKey, s: State, e: Event)
    requires Enabled(s, e)
  {
    e.GiveBack? && Touches(config, s.made[e.reservation].request, key) ==>
      s.made[e.reservation].epoch == s.epoch || Count(s, key) == 0
  }

  predicate AllOnTime(config: Config, key: CacheKey, s: State, events: seq<Event>)
    requires Legal(config, key, s, events)
    decreases |events|
  {
    events == [] ||
    (OnTime(config, key, s, events[0]) && AllOnTime(config, key, Next(config, key, s, events[0]), events[1..]))
  }

  ghost predicate AlwaysExact(config: Config, key: CacheKey, s: State, events: seq<Event>)
    requires Legal(config, key, s, events)
    decreases |events|
  {
    Exact(config, key, s) &&
    (events == [] || AlwaysExact(config, key, Next(config, key, s, events[0]), events[1..]))
  }

  lemma CountAfterMake(config: Config, key: CacheKey, s: State, request: Request, clock: Clock)
    requires Refusal(config, s.caches, request, clock).None?
    ensures var s' := Next(config, key, s, Make(request, clock));
      Count(s', key) ==
      if !Touches(config, request, key) then Count(s, key)
      else if Resets(config, s.caches, key, clock.ReserveTime(TierOf(key))) then 1
      else Count(s, key) + 1
  {
    ServeOnKey(config, s.caches, request, clock, key);
    FreshWindowIsCurrent(clock.ReserveTime(TierOf(key)), WindowSecondsFor(config, key));
  }

  /** The new reservation joins the outstanding ones; a new window drops all older ones. */
  lemma OutstandingAfterMake(config: Config, key: CacheKey, s: State, s': State, request: Request, reset: bool)
    requires forall i :: 0 <= i < |s.made| ==> s.made[i].epoch <= s.epoch
    requires |s.made| !in s.returned
    requires s'.epoch == (if reset then s.epoch + 1 else s.epoch)
    requires s'.made == s.made + [Mark(request, s'.epoch)] && s'.returned == s.returned
    requires reset ==> Touches(config, request, key)
    ensures Outstanding(config, key, s') ==
            (if reset then {} else Outstanding(config, key, s))
            + (if Touches(config, request, key) then {|s.made|} else {})
    ensures |s.made| !in Outstanding(config, key, s)
  {
    var out, out' := Outstanding(config, key, s), Outstanding(config, key, s');
    assert forall i :: 0 <= i < |s.made| ==> s'.made[i] == s.made[i];
    assert s'.made[|s.made|] == Mark(request, s'.epoch);
    assert forall i :: i in out' ==> i == |s.made| || (!reset && i in out);
  }

  lemma GiveBackOnKey(config: Config, key: CacheKey, s: State, i: nat)
    requires Enabled(s, GiveBack(i))
    ensures var s' := Next(config, key, s, GiveBack(i));
      && Count(s', key) ==
         (if Touches(config, s.made[i].request, key) && Count(s, key) > 0 then Count(s, key) - 1 else Count(s, key))
      && Outstanding(config, key, s') == Outstanding(config, key, s) - {i}
      && (i in Outstanding(config, key, s) <==> Touches(config, s.made[i].request, key) && s.made[i].epoch == s.epoch)
  {
    RevertAllOnKey(config, s.caches, s.made[i].request, key);
  }

  /** Reservations not made yet have not been given back. */
  ghost predicate ReturnedAreMade(s: State) {
    forall i :: i in s.returned ==> i < |s.made|
  }

  lemma InvAfterMake(config: Config, key: CacheKey, s: State, s': State, request: Request, reset: bool)
    requires Inv(config, key, s) && ReturnedAreMade(s)
    requires s'.epoch == (if reset then s.epoch + 1 else s.epoch)
    requires s'.made == s.made + [Mark(request, s'.epoch)] && s'.returned == s.returned
    requires reset ==> Touches(config, request, key)
    requires Count(s', key) ==
             if !Touches(config, request, key) then Count(s, key) else if reset then 1 else Count(s, key) + 1
    ensures Inv(config, key, s') && ReturnedAreMade(s')
    ensures Exact(config, key, s) ==> Exact(config, key, s')
  {
    OutstandingAfterMake(config, key, s, s', request, reset);
    var out, out' := Outstanding(config, key, s), Outstanding(config, key, s');
    assert reset ==> out' == {|s.made|};
    assert !reset && Touches(config, request, key) ==> |out'| == |out| + 1;
    assert !Touches(config, request, key) ==> out' == out;
  }

  lemma MakeKeepsInv(config: Config, key: CacheKey, s: State, request: Request, clock: Clock)
    requires Inv(config, key, s) && ReturnedAreMade(s)
    ensures var s' := Next(config, key, s, Make(request, clock)); Inv(config, key, s') && ReturnedAreMade(s')
    ensures Exact(config, key, s) ==> Exact(config, key, Next(config, key, s, Make(request, clock)))
  {
    if Refusal(config, s.caches, request, clock).None? {
      CountAfterMake(config, key, s, request, clock);
      InvAfterMake(config, key, s, Next(config, key, s, Make(request, clock)), request,
                   Touches(config, request, key) && Resets(config, s.caches, key, clock.ReserveTime(TierOf(key))));
    }
  }

  lemma StepKeepsInv(config: Config, key: CacheKey, s: State, e: Event)
    requires Inv(config, key, s) && ReturnedAreMade(s) && Enabled(s, e)
    ensures var s' := Next(config, key, s, e); Inv(config, key, s') && ReturnedAreMade(s')
    ensures Exact(config, key, s) ==> (Exact(config, key, Next(config, key, s, e)) <==> OnTime(config, key, s, e))
  {
    match e
    case Make(request, clock) =>
      MakeKeepsInv(config, key, s, request, clock);
    case GiveBack(i) =>
      GiveBackOnKey(config, key, s, i);
  }

  lemma {:induction false} RunIsExactIffOnTime(config: Config, key: CacheKey, s: State, events: seq<Event>)
    requires Inv(config, key, s) && ReturnedAreMade(s) && Exact(config, key, s)
    requires Legal(config, key, s, events)
    ensures AlwaysExact(config, key, s, events) <==> AllOnTime(config, key, s, events)
    decreases |events|
  {
    if events != [] {
      StepKeepsInv(config, key, s, events[0]);
      var s' := Next(config, key, s, events[0]);
      if Exact(config, key, s') {
        RunIsExactIffOnTime(config, key, s', events[1..]);
      } else {
        assert !AlwaysExact(config, key, s', events[1..]);
      }
    }
  }

  /**
   Throughout a run, a counter equals the reservations made in its window minus
   those given back, exactly when each give-back lands in the window of its
   reservation or finds the counter at zero.
   */
  lemma CountersAreExactIffReturnsAreOnTime(config: Config, key: CacheKey, events: seq<Event>)
    requires Legal(config, key, START, events)
    ensures AlwaysExact(config, key, START, events) <==> AllOnTime(config, key, START, events)
  {
    assert Outstanding(config, key, START) == {};
    RunIsExactIffOnTime(config, key, START, events);
  }

  function Run(config: Config, key: CacheKey, s: State, events: seq<Event>): State
    requires Legal(config, key, s, events)
    decreases |events|
  {
    if events == [] then s else Run(config, key, Next(config, key, s, events[0]), events[1..])
  }

  lemma {:induction false} RunKeepsInv(config: Config, key: CacheKey, s: State, events: seq<Event>)
    requires Inv(config, key, s) && ReturnedAreMade(s) && Legal(config, key, s, events)
    ensures Inv(config, key, Run(config, key, s, events))
    decreases |events|
  {
    if events != [] {
      StepKeepsInv(config, key, s, events[0]);
      RunKeepsInv(config, key, Next(config, key, s, events[0]), events[1..]);
    }
  }

  /** Late or not, a counter never claims more than is outstanding in its window. */
  lemma CountersNeverOvercount(config: Config, key: CacheKey, events: seq<Event>)
    requires Legal(config, key, START, events)
    ensures var s := Run(config, key, START, events); Count(s, key) <= |Outstanding(config, key, s)|
  {
    assert Outstanding(config, key, START) == {};
    RunKeepsInv(config, key, START, events);
  }

  // ---- A late give-back -----------------------------------------------------

  lemma RunOfFour(config: Config, key: CacheKey, s: State, es: seq<Event>, s1: State, s2: State, s3: State, s4: State)
    requires |es| == 4
    requires Enabled(s, es[0]) && s1 == Next(config, key, s, es[0])
    requires Enabled(s1, es[1]) && s2 == Next(config, key, s1, es[1])
    requires Enabled(s2, es[2]) && s3 == Next(config, key, s2, es[2])
    requires Enabled(s3, es[3]) && s4 == Next(config, key, s3, es[3])
    ensures Legal(config, key, s, es) && Run(config, key, s, es) == s4
  {
    assert Legal(config, key, s4, []) && Run(config, key, s4, []) == s4;
    assert es[3..][1..] == [] && es[2..][1..] == es[3..] && es[1..][1..] == es[2..];
    assert Legal(config, key, s3, es[3..]) && Run(config, key, s3, es[3..]) == s4;
    assert Legal(config, key, s2, es[2..]) && Run(config, key, s2, es[2..]) == s4;
    assert Legal(config, key, s1, es[1..]) && Run(config, key, s1, es[1..]) == s4;
  }

  /** One transaction a minute for each user of a relayer. */
  const ONE_A_MINUTE := UserOnly("minute", 1)

  function Only(request: Request, usage: UsageWindow): Caches {
    Caches(map[KeyOf(request, UserTier) := usage], map[], map[])
  }

  /** A call that fits is admitted and counted; the two cases that the story needs. */
  lemma CountsOne(request: Request, s: State, t: nat, start: nat)
    requires start == CalculateWindowStart(t, 60)
    requires s.caches == EMPTY_CACHES || exists u: UsageWindow ::
               s.caches == Only(request, u) && (Expired(u, t, 60) || u == UsageWindow(0, start))
    ensures var config, key := ONE_A_MINUTE, KeyOf(request, UserTier);
      var reset := Resets(config, s.caches, key, t);
      var epoch := if reset then s.epoch + 1 else s.epoch;
      Next(config, key, s, Make(request, Instant(t)))
      == State(Only(request, UsageWindow(1, start)), epoch, s.made + [Mark(request, epoch)], s.returned)
  {
    var config, key := ONE_A_MINUTE, KeyOf(request, UserTier);
    assert WindowSecondsFor(config, key) == 60;
    FreshWindowIsCurrent(t, 60);
    var s' := Next(config, key, s, Make(request, Instant(t)));
    assert s'.caches.usage == Only(request, UsageWindow(1, start)).usage;
  }

  lemma ReturnsOne(request: Request, s: State, i: nat, start: nat)
    requires i < |s.made| && i !in s.returned && s.made[i].request == request
    requires s.caches == Only(request, UsageWindow(1, start))
    ensures Next(ONE_A_MINUTE, KeyOf(request, UserTier), s, GiveBack(i))
            == s.(caches := Only(request, UsageWindow(0, start)), returned := s.returned + {i})
  {
    var s' := Next(ONE_A_MINUTE, KeyOf(request, UserTier), s, GiveBack(i));
    assert s'.caches.usage == Only(request, UsageWindow(0, start)).usage;
  }

  function LateStory(request: Request): seq<Event> {
    [Make(request, Instant(0)), Make(request, Instant(61)), GiveBack(0), Make(request, Instant(61))]
  }

  function LateState(request: Request, after: nat): State {
    match after
    case 0 => START
    case 1 => State(Only(request, UsageWindow(1, 0)), 1, [Mark(request, 1)], {})
    case 2 => State(Only(request, UsageWindow(1, 60)), 2, [Mark(request, 1), Mark(request, 2)], {})
    case 3 => State(Only(request, UsageWindow(0, 60)), 2, [Mark(request, 1), Mark(request, 2)], {0})
    case _ => State(Only(request, UsageWindow(1, 60)), 2, [Mark(request, 1), Mark(request, 2), Mark(request, 2)], {0})
  }

  lemma LateStep(request: Request, i: nat)
    requires i < 4
    ensures Enabled(LateState(request, i), LateStory(request)[i])
    ensures Next(ONE_A_MINUTE, KeyOf(request, UserTier), LateState(request, i), LateStory(request)[i])
            == LateState(request, i + 1)
  {
    QuotientIsUnique(0, 60, 0);
    QuotientIsUnique(61, 60, 1);
    if i == 0 {
      CountsOne(request, START, 0, 0);
    } else if i == 1 {
      assert Expired(UsageWindow(1, 0), 61, 60);
      CountsOne(request, LateState(request, 1), 61, 60);
    } else if i == 2 {
      ReturnsOne(request, LateState(request, 2), 0, 60);
    } else {
      CountsOne(request, LateState(request, 3), 61, 60);
    }
  }

  lemma LateStoryEnds(request: Request)
    ensures var config, key := ONE_A_MINUTE, KeyOf(request, UserTier);
      && Legal(config, key, START, LateStory(request))
      && Run(config, key, START, LateStory(request)) == LateState(request, 4)
  {
    LateStep(request, 0);
    LateStep(request, 1);
    LateStep(request, 2);
    LateStep(request, 3);
    RunOfFour(ONE_A_MINUTE, KeyOf(request, UserTier), START, LateStory(request),
              LateState(request, 1), LateState(request, 2), LateState(request, 3), LateState(request, 4));
  }

  /**
   Late give-backs do happen and then too much is admitted: with one operation
   a minute, the first is given back after a second one has started a new
   window; the counter reads zero, and a third joins the second in its window.
   */
  lemma LateReturnAdmitsTooMany(request: Request)
    ensures var config, key := ONE_A_MINUTE, KeyOf(request, UserTier);
      && LimitFor(config, key) == Some(1)
      && Legal(config, key, START, LateStory(request))
      && Outstanding(config, key, Run(config, key, START, LateStory(request))) == {1, 2}
  {
    LateStoryEnds(request);
    var config, key := ONE_A_MINUTE, KeyOf(request, UserTier);
    var made := [Mark(request, 1), Mark(request, 2), Mark(request, 2)];
    assert Run(config, key, START, LateStory(request)).made == made;
  }
}
