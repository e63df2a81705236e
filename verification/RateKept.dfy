/**
 How many of the operations that are kept a stretch of time holds, when others
 are given back in time: the case the request handlers live in, which commit a
 reservation or drop it.
 */
module RateKept {
  import opened Prelude
  import opened RateWindow
  import opened RateAccounting
  import Law = RateWindowLaw

  /** When an admitted request reserved on the key, and in which window. */
  datatype Stamp = Stamp(at: nat, start: nat)

  function Extend(config: Config, key: CacheKey, s: State, stamps: seq<Stamp>, e: Event): seq<Stamp>
    requires Enabled(s, e)
  {
    if e.Make? && Refusal(config, s.caches, e.request, e.clock).None?
    then
      var usage := AfterReserve(Cached(s.caches, key), e.clock.ReserveTime(TierOf(key)), WindowSecondsFor(config, key));
      stamps + [Stamp(e.clock.ReserveTime(TierOf(key)), usage.windowStart)]
    else stamps
  }

  /** One stamp for every admitted request of the run. */
  function Stamps(config: Config, key: CacheKey, s: State, stamps: seq<Stamp>, events: seq<Event>): seq<Stamp>
    requires Legal(config, key, s, events)
    decreases |events|
  {
    if events == [] then stamps
    else
      Stamps(config, key, Next(config, key, s, events[0]), Extend(config, key, s, stamps, events[0]), events[1..])
  }

  /** Clocks do not go backwards within a request or from one request to the next. */
  predicate InOrder(events: seq<Event>, from: nat)
    decreases |events|
  {
    events == [] ||
    if events[0].Make?
    then events[0].clock.Monotone(from) && InOrder(events[1..], events[0].clock.reserveRelayer)
    else InOrder(events[1..], from)
  }

  function Later(e: Event, now: nat): nat {
    if e.Make? then e.clock.reserveRelayer else now
  }

  /** The reservations on the key that were made in one window and not given back. */
  function KeptIn(config: Config, key: CacheKey, s: State, epoch: nat): set<nat> {
    set i: nat |
      i < |s.made| && i !in s.returned && s.made[i].epoch == epoch && Touches(config, s.made[i].request, key)
  }

  predicate Touching(config: Config, key: CacheKey, s: State, i: nat) {
    i < |s.made| && Touches(config, s.made[i].request, key)
  }

  /** What is known of one reservation against the window of the counter now. */
  ghost predicate StampOk(config: Config, key: CacheKey, s: State, stamps: seq<Stamp>, i: nat, w: nat, now: nat)
    requires |stamps| == |s.made| && i < |s.made|
  {
    var cached, epoch := Cached(s.caches, key), s.made[i].epoch;
    && cached.Some? && epoch <= s.epoch
    && stamps[i].start <= stamps[i].at <= stamps[i].start + w && stamps[i].at <= now
    && cached.value.windowStart >= stamps[i].start + (s.epoch - epoch) * w
    && (epoch < s.epoch ==> now > stamps[i].start + (s.epoch - epoch) * w)
  }

  /** What is known of two reservations, the first made before the second. */
  ghost predicate PairOk(s: State, stamps: seq<Stamp>, i: nat, j: nat, w: nat)
    requires |stamps| == |s.made| && i < |s.made| && j < |s.made|
  {
    && s.made[i].epoch <= s.made[j].epoch && stamps[i].at <= stamps[j].at
    && (s.made[i].epoch < s.made[j].epoch ==>
          stamps[j].at > stamps[i].start + (s.made[j].epoch - s.made[i].epoch) * w)
  }

  ghost predicate WindowOk(cached: Option<UsageWindow>, w: nat, now: nat) {
    cached.Some? ==> cached.value.windowStart <= now && Law.Aligned(cached.value.windowStart, w)
  }

  ghost predicate KeptInv(
    config: Config, key: CacheKey, s: State, stamps: seq<Stamp>, limit: nat, now: nat)
  {
    var w := WindowSecondsFor(config, key);
    && |stamps| == |s.made| && Inv(config, key, s) && ReturnedAreMade(s) && Exact(config, key, s)
    && WindowOk(Cached(s.caches, key), w, now)
    && (forall i: nat :: Touching(config, key, s, i) ==> StampOk(config, key, s, stamps, i, w, now))
    && (forall i: nat, j: nat :: i <= j && Touching(config, key, s, i) && Touching(config, key, s, j) ==>
          PairOk(s, stamps, i, j, w))
    && (forall epoch: nat :: |KeptIn(config, key, s, epoch)| <= limit)
  }

  // ---- Giving back ----------------------------------------------------------------

  /** What a give-back leaves alone: the marks, the window number and the start of the window. */
  lemma GiveBackKeepsWindow(config: Config, key: CacheKey, s: State, i: nat)
    requires Enabled(s, GiveBack(i))
    ensures var s' := Next(config, key, s, GiveBack(i));
      var cached, cached' := Cached(s.caches, key), Cached(s'.caches, key);
      && s'.made == s.made && s'.epoch == s.epoch && s.returned <= s'.returned
      && (cached.Some? <==> cached'.Some?)
      && (cached.Some? ==> cached'.value.windowStart == cached.value.windowStart)
  {
    RevertAllOnKey(config, s.caches, s.made[i].request, key);
  }

  lemma GiveBackKeepsStamps(
    config: Config, key: CacheKey, s: State, stamps: seq<Stamp>, i: nat, limit: nat, now: nat)
    requires KeptInv(config, key, s, stamps, limit, now) && Enabled(s, GiveBack(i))
    ensures var s', w := Next(config, key, s, GiveBack(i)), WindowSecondsFor(config, key);
      && |stamps| == |s'.made|
      && (forall j: nat :: Touching(config, key, s', j) ==> StampOk(config, key, s', stamps, j, w, now))
      && (forall a: nat, b: nat :: a <= b && Touching(config, key, s', a) && Touching(config, key, s', b) ==>
            PairOk(s', stamps, a, b, w))
  {
    var s', w := Next(config, key, s, GiveBack(i)), WindowSecondsFor(config, key);
    GiveBackKeepsWindow(config, key, s, i);
    forall j: nat | Touching(config, key, s', j)
      ensures StampOk(config, key, s', stamps, j, w, now)
    {
      assert Touching(config, key, s, j) && StampOk(config, key, s, stamps, j, w, now);
    }
    forall a: nat, b: nat | a <= b && Touching(config, key, s', a) && Touching(config, key, s', b)
      ensures PairOk(s', stamps, a, b, w)
    {
      assert Touching(config, key, s, a) && Touching(config, key, s, b) && PairOk(s, stamps, a, b, w);
    }
  }

  // ---- Making -----------------------------------------------------------------------

  /** One more window on the way is one more multiple of its length. */
  lemma OneMoreWindow(epoch: nat, before: nat, w: nat)
    requires before <= epoch
    ensures (epoch + 1 - before) * w == (epoch - before) * w + w
  {
  }

  /** The next state of an admitted request, as far as the key is concerned. */
  ghost predicate Made(
    config: Config, key: CacheKey, s: State, s': State, request: Request, usage: UsageWindow, reset: bool)
  {
    && s'.epoch == (if reset then s.epoch + 1 else s.epoch)
    && s'.made == s.made + [Mark(request, s'.epoch)] && s'.returned == s.returned
    && (reset ==> Touches(config, request, key))
    && Cached(s'.caches, key) == (if Touches(config, request, key) then Some(usage) else Cached(s.caches, key))
  }

  lemma MakeIsMade(config: Config, key: CacheKey, s: State, request: Request, clock: Clock)
    requires Refusal(config, s.caches, request, clock).None?
    ensures var at := clock.ReserveTime(TierOf(key));
      Made(
        config, key, s, Next(config, key, s, Make(request, clock)), request,
        AfterReserve(Cached(s.caches, key), at, WindowSecondsFor(config, key)),
        Touches(config, request, key) && Resets(config, s.caches, key, at))
  {
    ServeOnKey(config, s.caches, request, clock, key);
  }

  /** The window the reservation is counted in, against the one before it. */
  lemma WindowMovesOn(cached: Option<UsageWindow>, at: nat, w: nat, now: nat)
    requires w > 0 && WindowOk(cached, w, now) && now <= at
    ensures var usage := AfterReserve(cached, at, w);
      && usage.windowStart <= at <= usage.windowStart + w && Law.Aligned(usage.windowStart, w)
      && (cached.Some? && !Expired(cached.value, at, w) ==> usage.windowStart == cached.value.windowStart)
      && (cached.Some? && Expired(cached.value, at, w) ==>
            usage.windowStart >= cached.value.windowStart + w && at > cached.value.windowStart + w)
  {
    FreshWindowIsCurrent(at, w);
    if cached.Some? && Expired(cached.value, at, w) {
      ResetAdvancesAWindow(cached.value.windowStart, at, w);
    }
  }

  lemma OldStampsStay(
    config: Config, key: CacheKey, s: State, s': State, stamps: seq<Stamp>, request: Request, reset: bool,
    at: nat, i: nat, w: nat, now: nat, later: nat)
    requires |stamps| == |s.made| && Touching(config, key, s, i) && StampOk(config, key, s, stamps, i, w, now)
    requires w > 0 && WindowOk(Cached(s.caches, key), w, now) && now <= at <= later
    requires Made(config, key, s, s', request, AfterReserve(Cached(s.caches, key), at, w), reset)
    requires reset <==> Touches(config, request, key) && Expired(Cached(s.caches, key).value, at, w)
    ensures StampOk(config, key, s', stamps + [Stamp(at, AfterReserve(Cached(s.caches, key), at, w).windowStart)],
                    i, w, later)
  {
    WindowMovesOn(Cached(s.caches, key), at, w, now);
    OneMoreWindow(s.epoch, s.made[i].epoch, w);
  }

  /** The new reservation against an old one. */
  lemma NewPair(
    config: Config, key: CacheKey, s: State, s': State, stamps: seq<Stamp>, request: Request, reset: bool,
    at: nat, i: nat, w: nat, now: nat)
    requires |stamps| == |s.made| && Touching(config, key, s, i) && StampOk(config, key, s, stamps, i, w, now)
    requires w > 0 && WindowOk(Cached(s.caches, key), w, now) && now <= at
    requires Made(config, key, s, s', request, AfterReserve(Cached(s.caches, key), at, w), reset)
    requires Touches(config, request, key) && (reset <==> Expired(Cached(s.caches, key).value, at, w))
    ensures PairOk(s', stamps + [Stamp(at, AfterReserve(Cached(s.caches, key), at, w).windowStart)],
                   i, |s.made|, w)
  {
    WindowMovesOn(Cached(s.caches, key), at, w, now);
    OneMoreWindow(s.epoch, s.made[i].epoch, w);
  }

  /** Each window keeps its reservations; the current one is what is outstanding. */
  lemma KeptAfterMake(
    config: Config, key: CacheKey, s: State, s': State, request: Request, usage: UsageWindow, reset: bool,
    limit: nat, epoch: nat)
    requires Inv(config, key, s) && ReturnedAreMade(s) && Made(config, key, s, s', request, usage, reset)
    requires |KeptIn(config, key, s, epoch)| <= limit
    requires Exact(config, key, s') && (Touches(config, request, key) ==> usage.usageCount <= limit)
    ensures |KeptIn(config, key, s', epoch)| <= limit
  {
    var old', new' := KeptIn(config, key, s, epoch), KeptIn(config, key, s', epoch);
    assert forall i :: 0 <= i < |s.made| ==> s'.made[i] == s.made[i];
    if Touches(config, request, key) && epoch == s'.epoch {
      assert new' == Outstanding(config, key, s');
    } else {
      assert new' == old';
    }
  }

  /** The counter after an admitted request is within the limit. */
  lemma AdmittedFits(
    config: Config, key: CacheKey, s: State, request: Request, clock: Clock, limit: nat, w: nat, now: nat)
    requires LimitFor(config, key) == Some(limit) && w == WindowSecondsFor(config, key)
    requires WindowOk(Cached(s.caches, key), w, now) && clock.Monotone(now)
    requires Refusal(config, s.caches, request, clock).None? && Touches(config, request, key)
    ensures AfterReserve(Cached(s.caches, key), clock.ReserveTime(TierOf(key)), w).usageCount <= limit
  {
    ServeOnKey(config, s.caches, request, clock, key);
    Law.CheckBoundsReservation(
      Cached(s.caches, key), w, limit, clock.CheckTime(TierOf(key)), clock.ReserveTime(TierOf(key)));
  }

  /** An admitted request, as a step to the next state and its stamp. */
  ghost predicate Admitted(
    config: Config, key: CacheKey, s: State, stamps: seq<Stamp>, s': State, stamps': seq<Stamp>, request: Request,
    reset: bool, at: nat)
  {
    var usage := AfterReserve(Cached(s.caches, key), at, WindowSecondsFor(config, key));
    && Made(config, key, s, s', request, usage, reset) && stamps' == stamps + [Stamp(at, usage.windowStart)]
    && (reset <==> Touches(config, request, key) && Resets(config, s.caches, key, at))
  }

  lemma NewStampIsOk(
    config: Config, key: CacheKey, s: State, stamps: seq<Stamp>, s': State, stamps': seq<Stamp>, request: Request,
    reset: bool, at: nat, now: nat, later: nat)
    requires |stamps| == |s.made| && WindowOk(Cached(s.caches, key), WindowSecondsFor(config, key), now)
    requires Admitted(config, key, s, stamps, s', stamps', request, reset, at) && now <= at <= later
    requires Touches(config, request, key)
    ensures StampOk(config, key, s', stamps', |s.made|, WindowSecondsFor(config, key), later)
  {
    WindowMovesOn(Cached(s.caches, key), at, WindowSecondsFor(config, key), now);
  }

  lemma StampsStay(
    config: Config, key: CacheKey, s: State, stamps: seq<Stamp>, s': State, stamps': seq<Stamp>, request: Request,
    reset: bool, at: nat, limit: nat, now: nat, later: nat)
    requires KeptInv(config, key, s, stamps, limit, now) && now <= at <= later
    requires Admitted(config, key, s, stamps, s', stamps', request, reset, at)
    ensures forall i: nat :: Touching(config, key, s', i) ==>
              StampOk(config, key, s', stamps', i, WindowSecondsFor(config, key), later)
  {
    var w := WindowSecondsFor(config, key);
    forall i: nat | Touching(config, key, s', i)
      ensures StampOk(config, key, s', stamps', i, w, later)
    {
      if i < |s.made| {
        assert Touching(config, key, s, i) && StampOk(config, key, s, stamps, i, w, now);
        OldStampsStay(config, key, s, s', stamps, request, reset, at, i, w, now, later);
      } else {
        NewStampIsOk(config, key, s, stamps, s', stamps', request, reset, at, now, later);
      }
    }
  }

  lemma PairsStay(
    config: Config, key: CacheKey, s: State, stamps: seq<Stamp>, s': State, stamps': seq<Stamp>, request: Request,
    reset: bool, at: nat, limit: nat, now: nat)
    requires KeptInv(config, key, s, stamps, limit, now) && now <= at
    requires Admitted(config, key, s, stamps, s', stamps', request, reset, at)
    ensures forall i: nat, j: nat :: i <= j && Touching(config, key, s', i) && Touching(config, key, s', j) ==>
              PairOk(s', stamps', i, j, WindowSecondsFor(config, key))
  {
    var w := WindowSecondsFor(config, key);
    forall i: nat, j: nat | i <= j && Touching(config, key, s', i) && Touching(config, key, s', j)
      ensures PairOk(s', stamps', i, j, w)
    {
      if j < |s.made| {
        assert Touching(config, key, s, i) && Touching(config, key, s, j) && PairOk(s, stamps, i, j, w);
      } else if i < |s.made| {
        assert Touching(config, key, s, i) && StampOk(config, key, s, stamps, i, w, now);
        NewPair(config, key, s, s', stamps, request, reset, at, i, w, now);
      }
    }
  }

  lemma MakeKeepsKept(
    config: Config, key: CacheKey, s: State, stamps: seq<Stamp>, request: Request, clock: Clock, limit: nat, now: nat)
    requires KeptInv(config, key, s, stamps, limit, now) && LimitFor(config, key) == Some(limit)
    requires Refusal(config, s.caches, request, clock).None? && clock.Monotone(now)
    ensures var s' := Next(config, key, s, Make(request, clock));
      forall epoch: nat :: |KeptIn(config, key, s', epoch)| <= limit
  {
    var s' := Next(config, key, s, Make(request, clock));
    var w, at := WindowSecondsFor(config, key), clock.ReserveTime(TierOf(key));
    StepKeepsInv(config, key, s, Make(request, clock));
    MakeIsMade(config, key, s, request, clock);
    if Touches(config, request, key) {
      AdmittedFits(config, key, s, request, clock, limit, w, now);
    }
    forall epoch: nat
      ensures |KeptIn(config, key, s', epoch)| <= limit
    {
      KeptAfterMake(
        config, key, s, s', request, AfterReserve(Cached(s.caches, key), at, w),
        Touches(config, request, key) && Resets(config, s.caches, key, at), limit, epoch);
    }
  }

  lemma MakeKeepsAll(
    config: Config, key: CacheKey, s: State, stamps: seq<Stamp>, request: Request, clock: Clock, limit: nat, now: nat)
    requires KeptInv(config, key, s, stamps, limit, now) && LimitFor(config, key) == Some(limit)
    requires Refusal(config, s.caches, request, clock).None? && clock.Monotone(now)
    ensures var e := Make(request, clock);
      KeptInv(
        config, key, Next(config, key, s, e), Extend(config, key, s, stamps, e), limit, clock.reserveRelayer)
  {
    var e, at := Make(request, clock), clock.ReserveTime(TierOf(key));
    var s', stamps' := Next(config, key, s, e), Extend(config, key, s, stamps, e);
    var reset := Touches(config, request, key) && Resets(config, s.caches, key, at);
    StepKeepsInv(config, key, s, e);
    MakeIsMade(config, key, s, request, clock);
    assert Admitted(config, key, s, stamps, s', stamps', request, reset, at);
    WindowMovesOn(Cached(s.caches, key), at, WindowSecondsFor(config, key), now);
    StampsStay(config, key, s, stamps, s', stamps', request, reset, at, limit, now, clock.reserveRelayer);
    PairsStay(config, key, s, stamps, s', stamps', request, reset, at, limit, now);
    MakeKeepsKept(config, key, s, stamps, request, clock, limit, now);
  }

  lemma StepKeepsKept(
    config: Config, key: CacheKey, s: State, stamps: seq<Stamp>, e: Event, limit: nat, now: nat)
    requires KeptInv(config, key, s, stamps, limit, now) && LimitFor(config, key) == Some(limit)
    requires Enabled(s, e) && OnTime(config, key, s, e) && (e.Make? ==> e.clock.Monotone(now))
    ensures KeptInv(config, key, Next(config, key, s, e), Extend(config, key, s, stamps, e), limit, Later(e, now))
  {
    match e
    case GiveBack(i) =>
      var s' := Next(config, key, s, e);
      StepKeepsInv(config, key, s, e);
      GiveBackKeepsWindow(config, key, s, i);
      GiveBackKeepsStamps(config, key, s, stamps, i, limit, now);
      forall epoch: nat
        ensures |KeptIn(config, key, s', epoch)| <= limit
      {
        SubsetIsSmaller(KeptIn(config, key, s', epoch), KeptIn(config, key, s, epoch));
      }
    case Make(request, clock) =>
      if Refusal(config, s.caches, request, clock).None? {
        StepKeepsInv(config, key, s, e);
        MakeKeepsAll(config, key, s, stamps, request, clock, limit, now);
      }
  }

  ghost predicate KeptAtLast(config: Config, key: CacheKey, s: State, stamps: seq<Stamp>, limit: nat) {
    exists now: nat :: KeptInv(config, key, s, stamps, limit, now)
  }

  lemma {:induction false} RunKeepsKept(
    config: Config, key: CacheKey, s: State, stamps: seq<Stamp>, events: seq<Event>, limit: nat, now: nat)
    requires KeptInv(config, key, s, stamps, limit, now) && LimitFor(config, key) == Some(limit)
    requires Legal(config, key, s, events) && AllOnTime(config, key, s, events) && InOrder(events, now)
    ensures KeptAtLast(config, key, Run(config, key, s, events), Stamps(config, key, s, stamps, events), limit)
    decreases |events|
  {
    if events != [] {
      StepKeepsKept(config, key, s, stamps, events[0], limit, now);
      RunKeepsKept(
        config, key, Next(config, key, s, events[0]), Extend(config, key, s, stamps, events[0]), events[1..],
        limit, Later(events[0], now));
    }
  }

  // ---- A stretch of time ----------------------------------------------------------------

  /** The reservations on the key, from the i-th request to the j-th, that were not given back. */
  function KeptBetween(config: Config, key: CacheKey, s: State, i: nat, j: nat): set<nat> {
    set x: nat | i <= x <= j && Touching(config, key, s, x) && x !in s.returned
  }

  function KeptFrom(config: Config, key: CacheKey, s: State, epoch: nat, more: nat): set<nat> {
    if more == 0 then KeptIn(config, key, s, epoch)
    else KeptFrom(config, key, s, epoch, more - 1) + KeptIn(config, key, s, epoch + more)
  }

  lemma {:induction false} KeptFromMembers(config: Config, key: CacheKey, s: State, epoch: nat, more: nat, x: nat)
    requires Touching(config, key, s, x) && x !in s.returned && epoch <= s.made[x].epoch <= epoch + more
    ensures x in KeptFrom(config, key, s, epoch, more)
    decreases more
  {
    if more > 0 && s.made[x].epoch < epoch + more {
      KeptFromMembers(config, key, s, epoch, more - 1, x);
    }
  }

  /** limit, more + 1 times. */
  function Windows(more: nat, limit: nat): nat {
    if more == 0 then limit else Windows(more - 1, limit) + limit
  }

  lemma {:induction false} WindowsIsProduct(more: nat, limit: nat)
    ensures Windows(more, limit) == (more + 1) * limit
  {
    if more > 0 {
      WindowsIsProduct(more - 1, limit);
      assert (more + 1) * limit == more * limit + limit;
    }
  }

  lemma UnionSize(a: set<nat>, b: set<nat>)
    ensures |a + b| <= |a| + |b|
  {
  }

  lemma {:induction false} KeptFromIsBounded(
    config: Config, key: CacheKey, s: State, epoch: nat, more: nat, limit: nat)
    requires forall e: nat :: |KeptIn(config, key, s, e)| <= limit
    ensures |KeptFrom(config, key, s, epoch, more)| <= Windows(more, limit)
    decreases more
  {
    if more > 0 {
      KeptFromIsBounded(config, key, s, epoch, more - 1, limit);
      UnionSize(KeptFrom(config, key, s, epoch, more - 1), KeptIn(config, key, s, epoch + more));
    }
  }

  /** Two reservations at most m windows apart are at most m windows of the counter apart. */
  lemma EpochsApart(s: State, stamps: seq<Stamp>, i: nat, j: nat, w: nat, m: nat)
    requires w > 0 && |stamps| == |s.made| && i < |s.made| && j < |s.made| && PairOk(s, stamps, i, j, w)
    requires stamps[i].at <= stamps[i].start + w && stamps[j].at - stamps[i].at <= m * w
    ensures s.made[j].epoch - s.made[i].epoch <= m
  {
    assert (m + 1) * w == m * w + w;
    if m + 1 <= s.made[j].epoch - s.made[i].epoch {
      Law.MultiplesOrder(m + 1, s.made[j].epoch - s.made[i].epoch, w);
    }
  }

  lemma KeptInAStretchOf(
    config: Config, key: CacheKey, s: State, stamps: seq<Stamp>, limit: nat, now: nat, m: nat, i: nat, j: nat)
    requires KeptInv(config, key, s, stamps, limit, now) && i <= j
    requires Touching(config, key, s, i) && Touching(config, key, s, j)
    requires stamps[j].at - stamps[i].at <= m * WindowSecondsFor(config, key)
    ensures |KeptBetween(config, key, s, i, j)| <= (m + 1) * limit
  {
    var w := WindowSecondsFor(config, key);
    assert PairOk(s, stamps, i, j, w) && StampOk(config, key, s, stamps, i, w, now);
    EpochsApart(s, stamps, i, j, w, m);
    var kept, all := KeptBetween(config, key, s, i, j), KeptFrom(config, key, s, s.made[i].epoch, m);
    forall x | x in kept
      ensures x in all
    {
      assert PairOk(s, stamps, i, x, w) && PairOk(s, stamps, x, j, w);
      KeptFromMembers(config, key, s, s.made[i].epoch, m, x);
    }
    SubsetIsSmaller(kept, all);
    KeptFromIsBounded(config, key, s, s.made[i].epoch, m, limit);
    WindowsIsProduct(m, limit);
  }

  /**
   The window law for what is kept: in every serial run with an ordered clock
   whose give-backs are on time, operations on a key that are never given back,
   the first and the last at most m windows apart, number at most (m + 1) * limit.
   */
  lemma KeptInAStretch(
    config: Config, key: CacheKey, events: seq<Event>, limit: nat, m: nat, i: nat, j: nat)
    requires LimitFor(config, key) == Some(limit)
    requires Legal(config, key, START, events) && AllOnTime(config, key, START, events) && InOrder(events, 0)
    requires i <= j && |Stamps(config, key, START, [], events)| > j
    requires var s := Run(config, key, START, events); Touching(config, key, s, i) && Touching(config, key, s, j)
    requires var stamps := Stamps(config, key, START, [], events);
      stamps[j].at - stamps[i].at <= m * WindowSecondsFor(config, key)
    ensures |KeptBetween(config, key, Run(config, key, START, events), i, j)| <= (m + 1) * limit
  {
    assert Outstanding(config, key, START) == {};
    assert forall epoch: nat :: KeptIn(config, key, START, epoch) == {};
    assert KeptInv(config, key, START, [], limit, 0);
    RunKeepsKept(config, key, START, [], events, limit, 0);
    var s, stamps := Run(config, key, START, events), Stamps(config, key, START, [], events);
    assert KeptAtLast(config, key, s, stamps, limit);
    var later: nat :| KeptInv(config, key, s, stamps, limit, later);
    KeptInAStretchOf(config, key, s, stamps, limit, later, m, i, j);
  }
}
