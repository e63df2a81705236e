/**
 What one rate-limit counter does, and what a three-tier request does to the
 counters it touches. Times are whole seconds.
 */
module RateWindow {
  import opened Prelude
  import opened Intervals

  // ---- One counter ----------------------------------------------------------

  datatype UsageWindow = UsageWindow(usageCount: nat, windowStart: nat)

  /** Windows start at multiples of their length. */
  function CalculateWindowStart(now: nat, windowSeconds: nat): nat
    requires windowSeconds > 0
  {
    Quotient(now, windowSeconds) * windowSeconds
  }

  /** A clock behind the window start counts as expired; at exactly the window length it is not. */
  predicate Expired(usage: UsageWindow, now: nat, windowSeconds: nat) {
    now < usage.windowStart || now - usage.windowStart > windowSeconds
  }

  function UsageOrFresh(cached: Option<UsageWindow>, now: nat, windowSeconds: nat): UsageWindow
    requires windowSeconds > 0
  {
    if cached.Some? then cached.value else UsageWindow(0, CalculateWindowStart(now, windowSeconds))
  }

  /** The count the request would bring the counter to. */
  function CurrentUsage(cached: Option<UsageWindow>, now: nat, windowSeconds: nat): nat
    requires windowSeconds > 0
  {
    var usage := UsageOrFresh(cached, now, windowSeconds);
    if Expired(usage, now, windowSeconds) then 1 else usage.usageCount + 1
  }

  function AfterReserve(cached: Option<UsageWindow>, now: nat, windowSeconds: nat): UsageWindow
    requires windowSeconds > 0
  {
    var usage := UsageOrFresh(cached, now, windowSeconds);
    if Expired(usage, now, windowSeconds)
    then UsageWindow(1, CalculateWindowStart(now, windowSeconds))
    else UsageWindow(usage.usageCount + 1, usage.windowStart)
  }

  function AfterRevert(cached: Option<UsageWindow>): Option<UsageWindow> {
    if cached.Some? && cached.value.usageCount > 0
    then Some(cached.value.(usageCount := cached.value.usageCount - 1))
    else cached
  }

  /** A missing counter behaves as a counter of zero in the current window. */
  lemma FreshWindowIsCurrent(now: nat, windowSeconds: nat)
    requires windowSeconds > 0
    ensures var start := CalculateWindowStart(now, windowSeconds);
      start <= now < start + windowSeconds
    ensures AfterReserve(None, now, windowSeconds)
            == UsageWindow(1, CalculateWindowStart(now, windowSeconds))
  {
  }

  /** Every moment belongs to the window that starts at the multiple of the length before it. */
  lemma WindowStartIsTheMultiple(k: nat, offset: nat, windowSeconds: nat)
    requires offset < windowSeconds
    ensures CalculateWindowStart(k * windowSeconds + offset, windowSeconds) == k * windowSeconds
  {
    QuotientIsUnique(k * windowSeconds + offset, windowSeconds, k);
  }

  lemma StartIsNotBefore(k: nat, now: nat, windowSeconds: nat)
    requires windowSeconds > 0 && k * windowSeconds <= now
    ensures CalculateWindowStart(now, windowSeconds) >= k * windowSeconds
  {
    var q := Quotient(now, windowSeconds);
    assert q < k ==> (q + 1) * windowSeconds <= k * windowSeconds;
    assert q >= k ==> q * windowSeconds >= k * windowSeconds;
  }

  /** A reset moves the start forward by at least one whole window, if starts are aligned. */
  lemma ResetAdvancesAWindow(start: nat, now: nat, windowSeconds: nat)
    requires windowSeconds > 0
    requires exists k: nat :: start == k * windowSeconds
    requires now > start + windowSeconds
    ensures CalculateWindowStart(now, windowSeconds) >= start + windowSeconds
  {
    var k: nat :| start == k * windowSeconds;
    assert (k + 1) * windowSeconds == start + windowSeconds;
    StartIsNotBefore(k + 1, now, windowSeconds);
  }

  /** Reservations at these times, one after another. */
  function ReserveEach(usage: UsageWindow, times: seq<nat>, windowSeconds: nat): UsageWindow
    requires windowSeconds > 0
  {
    if times == [] then usage
    else
      var n := |times| - 1;
      AfterReserve(Some(ReserveEach(usage, times[..n], windowSeconds)), times[n], windowSeconds)
  }

  lemma {:induction false} EachCounts(usage: UsageWindow, times: seq<nat>, windowSeconds: nat)
    requires windowSeconds > 0
    requires forall i :: 0 <= i < |times| ==> !Expired(usage, times[i], windowSeconds)
    ensures ReserveEach(usage, times, windowSeconds)
            == UsageWindow(usage.usageCount + |times|, usage.windowStart)
    decreases |times|
  {
    if times != [] {
      EachCounts(usage, times[..|times| - 1], windowSeconds);
    }
  }

  /**
   A reservation given back while its window still runs counts for nothing: a
   check then sees what was there when it was made, plus every reservation
   made since, and not the one given back.
   */
  lemma GivenBackCountsOnlyTheOthers(
    cached: Option<UsageWindow>, at: nat, others: seq<nat>, now: nat, windowSeconds: nat)
    requires windowSeconds > 0
    requires var usage := AfterReserve(cached, at, windowSeconds);
      && (forall i :: 0 <= i < |others| ==> !Expired(usage, others[i], windowSeconds))
      && !Expired(usage, now, windowSeconds)
    ensures var usage := AfterReserve(cached, at, windowSeconds);
      CurrentUsage(AfterRevert(Some(ReserveEach(usage, others, windowSeconds))), now, windowSeconds)
      == CurrentUsage(cached, at, windowSeconds) + |others|
  {
    EachCounts(AfterReserve(cached, at, windowSeconds), others, windowSeconds);
    FreshWindowIsCurrent(at, windowSeconds);
  }

  // ---- Configuration and keys -----------------------------------------------

  datatype Operation = Transaction | Signing

  datatype LimitWithInterval = LimitWithInterval(interval: string, transactions: nat, signingOperations: nat)

  datatype UserLimits = UserLimits(perRelayer: Option<LimitWithInterval>, global: Option<LimitWithInterval>)

  datatype Config = Config(userLimits: Option<UserLimits>, relayerLimits: Option<LimitWithInterval>)

  /** The three caches are separate maps; a key says which one it belongs to. */
  datatype CacheKey =
    | UserKey(user: string, relayer: EvmAddress, operation: Operation)
    | GlobalUserKey(operation: Operation)
    | RelayerKey(relayer: EvmAddress, operation: Operation)

  datatype Caches = Caches(
    usage: map<CacheKey, UsageWindow>,
    globalUsage: map<CacheKey, UsageWindow>,
    relayerUsage: map<CacheKey, UsageWindow>)

  const EMPTY_CACHES := Caches(map[], map[], map[])

  function Cached(caches: Caches, key: CacheKey): Option<UsageWindow> {
    match key
    case UserKey(_, _, _) => Lookup(caches.usage, key)
    case GlobalUserKey(_) => Lookup(caches.globalUsage, key)
    case RelayerKey(_, _) => Lookup(caches.relayerUsage, key)
  }

  function WithWindow(caches: Caches, key: CacheKey, usage: UsageWindow): Caches {
    match key
    case UserKey(_, _, _) => caches.(usage := caches.usage[key := usage])
    case GlobalUserKey(_) => caches.(globalUsage := caches.globalUsage[key := usage])
    case RelayerKey(_, _) => caches.(relayerUsage := caches.relayerUsage[key := usage])
  }

  function LimitOf(limits: LimitWithInterval, operation: Operation): nat {
    if operation == Transaction then limits.transactions else limits.signingOperations
  }

  /** Per-relayer user limits, else the relayer limits, else 100 / 50 a minute. */
  function LimitsForUser(config: Config): LimitWithInterval {
    if config.userLimits.Some? && config.userLimits.value.perRelayer.Some?
    then config.userLimits.value.perRelayer.value
    else if config.relayerLimits.Some? then config.relayerLimits.value
    else LimitWithInterval("minute", 100, 50)
  }

  function GlobalLimits(config: Config): Option<LimitWithInterval> {
    if config.userLimits.Some? then config.userLimits.value.global else None
  }

  /** The limits governing a key; None when its tier is not configured. */
  function LimitsForKey(config: Config, key: CacheKey): Option<LimitWithInterval> {
    match key
    case UserKey(_, _, _) => Some(LimitsForUser(config))
    case GlobalUserKey(_) => GlobalLimits(config)
    case RelayerKey(_, _) => config.relayerLimits
  }

  predicate Configured(config: Config, key: CacheKey) {
    LimitsForKey(config, key).Some?
  }

  function WindowSecondsFor(config: Config, key: CacheKey): (seconds: nat)
    ensures seconds >= 1
  {
    var limits := LimitsForKey(config, key);
    if limits.Some? then ParseInterval(limits.value.interval) else 60
  }

  /**
   The largest count a check lets through, if there is one: an unconfigured
   tier has none, and neither has a user tier whose limit is the largest u64.
   */
  function LimitFor(config: Config, key: CacheKey): Option<nat> {
    var limits := LimitsForKey(config, key);
    if limits.None? then None
    else
      var limit := LimitOf(limits.value, key.operation);
      if key.UserKey? && limit == U64_MAX then None else Some(limit)
  }

  /** Only the per-relayer user limit is configured. */
  function UserOnly(interval: string, limit: nat): Config {
    Config(Some(UserLimits(Some(LimitWithInterval(interval, limit, limit)), None)), None)
  }

  function Minute(limit: nat): Config {
    UserOnly("minute", limit)
  }

  // ---- One whole request, served without interruption -----------------------

  datatype Request = Request(user: string, relayer: EvmAddress, operation: Operation)

  datatype Tier = UserTier | GlobalTier | RelayerTier

  function KeyOf(request: Request, tier: Tier): CacheKey {
    match tier
    case UserTier => UserKey(request.user, request.relayer, request.operation)
    case GlobalTier => GlobalUserKey(request.operation)
    case RelayerTier => RelayerKey(request.relayer, request.operation)
  }

  function TierOf(key: CacheKey): Tier {
    match key
    case UserKey(_, _, _) => UserTier
    case GlobalUserKey(_) => GlobalTier
    case RelayerKey(_, _) => RelayerTier
  }

  /** The clock is read again before each of the six steps. */
  datatype Clock = Clock(
    checkRelayer: nat, checkGlobal: nat, checkUser: nat,
    reserveUser: nat, reserveGlobal: nat, reserveRelayer: nat)
  {
    predicate Monotone(from: nat) {
      from <= checkRelayer <= checkGlobal <= checkUser <= reserveUser <= reserveGlobal <= reserveRelayer
    }

    function CheckTime(tier: Tier): nat {
      match tier
      case UserTier => checkUser
      case GlobalTier => checkGlobal
      case RelayerTier => checkRelayer
    }

    function ReserveTime(tier: Tier): nat {
      match tier
      case UserTier => reserveUser
      case GlobalTier => reserveGlobal
      case RelayerTier => reserveRelayer
    }
  }

  function Instant(t: nat): Clock {
    Clock(t, t, t, t, t, t)
  }

  predicate PassesCheck(config: Config, caches: Caches, key: CacheKey, now: nat) {
    LimitFor(config, key).Some? ==>
      CurrentUsage(Cached(caches, key), now, WindowSecondsFor(config, key)) <= LimitFor(config, key).value
  }

  function Reserve(config: Config, caches: Caches, key: CacheKey, now: nat): Caches {
    if Configured(config, key)
    then WithWindow(caches, key, AfterReserve(Cached(caches, key), now, WindowSecondsFor(config, key)))
    else caches
  }

  function Revert(config: Config, caches: Caches, key: CacheKey): Caches {
    if Configured(config, key) && AfterRevert(Cached(caches, key)).Some?
    then WithWindow(caches, key, AfterRevert(Cached(caches, key)).value)
    else caches
  }

  /** The checks in order; the tier that refuses, if any. */
  function Refusal(config: Config, caches: Caches, request: Request, clock: Clock): Option<Tier> {
    if !PassesCheck(config, caches, KeyOf(request, RelayerTier), clock.checkRelayer) then Some(RelayerTier)
    else if !PassesCheck(config, caches, KeyOf(request, GlobalTier), clock.checkGlobal) then Some(GlobalTier)
    else if !PassesCheck(config, caches, KeyOf(request, UserTier), clock.checkUser) then Some(UserTier)
    else None
  }

  function ReserveAll(config: Config, caches: Caches, request: Request, clock: Clock): Caches {
    var c1 := Reserve(config, caches, KeyOf(request, UserTier), clock.reserveUser);
    var c2 := Reserve(config, c1, KeyOf(request, GlobalTier), clock.reserveGlobal);
    Reserve(config, c2, KeyOf(request, RelayerTier), clock.reserveRelayer)
  }

  function RevertAll(config: Config, caches: Caches, request: Request): Caches {
    var c1 := Revert(config, caches, KeyOf(request, UserTier));
    var c2 := Revert(config, c1, KeyOf(request, GlobalTier));
    Revert(config, c2, KeyOf(request, RelayerTier))
  }

  function Serve(config: Config, caches: Caches, request: Request, clock: Clock): Caches {
    if Refusal(config, caches, request, clock).None?
    then ReserveAll(config, caches, request, clock)
    else caches
  }

  /** A request touches the counter of a key. */
  predicate Touches(config: Config, request: Request, key: CacheKey) {
    Configured(config, key) && KeyOf(request, TierOf(key)) == key
  }

  lemma ReserveOnKey(config: Config, caches: Caches, target: CacheKey, now: nat, key: CacheKey)
    ensures Cached(Reserve(config, caches, target, now), key) ==
            if target == key && Configured(config, key)
            then Some(AfterReserve(Cached(caches, key), now, WindowSecondsFor(config, key)))
            else Cached(caches, key)
  {
  }

  lemma RevertOnKey(config: Config, caches: Caches, target: CacheKey, key: CacheKey)
    ensures Cached(Revert(config, caches, target), key) ==
            if target == key && Configured(config, key) then AfterRevert(Cached(caches, key))
            else Cached(caches, key)
  {
  }

  /**
   The effect of a request on one counter: an admitted request passed that
   counter's check and then counted once there; every other counter, and every
   counter of a refused request, is untouched.
   */
  lemma ServeOnKey(config: Config, caches: Caches, request: Request, clock: Clock, key: CacheKey)
    ensures var admitted := Refusal(config, caches, request, clock).None?;
      var w := WindowSecondsFor(config, key);
      && Cached(Serve(config, caches, request, clock), key) ==
         (if admitted && Touches(config, request, key)
          then Some(AfterReserve(Cached(caches, key), clock.ReserveTime(TierOf(key)), w))
          else Cached(caches, key))
      && (admitted && Touches(config, request, key) && LimitFor(config, key).Some? ==>
            CurrentUsage(Cached(caches, key), clock.CheckTime(TierOf(key)), w) <= LimitFor(config, key).value)
  {
    var user, global := KeyOf(request, UserTier), KeyOf(request, GlobalTier);
    var c1 := Reserve(config, caches, user, clock.reserveUser);
    var c2 := Reserve(config, c1, global, clock.reserveGlobal);
    ReserveOnKey(config, caches, user, clock.reserveUser, key);
    ReserveOnKey(config, c1, global, clock.reserveGlobal, key);
    ReserveOnKey(config, c2, KeyOf(request, RelayerTier), clock.reserveRelayer, key);
  }

  /** Giving a reservation back subtracts at most one from each counter it touched, and nothing else. */
  lemma RevertAllOnKey(config: Config, caches: Caches, request: Request, key: CacheKey)
    ensures Cached(RevertAll(config, caches, request), key) ==
            if Touches(config, request, key) then AfterRevert(Cached(caches, key)) else Cached(caches, key)
  {
    var user, global := KeyOf(request, UserTier), KeyOf(request, GlobalTier);
    var c1 := Revert(config, caches, user);
    RevertOnKey(config, caches, user, key);
    RevertOnKey(config, c1, global, key);
    RevertOnKey(config, Revert(config, c1, global), KeyOf(request, RelayerTier), key);
  }

  /**
   Serving a request and giving its reservation straight back leaves every
   counter's room as it was: whatever a check answered before at the times the
   request reserved, it answers after.
   */
  lemma ReserveThenRevertRestoresRoom(config: Config, caches: Caches, request: Request, clock: Clock, key: CacheKey)
    requires Refusal(config, caches, request, clock).None? && Touches(config, request, key)
    ensures var w := WindowSecondsFor(config, key);
      var now := clock.ReserveTime(TierOf(key));
      var after := RevertAll(config, Serve(config, caches, request, clock), request);
      CurrentUsage(Cached(after, key), now, w) == CurrentUsage(Cached(caches, key), now, w)
  {
    var w := WindowSecondsFor(config, key);
    var now := clock.ReserveTime(TierOf(key));
    ServeOnKey(config, caches, request, clock, key);
    RevertAllOnKey(config, Serve(config, caches, request, clock), request, key);
    FreshWindowIsCurrent(now, w);
  }
}
