/** The rate limiter object, its per-tier checks and reservations, and the reservation handle. */
module RateLimiter {
  import opened Prelude
  import opened Intervals
  import opened RateWindow

  datatype RateLimitError =
    | LimitExceeded(tier: Tier, operation: Operation, current: nat, limit: nat, windowSeconds: nat)
    | NoRateLimitKey

  datatype RateLimitResult = RateLimitResult(allowed: bool, currentUsage: nat, limit: nat, windowSeconds: nat)

  /** The rate-limit key of a request: its header, else the relayer when configured, else none. */
  function Detect(header: Option<string>, fallbackToRelayer: bool, relayerHex: string): Result<string, RateLimitError> {
    if header.Some? then Ok(header.value)
    else if fallbackToRelayer then Ok(relayerHex)
    else Err(NoRateLimitKey)
  }

  /** The error names the tier, the count the request would have brought its counter to, and the limit. */
  predicate Reports(
    error: RateLimitError, config: Config, caches: Caches, request: Request, tier: Tier, clock: Clock)
  {
    var key := KeyOf(request, tier);
    var seconds := WindowSecondsFor(config, key);
    && LimitFor(config, key).Some?
    && error == LimitExceeded(
         tier, request.operation, CurrentUsage(Cached(caches, key), clock.CheckTime(tier), seconds),
         LimitFor(config, key).value, seconds)
  }

  class RateLimiter {
    const config: Config
    const fallbackToRelayer: bool
    var usageCache: map<CacheKey, UsageWindow>
    var globalUsageCache: map<CacheKey, UsageWindow>
    var relayerUsageCache: map<CacheKey, UsageWindow>

    constructor (config: Config, fallbackToRelayer: bool)
      ensures this.config == config && this.fallbackToRelayer == fallbackToRelayer && Contents() == EMPTY_CACHES
    {
      this.config, this.fallbackToRelayer := config, fallbackToRelayer;
      usageCache, globalUsageCache, relayerUsageCache := map[], map[], map[];
    }

    function Contents(): Caches
      reads this
    {
      Caches(usageCache, globalUsageCache, relayerUsageCache)
    }

    /** Refuses exactly when one more operation would pass the relayer's limit, and reports that count. */
    method CheckRelayerLimits(relayer: EvmAddress, operation: Operation, limits: LimitWithInterval, now: nat)
      returns (r: Result<(), RateLimitError>)
      requires config.relayerLimits == Some(limits)
      ensures r.Ok? <==> PassesCheck(config, Contents(), RelayerKey(relayer, operation), now)
      ensures r.Err? ==>
        var seconds := ParseInterval(limits.interval);
        var limit := if operation == Signing then limits.signingOperations else limits.transactions;
        var current := CurrentUsage(Cached(Contents(), RelayerKey(relayer, operation)), now, seconds);
        r.error == LimitExceeded(RelayerTier, operation, current, limit, seconds) && current > limit
    {
      var windowSeconds := ParseInterval(limits.interval);
      var limit := LimitOf(limits, operation);
      var cacheKey := RelayerKey(relayer, operation);
      var windowStart := CalculateWindowStart(now, windowSeconds);
      var usage := UsageWindow(0, windowStart);
      if cacheKey in relayerUsageCache {
        usage := relayerUsageCache[cacheKey];
      }
      var currentUsage := if Expired(usage, now, windowSeconds) then 1 else usage.usageCount + 1;
      if currentUsage > limit {
        return Err(LimitExceeded(RelayerTier, operation, currentUsage, limit, windowSeconds));
      }
      return Ok(());
    }

    method CheckGlobalUserLimits(operation: Operation, limits: LimitWithInterval, now: nat)
      returns (r: Result<(), RateLimitError>)
      requires GlobalLimits(config) == Some(limits)
      ensures r.Ok? <==> PassesCheck(config, Contents(), GlobalUserKey(operation), now)
      ensures r.Err? ==>
        var seconds := ParseInterval(limits.interval);
        var limit := if operation == Signing then limits.signingOperations else limits.transactions;
        var current := CurrentUsage(Cached(Contents(), GlobalUserKey(operation)), now, seconds);
        r.error == LimitExceeded(GlobalTier, operation, current, limit, seconds) && current > limit
    {
      var windowSeconds := ParseInterval(limits.interval);
      var limit := LimitOf(limits, operation);
      var cacheKey := GlobalUserKey(operation);
      var windowStart := CalculateWindowStart(now, windowSeconds);
      var usage := UsageWindow(0, windowStart);
      if cacheKey in globalUsageCache {
        usage := globalUsageCache[cacheKey];
      }
      var currentUsage := if Expired(usage, now, windowSeconds) then 1 else usage.usageCount + 1;
      if currentUsage > limit {
        return Err(LimitExceeded(GlobalTier, operation, currentUsage, limit, windowSeconds));
      }
      return Ok(());
    }

    /** The user tier: a limit of the largest u64 always allows and never looks at the counter. */
    method CheckUserLimits(userKey: string, relayer: EvmAddress, operation: Operation, now: nat)
      returns (r: RateLimitResult)
      ensures r.allowed <==> PassesCheck(config, Contents(), UserKey(userKey, relayer, operation), now)
      ensures var limits := LimitsForUser(config);
        && r.limit == (if operation == Signing then limits.signingOperations else limits.transactions)
        && r.windowSeconds == ParseInterval(limits.interval)
      ensures r.currentUsage ==
              if r.limit == U64_MAX then 0
              else CurrentUsage(Cached(Contents(), UserKey(userKey, relayer, operation)), now, r.windowSeconds)
      ensures !r.allowed ==> r.currentUsage > r.limit
    {
      var limits := LimitsForUser(config);
      var windowSeconds := ParseInterval(limits.interval);
      var limit := LimitOf(limits, operation);
      if limit == U64_MAX {
        return RateLimitResult(true, 0, U64_MAX, windowSeconds);
      }
      var cacheKey := UserKey(userKey, relayer, operation);
      var windowStart := CalculateWindowStart(now, windowSeconds);
      var usage := UsageWindow(0, windowStart);
      if cacheKey in usageCache {
        usage := usageCache[cacheKey];
      }
      var currentUsage := if Expired(usage, now, windowSeconds) then 1 else usage.usageCount + 1;
      return RateLimitResult(currentUsage <= limit, currentUsage, limit, windowSeconds);
    }

    method ReserveUserOperation(userKey: string, relayer: EvmAddress, operation: Operation, now: nat)
      modifies this`usageCache
      ensures Contents() == Reserve(config, old(Contents()), UserKey(userKey, relayer, operation), now)
    {
      var cacheKey := UserKey(userKey, relayer, operation);
      var windowSeconds := ParseInterval(LimitsForUser(config).interval);
      var windowStart := CalculateWindowStart(now, windowSeconds);
      var usage := UsageWindow(0, windowStart);
      if cacheKey in usageCache {
        usage := usageCache[cacheKey];
      }
      var newUsage :=
        if Expired(usage, now, windowSeconds) then UsageWindow(1, windowStart)
        else UsageWindow(usage.usageCount + 1, usage.windowStart);
      usageCache := usageCache[cacheKey := newUsage];
    }

    method ReserveGlobalUserOperation(operation: Operation, now: nat)
      modifies this`globalUsageCache
      ensures Contents() == Reserve(config, old(Contents()), GlobalUserKey(operation), now)
    {
      if config.userLimits.Some? && config.userLimits.value.global.Some? {
        var windowSeconds := ParseInterval(config.userLimits.value.global.value.interval);
        var cacheKey := GlobalUserKey(operation);
        var windowStart := CalculateWindowStart(now, windowSeconds);
        var usage := UsageWindow(0, windowStart);
        if cacheKey in globalUsageCache {
          usage := globalUsageCache[cacheKey];
        }
        var newUsage :=
          if Expired(usage, now, windowSeconds) then UsageWindow(1, windowStart)
          else UsageWindow(usage.usageCount + 1, usage.windowStart);
        globalUsageCache := globalUsageCache[cacheKey := newUsage];
      }
    }

    method ReserveRelayerOperation(relayer: EvmAddress, operation: Operation, now: nat)
      modifies this`relayerUsageCache
      ensures Contents() == Reserve(config, old(Contents()), RelayerKey(relayer, operation), now)
    {
      if config.relayerLimits.Some? {
        var windowSeconds := ParseInterval(config.relayerLimits.value.interval);
        var cacheKey := RelayerKey(relayer, operation);
        var windowStart := CalculateWindowStart(now, windowSeconds);
        var usage := UsageWindow(0, windowStart);
        if cacheKey in relayerUsageCache {
          usage := relayerUsageCache[cacheKey];
        }
        var newUsage :=
          if Expired(usage, now, windowSeconds) then UsageWindow(1, windowStart)
          else UsageWindow(usage.usageCount + 1, usage.windowStart);
        relayerUsageCache := relayerUsageCache[cacheKey := newUsage];
      }
    }

    method RevertUserOperation(userKey: string, relayer: EvmAddress, operation: Operation)
      modifies this`usageCache
      ensures Contents() == Revert(config, old(Contents()), UserKey(userKey, relayer, operation))
    {
      var cacheKey := UserKey(userKey, relayer, operation);
      if cacheKey in usageCache {
        var usage := usageCache[cacheKey];
        if usage.usageCount > 0 {
          usageCache := usageCache[cacheKey := usage.(usageCount := usage.usageCount - 1)];
        }
      }
      assert cacheKey in old(usageCache) ==> usageCache == usageCache[cacheKey := usageCache[cacheKey]];
    }

    method RevertGlobalUserOperation(operation: Operation)
      requires GlobalLimits(config).Some?
      modifies this`globalUsageCache
      ensures Contents() == Revert(config, old(Contents()), GlobalUserKey(operation))
    {
      var cacheKey := GlobalUserKey(operation);
      if cacheKey in globalUsageCache {
        var usage := globalUsageCache[cacheKey];
        if usage.usageCount > 0 {
          globalUsageCache := globalUsageCache[cacheKey := usage.(usageCount := usage.usageCount - 1)];
        }
      }
      assert cacheKey in old(globalUsageCache) ==>
          globalUsageCache == globalUsageCache[cacheKey := globalUsageCache[cacheKey]];
    }

    method RevertRelayerOperation(relayer: EvmAddress, operation: Operation)
      requires config.relayerLimits.Some?
      modifies this`relayerUsageCache
      ensures Contents() == Revert(config, old(Contents()), RelayerKey(relayer, operation))
    {
      var cacheKey := RelayerKey(relayer, operation);
      if cacheKey in relayerUsageCache {
        var usage := relayerUsageCache[cacheKey];
        if usage.usageCount > 0 {
          relayerUsageCache := relayerUsageCache[cacheKey := usage.(usageCount := usage.usageCount - 1)];
        }
      }
      assert cacheKey in old(relayerUsageCache) ==>
          relayerUsageCache == relayerUsageCache[cacheKey := relayerUsageCache[cacheKey]];
    }

    method ReserveInAllCaches(request: Request, clock: Clock)
      modifies this
      ensures Contents() == ReserveAll(config, old(Contents()), request, clock)
    {
      ReserveUserOperation(request.user, request.relayer, request.operation, clock.reserveUser);
      ReserveGlobalUserOperation(request.operation, clock.reserveGlobal);
      ReserveRelayerOperation(request.relayer, request.operation, clock.reserveRelayer);
    }

    /** The checks in order: relayer, global, user; the first that refuses answers. */
    method CheckTiers(request: Request, clock: Clock) returns (r: Result<(), RateLimitError>)
      ensures var refusal := Refusal(config, Contents(), request, clock);
        && (r.Ok? <==> refusal.None?)
        && (r.Err? ==> Reports(r.error, config, Contents(), request, refusal.value, clock))
    {
      if config.relayerLimits.Some? {
        r := CheckRelayerLimits(request.relayer, request.operation, config.relayerLimits.value, clock.checkRelayer);
        if r.Err? {
          return;
        }
      }
      if config.userLimits.Some? && config.userLimits.value.global.Some? {
        r := CheckGlobalUserLimits(request.operation, config.userLimits.value.global.value, clock.checkGlobal);
        if r.Err? {
          return;
        }
      }
      var result := CheckUserLimits(request.user, request.relayer, request.operation, clock.checkUser);
      if !result.allowed {
        return Err(LimitExceeded(UserTier, request.operation, result.currentUsage, result.limit, result.windowSeconds));
      }
      return Ok(());
    }

    /**
     All checks, then all reservations. A refusal names the first tier that refused,
     the count it came to and the limit, and changes no counter. The key is the header
     or else, when configured, the relayer; a request without a key changes nothing.
     */
    method CheckAndReserve(
      header: Option<string>, relayerHex: string, relayer: EvmAddress, operation: Operation, clock: Clock)
      returns (r: Result<RateLimitReservation, RateLimitError>)
      modifies this
      ensures header.None? && !fallbackToRelayer ==>
        r.Err? && r.error == NoRateLimitKey && Contents() == old(Contents())
      ensures header.Some? || fallbackToRelayer ==>
        var userKey := if header.Some? then header.value else relayerHex;
        var request := Request(userKey, relayer, operation);
        var refusal := Refusal(config, old(Contents()), request, clock);
        && Contents() == Serve(config, old(Contents()), request, clock)
        && (r.Ok? <==> refusal.None?)
        && (r.Ok? ==> fresh(r.value) && r.value.reserved && r.value.rateLimiter == this && r.value.request == request)
        && (r.Err? ==>
              && Contents() == old(Contents())
              && Reports(r.error, config, old(Contents()), request, refusal.value, clock))
    {
      var key := Detect(header, fallbackToRelayer, relayerHex);
      if key.Err? {
        return Err(key.error);
      }
      var request := Request(key.value, relayer, operation);
      var checked := CheckTiers(request, clock);
      if checked.Err? {
        return Err(checked.error);
      }
      ReserveInAllCaches(request, clock);
      var reservation := new RateLimitReservation(this, request);
      return Ok(reservation);
    }
  }

  class RateLimitReservation {
    const rateLimiter: RateLimiter
    const request: Request
    var reserved: bool

    constructor (rateLimiter: RateLimiter, request: Request)
      ensures this.rateLimiter == rateLimiter && this.request == request && reserved
    {
      this.rateLimiter, this.request, reserved := rateLimiter, request, true;
    }

    /** Letting go of the handle gives the capacity back, unless it was settled before. */
    method Drop()
      modifies rateLimiter
      ensures rateLimiter.Contents() ==
              if reserved then RevertAll(rateLimiter.config, old(rateLimiter.Contents()), request)
              else old(rateLimiter.Contents())
    {
      if reserved {
        RevertTiers(3);
      }
    }

    /** The first `n` of the three subtractions, in order: user, global, relayer. */
    method RevertTiers(n: nat)
      requires n <= 3
      modifies rateLimiter
      ensures rateLimiter.Contents() == RevertFirst(rateLimiter.config, old(rateLimiter.Contents()), request, n)
    {
      if n > 0 {
        rateLimiter.RevertUserOperation(request.user, request.relayer, request.operation);
      }
      if n > 1 && rateLimiter.config.userLimits.Some? && rateLimiter.config.userLimits.value.global.Some? {
        rateLimiter.RevertGlobalUserOperation(request.operation);
      }
      if n > 2 && rateLimiter.config.relayerLimits.Some? {
        rateLimiter.RevertRelayerOperation(request.relayer, request.operation);
      }
    }

    /** Keeps the capacity used: the handle is settled, so its drop subtracts nothing. */
    method Commit()
      modifies this, rateLimiter
      ensures !reserved && rateLimiter.Contents() == old(rateLimiter.Contents())
    {
      reserved := false;
      Drop();
    }

    /** Gives the capacity back once: the drop that follows subtracts nothing more. */
    method Revert()
      modifies this, rateLimiter
      ensures !reserved
      ensures rateLimiter.Contents() ==
              if old(reserved) then RevertAll(rateLimiter.config, old(rateLimiter.Contents()), request)
              else old(rateLimiter.Contents())
    {
      if reserved {
        RevertTiers(3);
        reserved := false;
      }
      Drop();
    }

    /**
     A revert whose caller goes away while it waits for the cache of tier `at`:
     the earlier tiers are already subtracted, and the handle is dropped while
     still marked reserved, so all of them are subtracted then.
     */
    method RevertCancelled(at: Tier)
      requires Configured(rateLimiter.config, KeyOf(request, at))
      modifies this, rateLimiter
      ensures rateLimiter.Contents() ==
              if old(reserved) then AfterEnding(rateLimiter.config, old(rateLimiter.Contents()), request, CutOff(at))
              else old(rateLimiter.Contents())
    {
      if reserved {
        RevertTiers(TierIndex(at));
      }
      Drop();
    }
  }

  function RevertFirst(config: Config, caches: Caches, request: Request, n: nat): Caches {
    var c1 := if n > 0 then Revert(config, caches, KeyOf(request, UserTier)) else caches;
    var c2 := if n > 1 then Revert(config, c1, KeyOf(request, GlobalTier)) else c1;
    if n > 2 then Revert(config, c2, KeyOf(request, RelayerTier)) else c2
  }

  function TierIndex(tier: Tier): nat {
    match tier
    case UserTier => 0
    case GlobalTier => 1
    case RelayerTier => 2
  }

  /** How a reservation's handle ends. A revert can be cut off only while it waits for a configured tier. */
  datatype Ending = Committed | Dropped | Reverted | CutOff(at: Tier)

  predicate Possible(config: Config, request: Request, ending: Ending) {
    ending.CutOff? ==> Configured(config, KeyOf(request, ending.at))
  }

  function AfterEnding(config: Config, caches: Caches, request: Request, ending: Ending): Caches {
    match ending
    case Committed => caches
    case Dropped => RevertAll(config, caches, request)
    case Reverted => RevertAll(config, caches, request)
    case CutOff(at) => RevertAll(config, RevertFirst(config, caches, request, TierIndex(at)), request)
  }

  /** How often an ending subtracts from each counter the reservation touched. */
  function Subtractions(ending: Ending, tier: Tier): nat {
    match ending
    case Committed => 0
    case Dropped => 1
    case Reverted => 1
    case CutOff(at) => if TierIndex(tier) < TierIndex(at) then 2 else 1
  }

  function Subtracted(cached: Option<UsageWindow>, times: nat): Option<UsageWindow> {
    if times == 0 then cached else AfterRevert(Subtracted(cached, times - 1))
  }

  /** What every ending does to every counter of every tier. */
  lemma EndingOnKey(config: Config, caches: Caches, request: Request, ending: Ending, key: CacheKey)
    ensures Cached(AfterEnding(config, caches, request, ending), key) ==
            if Touches(config, request, key) then Subtracted(Cached(caches, key), Subtractions(ending, TierOf(key)))
            else Cached(caches, key)
  {
    var cached := Cached(caches, key);
    assert Subtracted(cached, 1) == AfterRevert(cached);
    assert Subtracted(cached, 2) == AfterRevert(AfterRevert(cached));
    match ending
    case Committed =>
    case CutOff(at) =>
      RevertAllOnKey(config, RevertFirst(config, caches, request, TierIndex(at)), request, key);
    case _ =>
      RevertAllOnKey(config, caches, request, key);
  }

  /** The ending leaves this counter alone or subtracts once from it. */
  predicate AtMostOnceFrom(config: Config, caches: Caches, request: Request, ending: Ending, key: CacheKey) {
    var before, after := Cached(caches, key), Cached(AfterEnding(config, caches, request, ending), key);
    after == before || (Touches(config, request, key) && after == AfterRevert(before))
  }

  ghost predicate SubtractsAtMostOnce(config: Config, request: Request, ending: Ending) {
    forall caches: Caches, key: CacheKey :: AtMostOnceFrom(config, caches, request, ending, key)
  }

  lemma FewSubtractions(config: Config, caches: Caches, request: Request, ending: Ending, key: CacheKey)
    requires Subtractions(ending, TierOf(key)) <= 1
    ensures AtMostOnceFrom(config, caches, request, ending, key)
  {
    EndingOnKey(config, caches, request, ending, key);
    assert Subtracted(Cached(caches, key), 1) == AfterRevert(Cached(caches, key));
  }

  lemma TwoSubtractions(config: Config, request: Request, at: Tier)
    requires at != UserTier
    ensures var key := KeyOf(request, UserTier);
      !AtMostOnceFrom(config, Caches(map[key := UsageWindow(2, 0)], map[], map[]), request, CutOff(at), key)
  {
    var key := KeyOf(request, UserTier);
    var caches := Caches(map[key := UsageWindow(2, 0)], map[], map[]);
    EndingOnKey(config, caches, request, CutOff(at), key);
    assert Cached(caches, key) == Some(UsageWindow(2, 0));
    assert Subtracted(Cached(caches, key), 2) == AfterRevert(AfterRevert(Cached(caches, key)));
  }

  /** Every handle that is committed or dropped, as the request handlers do, is subtracted at most once. */
  lemma CommittedOrDroppedIsSubtractedAtMostOnce(config: Config, request: Request, ending: Ending)
    requires ending.Committed? || ending.Dropped?
    ensures SubtractsAtMostOnce(config, request, ending)
  {
    forall caches: Caches, key: CacheKey
      ensures AtMostOnceFrom(config, caches, request, ending, key)
    {
      FewSubtractions(config, caches, request, ending, key);
    }
  }

  /** Of all possible endings, exactly a revert cut off after its first subtraction subtracts more than once. */
  lemma SubtractedAtMostOnceIff(config: Config, request: Request, ending: Ending)
    requires Possible(config, request, ending)
    ensures SubtractsAtMostOnce(config, request, ending) <==> !(ending.CutOff? && ending.at != UserTier)
  {
    if ending.CutOff? && ending.at != UserTier {
      TwoSubtractions(config, request, ending.at);
    } else {
      forall caches: Caches, key: CacheKey
        ensures AtMostOnceFrom(config, caches, request, ending, key)
      {
        FewSubtractions(config, caches, request, ending, key);
      }
    }
  }

  // ---- The cache keys as text -----------------------------------------------

  function OperationText(operation: Operation): string {
    if operation == Transaction then "transactions" else "signing"
  }

  /** The user tier's key text; an address prints as 42 characters. */
  function UserKeyText(user: string, addressText: string, operation: Operation): string {
    user + "_" + addressText + "_" + OperationText(operation)
  }

  /** Where the parts of a key text lie, counted from its start. */
  lemma UserKeyTextParts(user: string, addressText: string, operation: Operation)
    ensures var t := UserKeyText(user, addressText, operation);
      && |t| == |user| + |addressText| + |OperationText(operation)| + 2
      && t[..|user|] == user
      && t[|user| + 1..|user| + 1 + |addressText|] == addressText
  {
  }

  lemma UserKeyTextEnd(user: string, addressText: string, operation: Operation)
    ensures var t := UserKeyText(user, addressText, operation);
      t[|t| - 1] == if operation == Transaction then 's' else 'g'
  {
    var text := OperationText(operation);
    assert text[|text| - 1] == if operation == Transaction then 's' else 'g';
  }

  /** Whatever a caller sends as its key, two different counters never share a key text. */
  lemma UserKeyTextIsInjective(u1: string, a1: string, o1: Operation, u2: string, a2: string, o2: Operation)
    requires |a1| == 42 && |a2| == 42
    requires UserKeyText(u1, a1, o1) == UserKeyText(u2, a2, o2)
    ensures u1 == u2 && a1 == a2 && o1 == o2
  {
    UserKeyTextEnd(u1, a1, o1);
    UserKeyTextEnd(u2, a2, o2);
    UserKeyTextParts(u1, a1, o1);
    UserKeyTextParts(u2, a2, o2);
  }
}
