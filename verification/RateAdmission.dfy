/**
 What the configured numbers mean to a caller: how many requests of one kind a
 moment lets through, which tier refuses the next one, and what is counted
 together. Everything here is said by the fields of the configuration.
 */
module RateAdmission {
  import opened Prelude
  import opened Intervals
  import opened RateWindow

  /** The counters after serving the same request n times at one moment, starting from none. */
  function Repeated(config: Config, request: Request, t: nat, n: nat): Caches {
    if n == 0 then EMPTY_CACHES else Serve(config, Repeated(config, request, t, n - 1), request, Instant(t))
  }

  predicate Admitted(config: Config, request: Request, t: nat, n: nat)
    requires n >= 1
  {
    Refusal(config, Repeated(config, request, t, n - 1), request, Instant(t)).None?
  }

  /** A refused request leaves the counters alone, so its repetition is refused as well. */
  lemma RefusedAgain(config: Config, request: Request, t: nat, n: nat)
    requires n >= 1 && !Admitted(config, request, t, n)
    ensures !Admitted(config, request, t, n + 1)
  {
    var before := Repeated(config, request, t, n - 1);
    assert Serve(config, before, request, Instant(t)) == before;
    assert Repeated(config, request, t, n) == before;
  }

  lemma OneMoreCounts(config: Config, request: Request, t: nat, n: nat, key: CacheKey)
    requires n >= 1 && Admitted(config, request, t, n)
    ensures var before := Cached(Repeated(config, request, t, n - 1), key);
      Cached(Repeated(config, request, t, n), key) ==
      if Touches(config, request, key) then Some(AfterReserve(before, t, WindowSecondsFor(config, key))) else before
  {
    ServeOnKey(config, Repeated(config, request, t, n - 1), request, Instant(t), key);
  }

  lemma ReserveCountsOn(n: nat, t: nat, seconds: nat)
    requires seconds > 0
    ensures var start := CalculateWindowStart(t, seconds);
      && AfterReserve(None, t, seconds) == UsageWindow(1, start)
      && AfterReserve(Some(UsageWindow(n, start)), t, seconds) == UsageWindow(n + 1, start)
  {
    FreshWindowIsCurrent(t, seconds);
  }

  lemma {:induction false} CountersAfter(config: Config, request: Request, t: nat, n: nat, key: CacheKey)
    requires n >= 1 ==> Admitted(config, request, t, n)
    ensures Cached(Repeated(config, request, t, n), key) ==
            if n >= 1 && Touches(config, request, key)
            then Some(UsageWindow(n, CalculateWindowStart(t, WindowSecondsFor(config, key))))
            else None
  {
    if n >= 1 {
      if n >= 2 && !Admitted(config, request, t, n - 1) {
        RefusedAgain(config, request, t, n - 1);
      }
      CountersAfter(config, request, t, n - 1, key);
      OneMoreCounts(config, request, t, n, key);
      ReserveCountsOn(n - 1, t, WindowSecondsFor(config, key));
    }
  }

  /**
   A limit has room for one more at `now`, when `count` were let through at t: inside
   the window of t the count must be below the limit, outside it counts from one.
   */
  predicate HasRoom(count: nat, limit: nat, seconds: nat, t: nat, now: nat)
    requires seconds > 0
  {
    var start := CalculateWindowStart(t, seconds);
    if start <= now <= start + seconds then count + 1 <= limit else 1 <= limit
  }

  lemma CheckSeesTheCount(
    config: Config, first: Request, t: nat, n: nat, key: CacheKey, limits: LimitWithInterval, limit: nat, now: nat)
    requires n >= 1 ==> Admitted(config, first, t, n)
    requires LimitsForKey(config, key) == Some(limits) && limit == LimitOf(limits, key.operation)
    ensures PassesCheck(config, Repeated(config, first, t, n), key, now) <==>
            || (key.UserKey? && limit == U64_MAX)
            || HasRoom(if KeyOf(first, TierOf(key)) == key then n else 0, limit, ParseInterval(limits.interval), t, now)
  {
    CountersAfter(config, first, t, n, key);
    FreshWindowIsCurrent(now, WindowSecondsFor(config, key));
  }

  /**
   The next transaction after n admitted requests, all made at t: which tier refuses
   it, if any. The relayer counter counts the transactions of that relayer, the global
   one all transactions, the user counter those of that user on that relayer. The user
   tier follows the per-relayer user limits, else the relayer limits, else 100 a
   minute, and never refuses at the largest 64-bit limit.
   */
  lemma TransactionAfter(
    config: Config, first: Request, t: nat, n: nat, user: string, relayer: EvmAddress, now: nat)
    requires n >= 1 ==> Admitted(config, first, t, n)
    ensures var counted := first.operation == Transaction;
      var onRelayer := counted && first.relayer == relayer;
      var ofUser := onRelayer && first.user == user;
      var relayerRefuses := config.relayerLimits.Some? &&
        var limits := config.relayerLimits.value;
        !HasRoom(if onRelayer then n else 0, limits.transactions, ParseInterval(limits.interval), t, now);
      var globalRefuses := config.userLimits.Some? && config.userLimits.value.global.Some? &&
        var limits := config.userLimits.value.global.value;
        !HasRoom(if counted then n else 0, limits.transactions, ParseInterval(limits.interval), t, now);
      var userRefuses :=
        if config.userLimits.Some? && config.userLimits.value.perRelayer.Some? then
          var limits := config.userLimits.value.perRelayer.value;
          limits.transactions != 18446744073709551615
          && !HasRoom(if ofUser then n else 0, limits.transactions, ParseInterval(limits.interval), t, now)
        else if config.relayerLimits.Some? then
          var limits := config.relayerLimits.value;
          limits.transactions != 18446744073709551615
          && !HasRoom(if ofUser then n else 0, limits.transactions, ParseInterval(limits.interval), t, now)
        else !HasRoom(if ofUser then n else 0, 100, 60, t, now);
      Refusal(config, Repeated(config, first, t, n), Request(user, relayer, Transaction), Instant(now)) ==
      if relayerRefuses then Some(RelayerTier) else if globalRefuses then Some(GlobalTier)
      else if userRefuses then Some(UserTier) else None
  {
    MinuteIsSixty();
    if config.relayerLimits.Some? {
      var limits := config.relayerLimits.value;
      CheckSeesTheCount(config, first, t, n, RelayerKey(relayer, Transaction), limits, limits.transactions, now);
    }
    if config.userLimits.Some? && config.userLimits.value.global.Some? {
      var limits := config.userLimits.value.global.value;
      CheckSeesTheCount(config, first, t, n, GlobalUserKey(Transaction), limits, limits.transactions, now);
    }
    var limits := LimitsForUser(config);
    CheckSeesTheCount(config, first, t, n, UserKey(user, relayer, Transaction), limits, limits.transactions, now);
  }

  /** The same for signing operations, which have their own numbers and 50 a minute by default. */
  lemma SigningAfter(
    config: Config, first: Request, t: nat, n: nat, user: string, relayer: EvmAddress, now: nat)
    requires n >= 1 ==> Admitted(config, first, t, n)
    ensures var counted := first.operation == Signing;
      var onRelayer := counted && first.relayer == relayer;
      var ofUser := onRelayer && first.user == user;
      var relayerRefuses := config.relayerLimits.Some? &&
        var limits := config.relayerLimits.value;
        !HasRoom(if onRelayer then n else 0, limits.signingOperations, ParseInterval(limits.interval), t, now);
      var globalRefuses := config.userLimits.Some? && config.userLimits.value.global.Some? &&
        var limits := config.userLimits.value.global.value;
        !HasRoom(if counted then n else 0, limits.signingOperations, ParseInterval(limits.interval), t, now);
      var userRefuses :=
        if config.userLimits.Some? && config.userLimits.value.perRelayer.Some? then
          var limits := config.userLimits.value.perRelayer.value;
          limits.signingOperations != 18446744073709551615
          && !HasRoom(if ofUser then n else 0, limits.signingOperations, ParseInterval(limits.interval), t, now)
        else if config.relayerLimits.Some? then
          var limits := config.relayerLimits.value;
          limits.signingOperations != 18446744073709551615
          && !HasRoom(if ofUser then n else 0, limits.signingOperations, ParseInterval(limits.interval), t, now)
        else !HasRoom(if ofUser then n else 0, 50, 60, t, now);
      Refusal(config, Repeated(config, first, t, n), Request(user, relayer, Signing), Instant(now)) ==
      if relayerRefuses then Some(RelayerTier) else if globalRefuses then Some(GlobalTier)
      else if userRefuses then Some(UserTier) else None
  {
    MinuteIsSixty();
    if config.relayerLimits.Some? {
      var limits := config.relayerLimits.value;
      CheckSeesTheCount(config, first, t, n, RelayerKey(relayer, Signing), limits, limits.signingOperations, now);
    }
    if config.userLimits.Some? && config.userLimits.value.global.Some? {
      var limits := config.userLimits.value.global.value;
      CheckSeesTheCount(config, first, t, n, GlobalUserKey(Signing), limits, limits.signingOperations, now);
    }
    var limits := LimitsForUser(config);
    CheckSeesTheCount(config, first, t, n, UserKey(user, relayer, Signing), limits, limits.signingOperations, now);
  }

  lemma UsageAtOnce(m: nat, t: nat, seconds: nat)
    requires m >= 1 && seconds > 0
    ensures var cached := if m == 1 then None else Some(UsageWindow(m - 1, CalculateWindowStart(t, seconds)));
      CurrentUsage(cached, t, seconds) == m
  {
    FreshWindowIsCurrent(t, seconds);
  }

  /** A counter of the request itself lets its m-th repetition pass up to the limit. */
  lemma OwnCheckAtOnce(
    config: Config, request: Request, t: nat, m: nat, key: CacheKey, limits: LimitWithInterval, limit: nat)
    requires m >= 1 && (m == 1 || Admitted(config, request, t, m - 1)) && KeyOf(request, TierOf(key)) == key
    requires LimitsForKey(config, key) == Some(limits) && limit == LimitOf(limits, key.operation)
    ensures PassesCheck(config, Repeated(config, request, t, m - 1), key, t)
            <==> (key.UserKey? && limit == U64_MAX) || m <= limit
  {
    CountersAfter(config, request, t, m - 1, key);
    UsageAtOnce(m, t, WindowSecondsFor(config, key));
  }

  /**
   The m-th of the same transactions is within every configured number of
   transactions, the user's own number not binding at the largest 64-bit value, and
   within 100 when neither the user nor the relayer has limits.
   */
  predicate TransactionsFit(config: Config, m: nat) {
    && (config.relayerLimits.Some? ==> m <= config.relayerLimits.value.transactions)
    && (config.userLimits.Some? && config.userLimits.value.global.Some? ==>
          m <= config.userLimits.value.global.value.transactions)
    && (config.userLimits.Some? && config.userLimits.value.perRelayer.Some? ==>
          || m <= config.userLimits.value.perRelayer.value.transactions
          || config.userLimits.value.perRelayer.value.transactions == 18446744073709551615)
    && (config.relayerLimits.None? && (config.userLimits.Some? ==> config.userLimits.value.perRelayer.None?) ==>
          m <= 100)
  }

  lemma NextTransactionAdmitted(config: Config, user: string, relayer: EvmAddress, t: nat, m: nat)
    requires m >= 1
    requires m == 1 || Admitted(config, Request(user, relayer, Transaction), t, m - 1)
    ensures Admitted(config, Request(user, relayer, Transaction), t, m) <==> TransactionsFit(config, m)
  {
    var request := Request(user, relayer, Transaction);
    if config.relayerLimits.Some? {
      var limits := config.relayerLimits.value;
      OwnCheckAtOnce(config, request, t, m, RelayerKey(relayer, Transaction), limits, limits.transactions);
    }
    if config.userLimits.Some? && config.userLimits.value.global.Some? {
      var limits := config.userLimits.value.global.value;
      OwnCheckAtOnce(config, request, t, m, GlobalUserKey(Transaction), limits, limits.transactions);
    }
    var limits := LimitsForUser(config);
    OwnCheckAtOnce(config, request, t, m, UserKey(user, relayer, Transaction), limits, limits.transactions);
  }

  /**
   From empty counters, the m-th of the same transactions made at one moment is let
   through exactly when m is within those numbers.
   */
  lemma {:induction false} TransactionsAdmitted(config: Config, user: string, relayer: EvmAddress, t: nat, m: nat)
    requires m >= 1
    ensures Admitted(config, Request(user, relayer, Transaction), t, m) <==> TransactionsFit(config, m)
  {
    var request := Request(user, relayer, Transaction);
    if m == 1 {
      NextTransactionAdmitted(config, user, relayer, t, m);
    } else {
      TransactionsAdmitted(config, user, relayer, t, m - 1);
      if Admitted(config, request, t, m - 1) {
        NextTransactionAdmitted(config, user, relayer, t, m);
      } else {
        RefusedAgain(config, request, t, m - 1);
      }
    }
  }

  /** The same for signing operations, 50 by default. */
  predicate SigningsFit(config: Config, m: nat) {
    && (config.relayerLimits.Some? ==> m <= config.relayerLimits.value.signingOperations)
    && (config.userLimits.Some? && config.userLimits.value.global.Some? ==>
          m <= config.userLimits.value.global.value.signingOperations)
    && (config.userLimits.Some? && config.userLimits.value.perRelayer.Some? ==>
          || m <= config.userLimits.value.perRelayer.value.signingOperations
          || config.userLimits.value.perRelayer.value.signingOperations == 18446744073709551615)
    && (config.relayerLimits.None? && (config.userLimits.Some? ==> config.userLimits.value.perRelayer.None?) ==>
          m <= 50)
  }

  lemma NextSigningAdmitted(config: Config, user: string, relayer: EvmAddress, t: nat, m: nat)
    requires m >= 1
    requires m == 1 || Admitted(config, Request(user, relayer, Signing), t, m - 1)
    ensures Admitted(config, Request(user, relayer, Signing), t, m) <==> SigningsFit(config, m)
  {
    var request := Request(user, relayer, Signing);
    if config.relayerLimits.Some? {
      var limits := config.relayerLimits.value;
      OwnCheckAtOnce(config, request, t, m, RelayerKey(relayer, Signing), limits, limits.signingOperations);
    }
    if config.userLimits.Some? && config.userLimits.value.global.Some? {
      var limits := config.userLimits.value.global.value;
      OwnCheckAtOnce(config, request, t, m, GlobalUserKey(Signing), limits, limits.signingOperations);
    }
    var limits := LimitsForUser(config);
    OwnCheckAtOnce(config, request, t, m, UserKey(user, relayer, Signing), limits, limits.signingOperations);
  }

  lemma {:induction false} SigningsAdmitted(config: Config, user: string, relayer: EvmAddress, t: nat, m: nat)
    requires m >= 1
    ensures Admitted(config, Request(user, relayer, Signing), t, m) <==> SigningsFit(config, m)
  {
    var request := Request(user, relayer, Signing);
    if m == 1 {
      NextSigningAdmitted(config, user, relayer, t, m);
    } else {
      SigningsAdmitted(config, user, relayer, t, m - 1);
      if Admitted(config, request, t, m - 1) {
        NextSigningAdmitted(config, user, relayer, t, m);
      } else {
        RefusedAgain(config, request, t, m - 1);
      }
    }
  }
}
