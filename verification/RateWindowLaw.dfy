/**
 How many operations a limit really admits over time, in runs where each
 request is served without interruption and nothing is given back.
 */
module RateWindowLaw {
  import opened Prelude
  import opened RateWindow

  datatype Call = Call(request: Request, clock: Clock)

  /** The clock never goes back, within a call or from one call to the next. */
  predicate InOrder(calls: seq<Call>, from: nat)
    decreases |calls|
  {
    calls == [] || (calls[0].clock.Monotone(from) && InOrder(calls[1..], calls[0].clock.reserveRelayer))
  }

  /** One admitted operation on a key: when, in which window, in which run of windows, with what count. */
  datatype Admission = Admission(at: nat, start: nat, group: nat, count: nat)

  datatype State = State(caches: Caches, log: seq<Admission>)

  const FRESH := State(EMPTY_CACHES, [])

  function NextAdmission(log: seq<Admission>, at: nat, usage: UsageWindow): Admission {
    var group :=
      if log == [] then 0
      else if usage.usageCount == 1 then log[|log| - 1].group + 1 else log[|log| - 1].group;
    Admission(at, usage.windowStart, group, usage.usageCount)
  }

  function Step(config: Config, key: CacheKey, s: State, call: Call): State {
    var caches := Serve(config, s.caches, call.request, call.clock);
    if Refusal(config, s.caches, call.request, call.clock).None? && Touches(config, call.request, key)
    then
      var at := call.clock.ReserveTime(TierOf(key));
      var usage := AfterReserve(Cached(s.caches, key), at, WindowSecondsFor(config, key));
      State(caches, s.log + [NextAdmission(s.log, at, usage)])
    else State(caches, s.log)
  }

  function Run(config: Config, key: CacheKey, s: State, calls: seq<Call>): State
    decreases |calls|
  {
    if calls == [] then s else Run(config, key, Step(config, key, s, calls[0]), calls[1..])
  }

  /** What the log says about any pair of admissions i <= j. */
  ghost predicate PairLaw(a: Admission, b: Admission, between: nat, w: nat, limit: nat) {
    && a.group <= b.group
    && a.start <= a.at <= a.start + w
    && a.at <= b.at
    && b.start >= a.start + (b.group - a.group) * w
    && (a.group < b.group ==> b.at > a.start + (b.group - a.group) * w)
    && between <= (b.group - a.group) * limit + b.count
    && 1 <= b.count <= limit
  }

  ghost predicate LogLaw(log: seq<Admission>, w: nat, limit: nat) {
    && (forall i, j :: 0 <= i <= j < |log| ==> PairLaw(log[i], log[j], j - i + 1, w, limit))
    && (forall i :: 0 <= i < |log| ==> Aligned(log[i].start, w))
  }

  ghost predicate Aligned(start: nat, w: nat) {
    exists k: nat :: start == k * w
  }

  /** The log and the cached counter tell the same story, up to time `now`. */
  ghost predicate Ledger(log: seq<Admission>, cached: Option<UsageWindow>, w: nat, limit: nat, now: nat) {
    && LogLaw(log, w, limit)
    && (cached.None? <==> log == [])
    && (cached.Some? ==>
          && cached.value == UsageWindow(log[|log| - 1].count, log[|log| - 1].start)
          && log[|log| - 1].at <= now)
  }

  lemma PairAfterReset(a: Admission, last: Admission, b: Admission, between: nat, w: nat, limit: nat)
    requires PairLaw(a, last, between, w, limit)
    requires b.group == last.group + 1 && b.count == 1 && b.start >= last.start + w
    requires b.at > last.start + w && b.at >= last.at && limit >= 1
    ensures PairLaw(a, b, between + 1, w, limit)
  {
    var d := last.group - a.group;
    assert b.group - a.group == d + 1;
    assert (d + 1) * w == d * w + w;
    assert (d + 1) * limit == d * limit + limit;
  }

  lemma LedgerStep(log: seq<Admission>, cached: Option<UsageWindow>, w: nat, limit: nat, at: nat)
    requires w > 0
    requires Ledger(log, cached, w, limit, at)
    requires AfterReserve(cached, at, w).usageCount <= limit
    ensures var usage := AfterReserve(cached, at, w);
      Ledger(log + [NextAdmission(log, at, usage)], Some(usage), w, limit, at)
  {
    var usage := AfterReserve(cached, at, w);
    var b := NextAdmission(log, at, usage);
    var log' := log + [b];
    FreshWindowIsCurrent(at, w);
    if log == [] {
      assert Aligned(b.start, w);
    } else {
      var last := log[|log| - 1];
      assert PairLaw(last, last, 1, w, limit);
      assert Aligned(last.start, w);
      var reset := Expired(cached.value, at, w);
      if reset {
        ResetAdvancesAWindow(last.start, at, w);
        assert Aligned(b.start, w);
      }
      forall i, j | 0 <= i <= j < |log'|
        ensures PairLaw(log'[i], log'[j], j - i + 1, w, limit)
      {
        if j < |log| {
          assert PairLaw(log[i], log[j], j - i + 1, w, limit);
        } else if i < |log| {
          assert PairLaw(log[i], last, |log| - 1 - i + 1, w, limit);
          if reset {
            PairAfterReset(log[i], last, b, |log| - i, w, limit);
          }
        }
      }
    }
  }

  lemma LedgerHoldsLater(log: seq<Admission>, cached: Option<UsageWindow>, w: nat, limit: nat, now: nat, later: nat)
    requires Ledger(log, cached, w, limit, now) && now <= later
    ensures Ledger(log, cached, w, limit, later)
  {
  }

  /** A passed check bounds the reservation that follows it. */
  lemma CheckBoundsReservation(cached: Option<UsageWindow>, w: nat, limit: nat, checkAt: nat, at: nat)
    requires w > 0 && checkAt <= at && (cached.Some? ==> cached.value.windowStart <= checkAt)
    requires CurrentUsage(cached, checkAt, w) <= limit
    ensures AfterReserve(cached, at, w).usageCount <= limit
  {
    FreshWindowIsCurrent(at, w);
    FreshWindowIsCurrent(checkAt, w);
  }

  lemma StepKeepsLedger(config: Config, key: CacheKey, s: State, call: Call, now: nat, w: nat, limit: nat)
    requires LimitFor(config, key) == Some(limit) && w == WindowSecondsFor(config, key)
    requires Ledger(s.log, Cached(s.caches, key), w, limit, now)
    requires call.clock.Monotone(now)
    ensures var s' := Step(config, key, s, call);
      Ledger(s'.log, Cached(s'.caches, key), w, limit, call.clock.reserveRelayer)
  {
    ServeOnKey(config, s.caches, call.request, call.clock, key);
    var s' := Step(config, key, s, call);
    if Refusal(config, s.caches, call.request, call.clock).None? && Touches(config, call.request, key) {
      var checkAt, at := call.clock.CheckTime(TierOf(key)), call.clock.ReserveTime(TierOf(key));
      if s.log != [] {
        var last := s.log[|s.log| - 1];
        assert PairLaw(last, last, 1, w, limit);
      }
      CheckBoundsReservation(Cached(s.caches, key), w, limit, checkAt, at);
      LedgerHoldsLater(s.log, Cached(s.caches, key), w, limit, now, at);
      LedgerStep(s.log, Cached(s.caches, key), w, limit, at);
      LedgerHoldsLater(s'.log, Cached(s'.caches, key), w, limit, at, call.clock.reserveRelayer);
    } else {
      LedgerHoldsLater(s.log, Cached(s.caches, key), w, limit, now, call.clock.reserveRelayer);
    }
  }

  lemma {:induction false} RunKeepsLedger(
    config: Config, key: CacheKey, s: State, calls: seq<Call>, now: nat, w: nat, limit: nat)
    requires LimitFor(config, key) == Some(limit) && w == WindowSecondsFor(config, key)
    requires Ledger(s.log, Cached(s.caches, key), w, limit, now)
    requires InOrder(calls, now)
    ensures var s' := Run(config, key, s, calls); LogLaw(s'.log, w, limit)
    decreases |calls|
  {
    if calls != [] {
      StepKeepsLedger(config, key, s, calls[0], now, w, limit);
      RunKeepsLedger(config, key, Step(config, key, s, calls[0]), calls[1..], calls[0].clock.reserveRelayer, w, limit);
    }
  }

  /**
   The window law: operations first and last at most m windows apart number at
   most (m + 1) times the limit.
   */
  lemma AdmissionsInAStretch(config: Config, key: CacheKey, calls: seq<Call>, limit: nat, m: nat, i: nat, j: nat)
    requires LimitFor(config, key) == Some(limit) && InOrder(calls, 0)
    requires i <= j < |Run(config, key, FRESH, calls).log|
    requires var log := Run(config, key, FRESH, calls).log;
      log[j].at - log[i].at <= m * WindowSecondsFor(config, key)
    ensures j - i + 1 <= (m + 1) * limit
  {
    var w := WindowSecondsFor(config, key);
    RunKeepsLedger(config, key, FRESH, calls, 0, w, limit);
    var log := Run(config, key, FRESH, calls).log;
    assert PairLaw(log[i], log[j], j - i + 1, w, limit);
    StretchArithmetic(log[i], log[j], j - i + 1, w, limit, m);
  }

  /** Multiples are ordered as their factors are. */
  lemma MultiplesOrder(a: nat, b: nat, w: nat)
    requires a <= b
    ensures a * w <= b * w
  {
  }

  /** Admissions at most m windows apart are at most m groups apart. */
  lemma GroupsApart(a: Admission, b: Admission, between: nat, w: nat, limit: nat, m: nat)
    requires w > 0 && PairLaw(a, b, between, w, limit) && b.at - a.at <= m * w
    ensures b.group - a.group <= m
  {
    // Otherwise b.at > a.start + (m + 1) * w, and a.at <= a.start + w.
    assert (m + 1) * w == m * w + w;
    if m + 1 <= b.group - a.group {
      MultiplesOrder(m + 1, b.group - a.group, w);
    }
  }

  lemma StretchArithmetic(a: Admission, b: Admission, between: nat, w: nat, limit: nat, m: nat)
    requires w > 0 && PairLaw(a, b, between, w, limit) && b.at - a.at <= m * w
    ensures between <= (m + 1) * limit
  {
    GroupsApart(a, b, between, w, limit, m);
    MultiplesOrder(b.group - a.group, m, limit);
    assert (m + 1) * limit == m * limit + limit;
  }

  // ---- The bound is reached -------------------------------------------------

  function Repeat(request: Request, t: nat, n: nat): seq<Call> {
    if n == 0 then [] else [Call(request, Instant(t))] + Repeat(request, t, n - 1)
  }

  /** A burst of `limit` calls just before the first reset, then one just after each of m resets. */
  function Bursts(request: Request, w: nat, limit: nat, m: nat): seq<Call>
    requires w > 0
  {
    if m == 0 then Repeat(request, w - 1, limit)
    else Bursts(request, w, limit, m - 1) + Repeat(request, m * w + 1, limit)
  }

  lemma {:induction false} RepeatAlone(request: Request, t: nat, n: nat, from: nat)
    requires from <= t
    ensures var calls := Repeat(request, t, n);
      InOrder(calls, from) && forall i :: 0 <= i < |calls| ==> calls[i].clock == Instant(t)
  {
    if n > 0 {
      assert Repeat(request, t, n)[1..] == Repeat(request, t, n - 1);
      RepeatAlone(request, t, n - 1, t);
    }
  }

  lemma {:induction false} InOrderConcat(a: seq<Call>, b: seq<Call>, from: nat, t: nat)
    requires InOrder(a, from) && InOrder(b, t) && from <= t
    requires forall i :: 0 <= i < |a| ==> a[i].clock.reserveRelayer <= t
    ensures InOrder(a + b, from)
    decreases |a|
  {
    if a == [] {
      assert a + b == b;
    } else {
      assert (a + b)[1..] == a[1..] + b;
      InOrderConcat(a[1..], b, a[0].clock.reserveRelayer, t);
    }
  }

  lemma {:induction false} RunConcat(config: Config, key: CacheKey, s: State, a: seq<Call>, b: seq<Call>)
    ensures Run(config, key, s, a + b) == Run(config, key, Run(config, key, s, a), b)
    decreases |a|
  {
    if a == [] {
      assert a + b == b;
    } else {
      assert (a + b)[1..] == a[1..] + b;
      RunConcat(config, key, Step(config, key, s, a[0]), a[1..], b);
    }
  }

  /** n requests at one instant are all admitted while they fit under the limit. */
  lemma {:induction false} BurstFits(interval: string, limit: nat, request: Request, s: State, t: nat, n: nat)
    requires limit < U64_MAX
    requires var config := UserOnly(interval, limit); var key := KeyOf(request, UserTier);
      n > 0 ==> CurrentUsage(Cached(s.caches, key), t, WindowSecondsFor(config, key)) + n - 1 <= limit
    ensures var config := UserOnly(interval, limit); var key := KeyOf(request, UserTier);
      var s' := Run(config, key, s, Repeat(request, t, n));
      && |s'.log| == |s.log| + n
      && (forall i :: 0 <= i < |s.log| ==> s'.log[i] == s.log[i])
      && (forall i :: |s.log| <= i < |s'.log| ==> s'.log[i].at == t)
      && (n > 0 ==>
            && Cached(s'.caches, key).Some?
            && Cached(s'.caches, key).value.windowStart
               == AfterReserve(Cached(s.caches, key), t, WindowSecondsFor(config, key)).windowStart)
    decreases n
  {
    var config := UserOnly(interval, limit);
    var key := KeyOf(request, UserTier);
    var w := WindowSecondsFor(config, key);
    if n > 0 {
      var calls := Repeat(request, t, n);
      ServeOnKey(config, s.caches, request, Instant(t), key);
      FreshWindowIsCurrent(t, w);
      var s1 := Step(config, key, s, calls[0]);
      assert calls[1..] == Repeat(request, t, n - 1);
      BurstFits(interval, limit, request, s1, t, n - 1);
    }
  }

  lemma {:induction false} BurstsInOrder(request: Request, w: nat, limit: nat, m: nat)
    requires w >= 2
    ensures var calls := Bursts(request, w, limit, m);
      && InOrder(calls, 0)
      && (forall i :: 0 <= i < |calls| ==> calls[i].clock.reserveRelayer <= m * w + w - 1)
    decreases m
  {
    if m == 0 {
      RepeatAlone(request, w - 1, limit, 0);
    } else {
      BurstsInOrder(request, w, limit, m - 1);
      assert (m - 1) * w + w == m * w;
      RepeatAlone(request, m * w + 1, limit, m * w + 1);
      InOrderConcat(Bursts(request, w, limit, m - 1), Repeat(request, m * w + 1, limit), 0, m * w + 1);
    }
  }

  /** m + 1 full bursts so far, the current window starting at m * w. */
  ghost predicate FullBursts(s: State, key: CacheKey, w: nat, limit: nat, m: nat)
    requires w >= 2
  {
    && |s.log| == (m + 1) * limit && |s.log| > 0
    && s.log[0].at == w - 1
    && s.log[|s.log| - 1].at == (if m == 0 then w - 1 else m * w + 1)
    && Cached(s.caches, key).Some? && Cached(s.caches, key).value.windowStart == m * w
  }

  lemma FirstBurst(interval: string, limit: nat, request: Request, w: nat)
    requires 0 < limit < U64_MAX && w >= 2
    requires w == WindowSecondsFor(UserOnly(interval, limit), KeyOf(request, UserTier))
    ensures var config, key := UserOnly(interval, limit), KeyOf(request, UserTier);
      FullBursts(Run(config, key, FRESH, Repeat(request, w - 1, limit)), key, w, limit, 0)
  {
    FreshWindowIsCurrent(w - 1, w);
    QuotientIsUnique(w - 1, w, 0);
    BurstFits(interval, limit, request, FRESH, w - 1, limit);
  }

  lemma NextBurst(interval: string, limit: nat, request: Request, w: nat, m: nat, s: State)
    requires 0 < limit < U64_MAX && w >= 2 && m > 0
    requires w == WindowSecondsFor(UserOnly(interval, limit), KeyOf(request, UserTier))
    requires FullBursts(s, KeyOf(request, UserTier), w, limit, m - 1)
    ensures var config, key := UserOnly(interval, limit), KeyOf(request, UserTier);
      FullBursts(Run(config, key, s, Repeat(request, m * w + 1, limit)), key, w, limit, m)
  {
    var t := m * w + 1;
    assert (m - 1) * w + w == m * w;
    assert (m + 1) * limit == m * limit + limit;
    QuotientIsUnique(t, w, m);
    BurstFits(interval, limit, request, s, t, limit);
  }

  /** Each burst of the schedule is admitted in full, in the window that starts at m * w. */
  lemma {:induction false} BurstsAreAdmitted(interval: string, limit: nat, request: Request, w: nat, m: nat)
    requires 0 < limit < U64_MAX && w >= 2
    requires w == WindowSecondsFor(UserOnly(interval, limit), KeyOf(request, UserTier))
    ensures var config, key := UserOnly(interval, limit), KeyOf(request, UserTier);
      FullBursts(Run(config, key, FRESH, Bursts(request, w, limit, m)), key, w, limit, m)
    decreases m
  {
    var config, key := UserOnly(interval, limit), KeyOf(request, UserTier);
    if m == 0 {
      FirstBurst(interval, limit, request, w);
    } else {
      var earlier := Bursts(request, w, limit, m - 1);
      BurstsAreAdmitted(interval, limit, request, w, m - 1);
      NextBurst(interval, limit, request, w, m, Run(config, key, FRESH, earlier));
      RunConcat(config, key, FRESH, earlier, Repeat(request, m * w + 1, limit));
    }
  }

  /**
   The factor (m + 1) cannot be improved: for every limit, every window of at
   least two seconds and every m >= 1 there is a run whose (m + 1) * limit
   admissions fit in a stretch of at most m windows.
   */
  lemma BoundIsReached(interval: string, limit: nat, request: Request, m: nat)
    requires 0 < limit < U64_MAX && m >= 1
    requires WindowSecondsFor(UserOnly(interval, limit), KeyOf(request, UserTier)) >= 2
    ensures exists calls: seq<Call> ::
      var config, key := UserOnly(interval, limit), KeyOf(request, UserTier);
      var log := Run(config, key, FRESH, calls).log;
      && InOrder(calls, 0)
      && |log| == (m + 1) * limit && |log| > 0
      && log[|log| - 1].at - log[0].at <= m * WindowSecondsFor(config, key)
  {
    var w := WindowSecondsFor(UserOnly(interval, limit), KeyOf(request, UserTier));
    BurstsAreAdmitted(interval, limit, request, w, m);
    BurstsInOrder(request, w, limit, m);
    assert InOrder(Bursts(request, w, limit, m), 0);
  }
}
