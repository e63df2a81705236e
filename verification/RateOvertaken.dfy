/**
 The window law for concurrent requests without its clock order: it holds for
 one request at a time and for no larger number, because one overtaken clock
 reading lets a window be filled twice.
 */
module RateOvertaken {
  import opened Prelude
  import opened RateWindow
  import opened RateInterleaving
  import opened RateStretch
  import opened RateCrowd
  import Law = RateWindowLaw

  function Slow(p: Setup, pc: nat, clock: nat, armed: bool): map<nat, Flight> {
    map[0 := Flight(p.request, pc, clock, armed)]
  }

  lemma TimePasses(
    p: Setup, within: (System, nat) -> bool, cached: Option<UsageWindow>, now: nat, flights: map<nat, Flight>,
    n: nat, seconds: nat)
    requires Closed(p, within) && within(Scene(p, cached, now, flights), n)
    ensures within(Scene(p, cached, now + seconds, flights), n)
  {
    StepWithin(p, within, Scene(p, cached, now, flights), n, Tick(seconds));
  }

  /** A slow request passes its checks at second 61, while nothing is counted. */
  lemma SlowPassesItsChecks(p: Setup, within: (System, nat) -> bool)
    requires Closed(p, within) && p.k >= 1 && p.Fits(61) && within(START, 0)
    ensures within(Scene(p, None, 61, Slow(p, 3, 61, false)), 0)
  {
    StepWithin(p, within, START, 0, Tick(61));
    PassesItsChecks(p, within, None, 61, map[], 0, 0);
    assert With(Scene(p, None, 61, map[]), p, 0, 3, 61) == Scene(p, None, 61, Slow(p, 3, 61, false));
  }

  lemma SlowReadsTheClock(
    p: Setup, within: (System, nat) -> bool, cached: Option<UsageWindow>, now: nat, n: nat)
    requires Closed(p, within) && within(Scene(p, cached, now, Slow(p, 3, 61, false)), n)
    ensures within(Scene(p, cached, now, Slow(p, 3, now, true)), n)
  {
    StepWithin(p, within, Scene(p, cached, now, Slow(p, 3, 61, false)), n, ReadClock(0));
    assert Slow(p, 3, 61, false)[0 := Flight(p.request, 3, now, true)] == Slow(p, 3, now, true);
  }

  lemma LateReservation(p: Setup, count: nat)
    ensures Acted(p.Rules(), Scene(p, Some(UsageWindow(count, 120)), 121, Slow(p, 3, 119, true)), 0)
            == Scene(p, Some(UsageWindow(1, 60)), 121, Slow(p, 4, 119, false))
  {
    QuotientIsUnique(119, 60, 1);
    assert AfterReserve(Some(UsageWindow(count, 120)), 119, 60) == UsageWindow(1, 60);
    assert Slow(p, 3, 119, true)[0 := Flight(p.request, 4, 119, false)] == Slow(p, 4, 119, false);
  }

  /** Its reservation, with the reading of 119, drags the counter back from the window of 120. */
  lemma SlowReservesLate(p: Setup, within: (System, nat) -> bool, count: nat, n: nat)
    requires Closed(p, within) && p.from <= 119 && 121 <= p.to
    requires within(Scene(p, Some(UsageWindow(count, 120)), 121, Slow(p, 3, 119, true)), n)
    ensures within(Scene(p, Some(UsageWindow(1, 60)), 121, map[]), n + 1)
  {
    var s := Scene(p, Some(UsageWindow(count, 120)), 121, Slow(p, 3, 119, true));
    StepWithin(p, within, s, n, Act(0));
    assert Counts(p.Rules(), p.Key(), s, Act(0));
    LateReservation(p, count);
    var s' := Scene(p, Some(UsageWindow(1, 60)), 121, map[]);
    assert With(s', p, 0, 4, 119) == Scene(p, Some(UsageWindow(1, 60)), 121, Slow(p, 4, 119, false));
    Finishes(p, within, s', n + 1, 0, 119);
  }

  /** The window of 60 is filled, and then the slow request reads 119. */
  lemma SlowReadsLate(p: Setup, within: (System, nat) -> bool)
    requires Closed(p, within) && p.k >= 2 && p.Fits(61) && within(START, 0)
    ensures within(
              Scene(p, Some(UsageWindow(p.limit + p.k - 2, 60)), 119, Slow(p, 3, 119, true)), p.limit + p.k - 2)
  {
    var first := Some(UsageWindow(p.limit + p.k - 2, 60));
    QuotientIsUnique(61, 60, 1);
    SlowPassesItsChecks(p, within);
    CrowdFills(p, within, None, 61, Slow(p, 3, 61, false), p.k - 1, 0);
    TimePasses(p, within, first, 61, Slow(p, 3, 61, false), p.limit + p.k - 2, 58);
    SlowReadsTheClock(p, within, first, 119, p.limit + p.k - 2);
  }

  /** Before it reserves, the window of 120 is filled. */
  lemma SlowIsOvertaken(p: Setup, within: (System, nat) -> bool)
    requires Closed(p, within) && p.k >= 2 && p.Fits(61) && p.Fits(121) && within(START, 0)
    ensures within(
              Scene(p, Some(UsageWindow(p.limit + p.k - 2, 120)), 121, Slow(p, 3, 119, true)),
              2 * (p.limit + p.k - 2))
  {
    var crowd, first := p.limit + p.k - 2, Some(UsageWindow(p.limit + p.k - 2, 60));
    SlowReadsLate(p, within);
    TimePasses(p, within, first, 119, Slow(p, 3, 119, true), crowd, 2);
    QuotientIsUnique(121, 60, 2);
    CrowdFills(p, within, first, 121, Slow(p, 3, 119, true), p.k - 1, crowd);
  }

  /** The slow reservation is made, and the window of 120 is filled again by a crowd of k. */
  lemma WindowIsFilledTwice(p: Setup, within: (System, nat) -> bool)
    requires Closed(p, within) && p.k >= 2 && p.Fits(61) && p.Fits(121) && within(START, 0)
    ensures within(
              Scene(p, Some(UsageWindow(p.limit + p.k - 1, 120)), 121, map[]), 3 * p.limit + 3 * p.k - 4)
  {
    var crowd := p.limit + p.k - 2;
    SlowIsOvertaken(p, within);
    SlowReservesLate(p, within, crowd, 2 * crowd);
    QuotientIsUnique(121, 60, 2);
    CrowdFills(p, within, Some(UsageWindow(1, 60)), 121, map[], p.k, 2 * crowd + 1);
  }

  /** All readings from i to j lie within the given span. */
  ghost predicate Within(log: seq<Law.Admission>, i: nat, j: nat, span: nat)
    requires i <= j < |log|
  {
    forall a, b :: i <= a <= j && i <= b <= j ==> log[b].at - log[a].at <= span
  }

  /** If the readings from i to j lie within m windows, there are at most (m + 1) * (limit + k - 1) of them. */
  ghost predicate Keeps(limit: nat, k: nat, log: seq<Law.Admission>, m: nat, i: nat, j: nat) {
    i <= j < |log| && Within(log, i, j, m * 60) ==> j - i + 1 <= (m + 1) * (limit + k - 1)
  }

  function UserLog(limit: nat, k: nat, request: Request, events: seq<Event>): seq<Law.Admission>
    requires Legal(Minute(limit), k, START, events)
  {
    Log(Minute(limit), k, KeyOf(request, UserTier), START, [], events)
  }

  /** Every run of at most k requests in flight without give-backs keeps the bound in every stretch. */
  ghost predicate WindowLaw(limit: nat, k: nat) {
    forall request: Request, events: seq<Event>, m: nat, i: nat, j: nat ::
      Legal(Minute(limit), k, START, events) && NoGiveBacks(events) ==>
        Keeps(limit, k, UserLog(limit, k, request, events), m, i, j)
  }

  /** With more than one request in flight an overtaken reading breaks the law. */
  lemma OvertakenReadingBreaksTheLaw(limit: nat, k: nat, request: Request)
    requires 0 < limit < U64_MAX && k >= 2
    ensures exists events: seq<Event> ::
      && Legal(Minute(limit), k, START, events) && NoGiveBacks(events)
      && var log := UserLog(limit, k, request, events);
         |log| == 3 * limit + 3 * k - 4 > 2 * (limit + k - 1) && Within(log, 0, |log| - 1, 60)
  {
    var p := Setup(limit, k, request, 61, 121);
    ReachedIsClosed(p);
    WindowIsFilledTwice(p, (s: System, n: nat) => Reached(p, s, n));
    var s, n := Scene(p, Some(UsageWindow(limit + k - 1, 120)), 121, map[]), 3 * limit + 3 * k - 4;
    assert Reached(p, s, n);
    var events: seq<Event> :| ReachedBy(p, s, n, events);
    var log := UserLog(limit, k, request, events);
    assert |log| == n && Within(log, 0, |log| - 1, 60);
  }

  lemma LawHoldsForOne(limit: nat)
    requires limit < U64_MAX
    ensures WindowLaw(limit, 1)
  {
    forall request: Request, events: seq<Event>, m: nat, i: nat, j: nat |
      Legal(Minute(limit), 1, START, events) && NoGiveBacks(events)
      ensures Keeps(limit, 1, UserLog(limit, 1, request, events), m, i, j)
    {
      var log := UserLog(limit, 1, request, events);
      if i <= j < |log| && Within(log, i, j, m * 60) {
        OneAtATimeKeepsTheLaw(Minute(limit), events, KeyOf(request, UserTier), limit, m, i, j);
      }
    }
  }

  lemma LawFailsForMore(limit: nat, k: nat)
    requires 0 < limit < U64_MAX && k >= 2
    ensures !WindowLaw(limit, k)
  {
    var request := Request("", 0, Transaction);
    OvertakenReadingBreaksTheLaw(limit, k, request);
    var events: seq<Event> :|
      && Legal(Minute(limit), k, START, events) && NoGiveBacks(events)
      && var log := UserLog(limit, k, request, events);
         |log| == 3 * limit + 3 * k - 4 > 2 * (limit + k - 1) && Within(log, 0, |log| - 1, 60);
    var log := UserLog(limit, k, request, events);
    assert !Keeps(limit, k, log, 1, 0, |log| - 1);
  }

  /** The law holds, over all interleavings, if and only if at most one request is in flight. */
  lemma WindowLawHoldsIff(limit: nat, k: nat)
    requires 0 < limit < U64_MAX && k >= 1
    ensures WindowLaw(limit, k) <==> k == 1
  {
    if k == 1 {
      LawHoldsForOne(limit);
    } else {
      LawFailsForMore(limit, k);
    }
  }
}
