/** The next-free nonce of a relayer, and what every run makes of each nonce. */
module NonceManager {
  import opened Prelude

  datatype Event =
    | Reserve
    | Release(nonce: nat)
    | Sync(onchain: nat)
    | Advance(nonce: nat)
    | Use(nonce: nat)

  /** The next-free nonce after one call; using a reservation does not touch it. */
  function NonceAfter(next: nat, e: Event): nat {
    match e
    case Reserve => next + 1
    case Release(nonce) => if next == nonce + 1 then nonce else next
    case Sync(onchain) => if onchain > next then onchain else next
    case Advance(nonce) => if nonce + 1 > next then nonce + 1 else next
    case Use(_) => next
  }

  /** Each method runs under the manager's lock, so a run is a sequence of these calls. */
  class NonceManager {
    var nonce: nat

    constructor (currentNonce: nat)
      ensures nonce == currentNonce
    {
      nonce := currentNonce;
    }

    method GetAndIncrement() returns (reserved: nat)
      modifies this
      ensures nonce == NonceAfter(old(nonce), Reserve)
      ensures reserved == old(nonce) && nonce == reserved + 1
    {
      reserved := nonce;
      nonce := reserved + 1;
    }

    method SyncWithOnchainNonce(onchain: nat)
      modifies this
      ensures nonce == NonceAfter(old(nonce), Sync(onchain))
      ensures nonce >= old(nonce) && nonce >= onchain && (nonce == old(nonce) || nonce == onchain)
    {
      if onchain > nonce {
        nonce := onchain;
      }
    }

    method GetCurrentNonce() returns (current: nat)
      ensures current == nonce
    {
      current := nonce;
    }

    method ReleaseUnbroadcastNonce(released: nat)
      modifies this
      ensures nonce == NonceAfter(old(nonce), Release(released))
      ensures nonce == if released == old(nonce) - 1 then released else old(nonce)
    {
      if nonce == released + 1 {
        nonce := released;
      }
    }

    method AdvanceAfterPersistedReservation(persisted: nat)
      modifies this
      ensures nonce == NonceAfter(old(nonce), Advance(persisted))
      ensures nonce >= old(nonce) && nonce > persisted && (nonce == old(nonce) || nonce == persisted + 1)
    {
      var nextNonce := persisted + 1;
      if nextNonce > nonce {
        nonce := nextNonce;
      }
    }
  }

  // ---- What became of every nonce -------------------------------------------

  /**
   `live` are reserved and undecided, `used` belong to saved transactions, reserved
   here or persisted with that nonce, `skipped` were jumped over by sync or advance,
   `gaps` were released while a later one was already taken. `synced` is the largest
   on-chain value seen.
   */
  datatype Ledger = Ledger(
    start: nat, next: nat,
    live: set<nat>, used: set<nat>, skipped: set<nat>, gaps: set<nat>,
    synced: nat)

  function Opening(start: nat): Ledger {
    Ledger(start, start, {}, {}, {}, {}, start)
  }

  /** Only live reservations are used or released. */
  predicate Enabled(l: Ledger, e: Event) {
    match e
    case Use(nonce) => nonce in l.live
    case Release(nonce) => nonce in l.live
    case _ => true
  }

  function Between(from: nat, to: nat): (nonces: set<nat>)
    ensures forall n: nat :: n in nonces <==> from <= n < to
  {
    if from >= to then {} else Between(from, to - 1) + {to - 1}
  }

  function Next(l: Ledger, e: Event): Ledger
    requires Enabled(l, e)
  {
    var next := NonceAfter(l.next, e);
    match e
    case Reserve => l.(next := next, live := l.live + {l.next})
    case Use(nonce) => l.(live := l.live - {nonce}, used := l.used + {nonce})
    case Release(nonce) =>
      l.(next := next, live := l.live - {nonce}, gaps := if next == l.next then l.gaps + {nonce} else l.gaps)
    case Sync(onchain) =>
      l.(next := next, skipped := l.skipped + Between(l.next, onchain), synced := Max(l.synced, onchain))
    case Advance(nonce) =>
      if nonce < l.start then l.(next := next)
      else
        l.(next := next, live := l.live - {nonce}, used := l.used + {nonce},
           skipped := l.skipped + Between(l.next, nonce) - {nonce}, gaps := l.gaps - {nonce})
  }

  predicate Legal(l: Ledger, events: seq<Event>)
    decreases |events|
  {
    events == [] || (Enabled(l, events[0]) && Legal(Next(l, events[0]), events[1..]))
  }

  function Run(l: Ledger, events: seq<Event>): Ledger
    requires Legal(l, events)
    decreases |events|
  {
    if events == [] then l else Run(Next(l, events[0]), events[1..])
  }

  /** Every nonce from the start to the next-free one has exactly one fate, and no other nonce has any. */
  ghost predicate OneFateEach(l: Ledger) {
    && l.start <= l.next
    && l.live + l.used + l.skipped + l.gaps == Between(l.start, l.next)
    && l.live !! l.used !! l.skipped !! l.gaps
  }

  /** An advance takes its nonce, jumps over those in between, and goes no further. */
  lemma AdvanceKeepsFates(l: Ledger, nonce: nat)
    requires OneFateEach(l)
    ensures OneFateEach(Next(l, Advance(nonce)))
  {
    var l' := Next(l, Advance(nonce));
    if nonce < l.start {
      assert l' == l;
    } else if nonce < l.next {
      assert nonce in Between(l.start, l.next);
      assert Between(l.next, nonce) == {};
      assert l'.live + l'.used + l'.skipped + l'.gaps == Between(l.start, l.next);
    } else {
      assert nonce !in Between(l.start, l.next);
      assert Between(l.start, nonce + 1) == Between(l.start, l.next) + Between(l.next, nonce) + {nonce};
      assert Between(l.start, l.next) !! Between(l.next, nonce);
    }
  }

  lemma SyncKeepsFates(l: Ledger, onchain: nat)
    requires OneFateEach(l)
    ensures OneFateEach(Next(l, Sync(onchain)))
  {
    var l' := Next(l, Sync(onchain));
    assert Between(l.start, l'.next) == Between(l.start, l.next) + Between(l.next, onchain);
    assert Between(l.start, l.next) !! Between(l.next, onchain);
  }

  lemma StepKeepsFates(l: Ledger, e: Event)
    requires OneFateEach(l) && Enabled(l, e)
    ensures OneFateEach(Next(l, e))
  {
    match e
    case Reserve =>
      assert Between(l.start, l.next + 1) == Between(l.start, l.next) + {l.next};
    case Release(nonce) =>
      assert nonce in Between(l.start, l.next);
    case Use(nonce) =>
      assert nonce in Between(l.start, l.next);
    case Sync(onchain) => SyncKeepsFates(l, onchain);
    case Advance(nonce) => AdvanceKeepsFates(l, nonce);
  }

  lemma {:induction false} RunKeepsFates(l: Ledger, events: seq<Event>)
    requires OneFateEach(l) && Legal(l, events)
    ensures OneFateEach(Run(l, events)) && Run(l, events).start == l.start
    decreases |events|
  {
    if events != [] {
      StepKeepsFates(l, events[0]);
      RunKeepsFates(Next(l, events[0]), events[1..]);
    }
  }

  /**
   Over every run from any starting nonce: each nonce between the start and the
   next-free one is exactly one of live, used, skipped or a gap; live ones lie
   below the next-free nonce; and the next reservation hands out a nonce that
   is none of these.
   */
  lemma EveryNonceHasOneFate(start: nat, events: seq<Event>)
    requires Legal(Opening(start), events)
    ensures var l := Run(Opening(start), events);
      && OneFateEach(l) && l.start == start
      && (forall n :: n in l.live ==> start <= n < l.next)
      && l.next !in l.live + l.used + l.skipped + l.gaps
  {
    RunKeepsFates(Opening(start), events);
    var l := Run(Opening(start), events);
    assert forall n :: n in l.live ==> n in Between(l.start, l.next);
  }

  lemma {:induction false} UsedStaysUsed(l: Ledger, events: seq<Event>, nonce: nat)
    requires OneFateEach(l) && Legal(l, events) && nonce in l.used
    ensures nonce in Run(l, events).used && Run(l, events).next > nonce
    decreases |events|
  {
    if events == [] {
      assert nonce in Between(l.start, l.next);
    } else {
      StepKeepsFates(l, events[0]);
      UsedStaysUsed(Next(l, events[0]), events[1..], nonce);
    }
  }

  /**
   A nonce persisted with a transaction is never handed out afterwards: over every
   run, whatever is reserved, released, synced or advanced before and after, the
   next-free nonce is above it from then on.
   */
  lemma PersistedIsNeverReserved(start: nat, before: seq<Event>, persisted: nat, after: seq<Event>)
    requires start <= persisted && Legal(Opening(start), before)
    requires Legal(Next(Run(Opening(start), before), Advance(persisted)), after)
    ensures var l := Next(Run(Opening(start), before), Advance(persisted));
      && persisted in l.used && persisted !in l.live
      && persisted in Run(l, after).used && Run(l, after).next > persisted
  {
    RunKeepsFates(Opening(start), before);
    var l := Next(Run(Opening(start), before), Advance(persisted));
    AdvanceKeepsFates(Run(Opening(start), before), persisted);
    UsedStaysUsed(l, after, persisted);
  }

  /** The same for a reservation that was saved: no later reservation gets its nonce. */
  lemma SavedIsNeverReserved(start: nat, before: seq<Event>, nonce: nat, after: seq<Event>)
    requires Legal(Opening(start), before) && Enabled(Run(Opening(start), before), Use(nonce))
    requires Legal(Next(Run(Opening(start), before), Use(nonce)), after)
    ensures var l := Run(Next(Run(Opening(start), before), Use(nonce)), after);
      nonce in l.used && l.next > nonce
  {
    RunKeepsFates(Opening(start), before);
    StepKeepsFates(Run(Opening(start), before), Use(nonce));
    UsedStaysUsed(Next(Run(Opening(start), before), Use(nonce)), after, nonce);
  }

  /** A jump takes nothing but what it names: nonces are skipped only below a synced or persisted value. */
  lemma JumpsGoNoFurther(l: Ledger, value: nat)
    ensures var synced := Next(l, Sync(value));
      && synced.next == (if value > l.next then value else l.next)
      && forall n :: n in synced.skipped - l.skipped ==> l.next <= n < value
    ensures var advanced := Next(l, Advance(value));
      && advanced.next == (if value >= l.next then value + 1 else l.next)
      && forall n :: n in advanced.skipped - l.skipped ==> l.next <= n < value
  {
  }

  // ---- Releasing several reservations ---------------------------------------

  function ReleaseAll(next: nat, order: seq<nat>): nat
    decreases |order|
  {
    if order == [] then next else ReleaseAll(NonceAfter(next, Release(order[0])), order[1..])
  }

  lemma {:induction false} EachReleaseGivesBackAtMostOne(next: nat, order: seq<nat>)
    ensures next <= ReleaseAll(next, order) + |order|
    decreases |order|
  {
    if order != [] {
      EachReleaseGivesBackAtMostOne(NonceAfter(next, Release(order[0])), order[1..]);
    }
  }

  /**
   Releasing k nonces takes the next-free nonce back by k exactly when they are
   released from the newest down. In particular k reservations released in
   reverse order restore the value they started from, and in no other order.
   */
  lemma {:induction false} RestoresIffReleasedInReverse(next: nat, order: seq<nat>)
    requires |order| <= next
    ensures ReleaseAll(next, order) == next - |order|
            <==> forall i :: 0 <= i < |order| ==> order[i] == next - 1 - i
    decreases |order|
  {
    if order != [] {
      var rest := order[1..];
      if order[0] == next - 1 {
        RestoresIffReleasedInReverse(next - 1, rest);
        if forall i :: 0 <= i < |rest| ==> rest[i] == next - 2 - i {
          assert forall i :: 0 <= i < |order| ==> order[i] == if i == 0 then next - 1 else rest[i - 1];
        } else {
          var i :| 0 <= i < |rest| && rest[i] != next - 2 - i;
          assert order[i + 1] == rest[i];
        }
      } else {
        EachReleaseGivesBackAtMostOne(next, rest);
      }
    }
  }

  // ---- The chain ------------------------------------------------------------

  /** A release that would hand out a nonce the chain has already passed. */
  predicate ReleasesPassedNonce(l: Ledger, e: Event) {
    e.Release? && l.next == e.nonce + 1 && e.nonce < l.synced
  }

  predicate NoneReleasesPassedNonce(l: Ledger, events: seq<Event>)
    requires Legal(l, events)
    decreases |events|
  {
    events == [] ||
    (!ReleasesPassedNonce(l, events[0]) && NoneReleasesPassedNonce(Next(l, events[0]), events[1..]))
  }

  predicate NeverBehindChain(l: Ledger, events: seq<Event>)
    requires Legal(l, events)
    decreases |events|
  {
    l.synced <= l.next && (events == [] || NeverBehindChain(Next(l, events[0]), events[1..]))
  }

  lemma {:induction false} AheadUnlessPassedNonceReleased(l: Ledger, events: seq<Event>)
    requires Legal(l, events) && l.synced <= l.next
    ensures NeverBehindChain(l, events) <==> NoneReleasesPassedNonce(l, events)
    decreases |events|
  {
    if events != [] {
      var l' := Next(l, events[0]);
      if l'.synced <= l'.next {
        AheadUnlessPassedNonceReleased(l', events[1..]);
      } else {
        assert !NeverBehindChain(l', events[1..]);
      }
    }
  }

  /**
   Starting from an on-chain value, the next-free nonce stays at or above every
   on-chain value synced so far, all through a run, exactly when the run never
   releases the newest nonce after the chain has passed it.
   */
  lemma NextFreeFollowsTheChain(start: nat, events: seq<Event>)
    requires Legal(Opening(start), events)
    ensures NeverBehindChain(Opening(start), events) <==> NoneReleasesPassedNonce(Opening(start), events)
  {
    AheadUnlessPassedNonceReleased(Opening(start), events);
  }

  /** Without that check it can happen: reserve, learn that the chain passed it, release. */
  lemma UncheckedReleaseFallsBehind(start: nat)
    ensures var events := [Reserve, Sync(start + 1), Release(start)];
      Legal(Opening(start), events) && !NeverBehindChain(Opening(start), events)
  {
    var l0 := Opening(start);
    var events := [Reserve, Sync(start + 1), Release(start)];
    var l1 := Next(l0, Reserve);
    var l2 := Next(l1, Sync(start + 1));
    var l3 := Next(l2, Release(start));
    assert events[1..][1..][1..] == [] && events[1..][1..] == [Release(start)];
    assert Legal(l3, []) && Legal(l2, [Release(start)]) && Legal(l1, events[1..]);
    assert !NeverBehindChain(l3, []) && !NeverBehindChain(l2, [Release(start)]);
    assert !NeverBehindChain(l1, events[1..]);
  }

  // ---- The caller's order -----------------------------------------------------

  /**
   What the transaction queue does while it holds the lock of one relayer: an
   admission syncs, reserves, and keeps or releases that very nonce; it may stop
   after the sync; and a replacement advances.
   */
  datatype QueueCall = Admit(onchain: nat, saved: bool) | StopAfterSync(onchain: nat) | AdvanceTo(nonce: nat)

  function EventsOf(l: Ledger, c: QueueCall): seq<Event> {
    match c
    case Admit(onchain, saved) =>
      var reserved := NonceAfter(l.next, Sync(onchain));
      [Sync(onchain), Reserve, if saved then Use(reserved) else Release(reserved)]
    case StopAfterSync(onchain) => [Sync(onchain)]
    case AdvanceTo(nonce) => [Advance(nonce)]
  }

  /** The calls can happen, and the next-free nonce is never below a synced value on the way. */
  predicate GoodRun(l: Ledger, events: seq<Event>)
    decreases |events|
  {
    && l.synced <= l.next
    && (events == [] || (Enabled(l, events[0]) && GoodRun(Next(l, events[0]), events[1..])))
  }

  lemma {:induction false} GoodRunsStayAhead(l: Ledger, events: seq<Event>)
    requires GoodRun(l, events)
    ensures Legal(l, events) && NeverBehindChain(l, events) && Run(l, events).synced <= Run(l, events).next
    decreases |events|
  {
    if events != [] {
      GoodRunsStayAhead(Next(l, events[0]), events[1..]);
    }
  }

  /** One call of the queue never falls behind the chain. */
  lemma QueueCallStaysAhead(l: Ledger, c: QueueCall)
    requires l.synced <= l.next
    ensures GoodRun(l, EventsOf(l, c))
  {
    var events := EventsOf(l, c);
    var l1 := Next(l, events[0]);
    if c.Admit? {
      var l2 := Next(l1, Reserve);
      var l3 := Next(l2, events[2]);
      assert events[1..][1..] == [events[2]] && [events[2]][1..] == [];
      assert GoodRun(l3, []) && GoodRun(l2, [events[2]]) && GoodRun(l1, events[1..]);
    } else {
      assert GoodRun(l1, []);
    }
  }

  /** The events of a whole sequence of calls. */
  ghost function AllEvents(l: Ledger, calls: seq<QueueCall>): seq<Event>
    requires l.synced <= l.next
    decreases |calls|
  {
    if calls == [] then []
    else
      QueueCallStaysAhead(l, calls[0]);
      GoodRunsStayAhead(l, EventsOf(l, calls[0]));
      EventsOf(l, calls[0]) + AllEvents(Run(l, EventsOf(l, calls[0])), calls[1..])
  }

  lemma {:induction false} GoodRunsJoin(l: Ledger, a: seq<Event>, b: seq<Event>)
    requires GoodRun(l, a) && Legal(l, a) && GoodRun(Run(l, a), b)
    ensures GoodRun(l, a + b)
    decreases |a|
  {
    if a == [] {
      assert a + b == b;
    } else {
      GoodRunsJoin(Next(l, a[0]), a[1..], b);
      assert (a + b)[1..] == a[1..] + b;
    }
  }

  /** Whatever the chain answers and whichever saves fail, the queue's calls never fall behind the chain. */
  lemma {:induction false} QueueNeverFallsBehind(l: Ledger, calls: seq<QueueCall>)
    requires l.synced <= l.next
    ensures GoodRun(l, AllEvents(l, calls))
    decreases |calls|
  {
    if calls != [] {
      QueueCallStaysAhead(l, calls[0]);
      var first := EventsOf(l, calls[0]);
      GoodRunsStayAhead(l, first);
      QueueNeverFallsBehind(Run(l, first), calls[1..]);
      GoodRunsJoin(l, first, AllEvents(Run(l, first), calls[1..]));
    }
  }
}
