/**
 Graceful shutdown. Entering an operation is two separate steps, the flag test
 and the counter increment, so the model lets every other step happen between.
 */
module Shutdown {

  /** A caller: not entered, past the flag test, or holding a guard. */
  datatype Phase = Outside | PastTest | Holding

  datatype State = State(requested: bool, active: nat, callers: map<nat, Phase>)

  const START := State(false, 0, map[])

  datatype Event =
    | Test(caller: nat)
    | Increment(caller: nat)
    | DropGuard(caller: nat)
    | Request

  function PhaseOf(s: State, caller: nat): Phase {
    if caller in s.callers then s.callers[caller] else Outside
  }

  function CallersIn(s: State, phase: Phase): set<nat> {
    set c | c in s.callers && s.callers[c] == phase
  }

  predicate Enabled(s: State, e: Event) {
    match e
    case Test(c) => PhaseOf(s, c) == Outside
    case Increment(c) => PhaseOf(s, c) == PastTest
    case DropGuard(c) => PhaseOf(s, c) == Holding
    case Request => true
  }

  /** The unsigned counter as the hardware has it: subtracting from zero wraps. */
  function FetchSub(active: nat): nat {
    if active == 0 then 0xffff_ffff_ffff_ffff else active - 1
  }

  function Next(s: State, e: Event): State
    requires Enabled(s, e)
  {
    match e
    case Test(c) => if s.requested then s else s.(callers := s.callers[c := PastTest])
    case Increment(c) => s.(active := s.active + 1, callers := s.callers[c := Holding])
    case DropGuard(c) => s.(active := FetchSub(s.active), callers := s.callers[c := Outside])
    case Request => s.(requested := true)
  }

  predicate Legal(s: State, events: seq<Event>)
    decreases |events|
  {
    events == [] || (Enabled(s, events[0]) && Legal(Next(s, events[0]), events[1..]))
  }

  function Run(s: State, events: seq<Event>): State
    requires Legal(s, events)
    decreases |events|
  {
    if events == [] then s else Run(Next(s, events[0]), events[1..])
  }

  /** The coordinator object; each method is one atomic step. */
  class ShutdownCoordinator {
    var activeOperations: nat
    var shutdownRequested: bool
    ghost var callers: map<nat, Phase>

    ghost function Abstract(): State
      reads this
    {
      State(shutdownRequested, activeOperations, callers)
    }

    /** The counter is the number of live guards. */
    ghost predicate Valid()
      reads this
    {
      Counted(Abstract())
    }

    constructor ()
      ensures Valid() && Abstract() == START
    {
      activeOperations, shutdownRequested, callers := 0, false, map[];
    }

    /** First half of entering: may this caller go on? */
    method TestFlag(ghost caller: nat) returns (goOn: bool)
      requires Valid() && Enabled(Abstract(), Test(caller))
      modifies this
      ensures Valid() && Abstract() == Next(old(Abstract()), Test(caller))
      ensures goOn == !old(shutdownRequested)
    {
      goOn := !shutdownRequested;
      if goOn {
        callers := callers[caller := PastTest];
      }
      StepKeepsCount(old(Abstract()), Test(caller));
    }

    /** Second half of entering: the caller now holds a guard. */
    method AddOperation(ghost caller: nat)
      requires Valid() && Enabled(Abstract(), Increment(caller))
      modifies this
      ensures Valid() && Abstract() == Next(old(Abstract()), Increment(caller))
    {
      activeOperations := activeOperations + 1;
      callers := callers[caller := Holding];
      StepKeepsCount(old(Abstract()), Increment(caller));
    }

    /** Dropping a guard; true when it was the last one, which wakes the drain. */
    method ExitOperation(ghost caller: nat) returns (wakes: bool)
      requires Valid() && Enabled(Abstract(), DropGuard(caller))
      modifies this
      ensures Valid() && Abstract() == Next(old(Abstract()), DropGuard(caller))
      ensures activeOperations + 1 == old(activeOperations)
      ensures wakes <==> CallersIn(Abstract(), Holding) == {}
    {
      StepKeepsCount(Abstract(), DropGuard(caller));
      assert caller in CallersIn(Abstract(), Holding);
      var prev := activeOperations;
      activeOperations := if prev == 0 then 0xffff_ffff_ffff_ffff else prev - 1;
      callers := callers[caller := Outside];
      wakes := prev == 1;
    }

    method RequestShutdown()
      requires Valid()
      modifies this
      ensures Valid() && Abstract() == Next(old(Abstract()), Request)
    {
      shutdownRequested := true;
      StepKeepsCount(old(Abstract()), Request);
    }

    /** One look of the drain at the counter. */
    method OperationsRemain() returns (remain: bool)
      requires Valid()
      ensures remain <==> CallersIn(Abstract(), Holding) != {}
    {
      remain := activeOperations > 0;
    }
  }

  // ---- Every interleaving ---------------------------------------------------

  ghost predicate Counted(s: State) {
    s.active == |CallersIn(s, Holding)|
  }

  lemma TestKeepsCount(s: State, caller: nat)
    requires Counted(s) && Enabled(s, Test(caller))
    ensures Counted(Next(s, Test(caller)))
  {
    assert CallersIn(Next(s, Test(caller)), Holding) == CallersIn(s, Holding);
  }

  lemma IncrementKeepsCount(s: State, caller: nat)
    requires Counted(s) && Enabled(s, Increment(caller))
    ensures Counted(Next(s, Increment(caller)))
  {
    assert caller !in CallersIn(s, Holding);
    assert CallersIn(Next(s, Increment(caller)), Holding) == CallersIn(s, Holding) + {caller};
  }

  lemma DropKeepsCount(s: State, caller: nat)
    requires Counted(s) && Enabled(s, DropGuard(caller))
    ensures Counted(Next(s, DropGuard(caller)))
    ensures s.active > 0 && Next(s, DropGuard(caller)).active == s.active - 1
  {
    assert caller in CallersIn(s, Holding);
    assert CallersIn(Next(s, DropGuard(caller)), Holding) == CallersIn(s, Holding) - {caller};
  }

  lemma StepKeepsCount(s: State, e: Event)
    requires Counted(s) && Enabled(s, e)
    ensures Counted(Next(s, e))
    ensures e.DropGuard? ==> s.active > 0 && Next(s, e).active == s.active - 1
  {
    match e
    case Test(c) => TestKeepsCount(s, c);
    case Increment(c) => IncrementKeepsCount(s, c);
    case DropGuard(c) => DropKeepsCount(s, c);
    case Request => assert CallersIn(Next(s, Request), Holding) == CallersIn(s, Holding);
  }

  /** In every interleaving the counter is the number of live guards, so it never wraps. */
  lemma {:induction false} CountIsLiveGuards(s: State, events: seq<Event>)
    requires Counted(s) && Legal(s, events)
    ensures Counted(Run(s, events))
    decreases |events|
  {
    if events != [] {
      StepKeepsCount(s, events[0]);
      CountIsLiveGuards(Next(s, events[0]), events[1..]);
    }
  }

  function Committed(s: State): set<nat> {
    CallersIn(s, PastTest) + CallersIn(s, Holding)
  }

  /** After the flag is set, callers past the test and live guards only ever become fewer. */
  lemma {:induction false} CommittedOnlyShrinks(s: State, events: seq<Event>)
    requires s.requested && Legal(s, events)
    ensures Run(s, events).requested && Committed(Run(s, events)) <= Committed(s)
    decreases |events|
  {
    if events != [] {
      var s' := Next(s, events[0]);
      assert Committed(s') <= Committed(s);
      CommittedOnlyShrinks(s', events[1..]);
    }
  }

  /** From here on no operation is ever active again, whatever happens. */
  ghost predicate QuietForever(s: State) {
    forall events: seq<Event> :: Legal(s, events) ==> Run(s, events).active == 0
  }

  /**
   A drain that reads zero after the flag was set means that nothing is ever
   active again exactly when no caller was still between the flag test and the
   increment.
   */
  lemma ZeroIsFinalIffNobodyIsPastTheTest(s: State)
    requires Counted(s) && s.requested && s.active == 0
    ensures QuietForever(s) <==> CallersIn(s, PastTest) == {}
  {
    if CallersIn(s, PastTest) == {} {
      assert CallersIn(s, Holding) == {};
      forall events: seq<Event> | Legal(s, events)
        ensures Run(s, events).active == 0
      {
        CommittedOnlyShrinks(s, events);
        CountIsLiveGuards(s, events);
        assert CallersIn(Run(s, events), Holding) <= Committed(Run(s, events));
      }
    } else {
      var c :| c in CallersIn(s, PastTest);
      var s' := Next(s, Increment(c));
      assert Legal(s', []) && Run(s', []) == s';
      assert [Increment(c)][1..] == [];
      assert Legal(s, [Increment(c)]) && Run(s, [Increment(c)]) == s';
    }
  }

  /** Such a caller can exist: the drain reads zero and an operation starts afterwards. */
  lemma DrainCanBeOvertaken()
    ensures exists events: seq<Event> ::
      && Legal(START, events)
      && Run(START, events).requested && Run(START, events).active == 0
      && !QuietForever(Run(START, events))
  {
    var events := [Test(0), Request];
    var s1 := Next(START, Test(0));
    var s2 := Next(s1, Request);
    assert events[1..] == [Request] && events[1..][1..] == [];
    assert Legal(s2, []) && Run(s2, []) == s2;
    assert Legal(s1, [Request]) && Run(s1, [Request]) == s2;
    assert Legal(START, events) && Run(START, events) == s2;
    assert CallersIn(s2, Holding) == {};
    assert 0 in CallersIn(s2, PastTest);
    ZeroIsFinalIffNobodyIsPastTheTest(s2);
  }
}
