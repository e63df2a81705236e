/**
 How old and how stale a row answered from the cache can be, when reading the
 database and filling the cache are separate steps of concurrent getters.
 */
module ReadThrough {
  import opened Prelude
  import opened TtlCache

  /** A getter that has read the database and not filled the cache yet. */
  datatype Flight = Flight(slot: Slot, row: Option<Row>)

  datatype State = State(now: nat, entries: Entries, db: map<Slot, Row>, flights: map<nat, Flight>)

  datatype Event =
    | Read(flight: nat, slot: Slot)
    | Fill(flight: nat)
    | Store(slot: Slot, row: Row)
    | Remove(slot: Slot)
    | Invalidate(slot: Slot)
    | Sweep
    | Tick(seconds: nat)

  predicate Enabled(s: State, e: Event) {
    match e
    case Read(f, _) => f !in s.flights
    case Fill(f) => f in s.flights
    case _ => true
  }

  function Next(s: State, e: Event): State
    requires Enabled(s, e)
  {
    match e
    case Read(f, slot) => s.(flights := s.flights[f := Flight(slot, Lookup(s.db, slot))])
    case Fill(f) =>
      var flight := s.flights[f];
      s.(entries := s.entries[KeyOf(flight.slot) := CacheEntry(Tag(flight.slot, flight.row), s.now + TIME_TO_LIVE)],
         flights := s.flights - {f})
    case Store(slot, row) => s.(db := s.db[slot := row])
    case Remove(slot) => s.(db := s.db - {slot})
    case Invalidate(slot) => s.(entries := s.entries - {KeyOf(slot)})
    case Sweep => s.(entries := Swept(s.entries, s.now))
    case Tick(seconds) => s.(now := s.now + seconds)
  }

  /** A filled entry answers with what was read for the next 600 seconds and not after. */
  lemma FilledAnswersForTenMinutes(s: State, f: nat, later: nat)
    requires f in s.flights
    ensures var flight := s.flights[f];
      Visible(Next(s, Fill(f)).entries, KeyOf(flight.slot), later) ==
      if later < s.now + 600
      then Some(if flight.slot.kind == RelayerKind then Relayer(flight.row) else Transaction(flight.row))
      else None
  {
  }

  /** A run, written out: states[i] is where events[i] happens. */
  ghost predicate Trace(states: seq<State>, events: seq<Event>) {
    && |states| == |events| + 1
    && states[0].entries == map[] && states[0].flights == map[]
    && forall i :: 0 <= i < |events| ==> Enabled(states[i], events[i]) && states[i + 1] == Next(states[i], events[i])
  }

  /** The getter would answer this row from the cache. */
  predicate Hits(s: State, slot: Slot, row: Row) {
    Visible(s.entries, KeyOf(slot), s.now) == Some(Tag(slot, Some(row)))
  }

  /** The row of flight f, in flight at step n, was read from the database at step k. */
  ghost predicate ReadAt(states: seq<State>, events: seq<Event>, k: nat, n: nat, f: nat, flight: Flight)
    requires Trace(states, events)
  {
    && k < n < |states|
    && events[k] == Read(f, flight.slot)
    && flight.row == Lookup(states[k].db, flight.slot)
    && (forall i :: k < i < n ==> events[i] != Fill(f) && (events[i].Read? ==> events[i].flight != f))
  }

  lemma {:induction false} FlightsWereRead(states: seq<State>, events: seq<Event>, n: nat, f: nat) returns (k: nat)
    requires Trace(states, events) && n < |states| && f in states[n].flights
    ensures ReadAt(states, events, k, n, f, states[n].flights[f])
    decreases n
  {
    assert n > 0;
    var s, e := states[n - 1], events[n - 1];
    assert states[n] == Next(s, e);
    if e.Read? && e.flight == f {
      k := n - 1;
    } else {
      k := FlightsWereRead(states, events, n - 1, f);
    }
  }

  /** The cached row of a slot at step n: read at step k, filled in at step j, not invalidated since. */
  ghost predicate FilledFrom(states: seq<State>, events: seq<Event>, k: nat, j: nat, n: nat, slot: Slot)
    requires Trace(states, events) && n < |states| && KeyOf(slot) in states[n].entries
  {
    && k < j < n
    && events[k].Read? && events[j] == Fill(events[k].flight)
    && ReadAt(states, events, k, j, events[k].flight, Flight(slot, Lookup(states[k].db, slot)))
    && states[n].entries[KeyOf(slot)] == CacheEntry(Tag(slot, Lookup(states[k].db, slot)), states[j].now + TIME_TO_LIVE)
    && (forall i :: j < i < n ==> events[i] != Invalidate(slot))
  }

  lemma {:induction false} EntriesWereFilled(states: seq<State>, events: seq<Event>, n: nat, slot: Slot)
    returns (k: nat, j: nat)
    requires Trace(states, events) && n < |states| && KeyOf(slot) in states[n].entries
    ensures FilledFrom(states, events, k, j, n, slot)
    decreases n
  {
    assert n > 0;
    var s, e := states[n - 1], events[n - 1];
    assert states[n] == Next(s, e);
    if e.Fill? && KeyOf(s.flights[e.flight].slot) == KeyOf(slot) {
      KeysAreInjective(s.flights[e.flight].slot, slot);
      j := n - 1;
      k := FlightsWereRead(states, events, j, e.flight);
    } else {
      k, j := EntriesWereFilled(states, events, n - 1, slot);
      assert e != Invalidate(slot);
    }
  }

  lemma {:induction false} TimeGoesForward(states: seq<State>, events: seq<Event>, i: nat, n: nat)
    requires Trace(states, events) && i <= n < |states|
    ensures states[i].now <= states[n].now
    decreases n
  {
    if i < n {
      assert states[n] == Next(states[n - 1], events[n - 1]);
      TimeGoesForward(states, events, i, n - 1);
    }
  }

  /**
   The row was in the database when a getter read it at step k; that getter
   filled the cache at step j, less than 600 seconds before step n; the slot was
   not invalidated after the fill.
   */
  ghost predicate RecentRow(states: seq<State>, events: seq<Event>, k: nat, j: nat, n: nat, slot: Slot, row: Row)
    requires Trace(states, events) && n < |states|
  {
    && k < j < n
    && events[k].Read? && events[k].slot == slot && events[j] == Fill(events[k].flight)
    && Lookup(states[k].db, slot) == Some(row)
    && states[k].now <= states[j].now <= states[n].now < states[j].now + 600
    && (forall i :: j < i < n ==> events[i] != Invalidate(slot))
  }

  /** Every row answered from the cache, in every interleaving of getters, writers and the sweeper, is recent. */
  lemma HitsAreRecentRows(states: seq<State>, events: seq<Event>, n: nat, slot: Slot, row: Row)
    requires Trace(states, events) && n < |states| && Hits(states[n], slot, row)
    ensures exists k: nat, j: nat :: RecentRow(states, events, k, j, n, slot, row)
  {
    var k, j := EntriesWereFilled(states, events, n, slot);
    TimeGoesForward(states, events, k, j);
    TimeGoesForward(states, events, j, n);
    assert RecentRow(states, events, k, j, n, slot, row);
  }

  /** Getters that are not interrupted: each fill directly follows its read. */
  predicate Atomic(events: seq<Event>) {
    forall j :: 0 <= j < |events| && events[j].Fill? ==>
      j > 0 && events[j - 1].Read? && events[j - 1].flight == events[j].flight
  }

  /** The row was in the database at step k, less than 600 seconds before step n and with no invalidation since. */
  ghost predicate CurrentSinceInvalidation(
    states: seq<State>, events: seq<Event>, k: nat, n: nat, slot: Slot, row: Row)
    requires Trace(states, events) && n < |states|
  {
    && k < n
    && Lookup(states[k].db, slot) == Some(row)
    && states[k].now <= states[n].now < states[k].now + 600
    && (forall i :: k <= i < n ==> events[i] != Invalidate(slot))
  }

  /**
   With uninterrupted getters, a row answered from the cache was in the database
   less than 600 seconds ago and at a moment after the last invalidation.
   */
  lemma AtomicHitsFollowInvalidations(states: seq<State>, events: seq<Event>, n: nat, slot: Slot, row: Row)
    requires Trace(states, events) && Atomic(events) && n < |states| && Hits(states[n], slot, row)
    ensures exists k: nat :: CurrentSinceInvalidation(states, events, k, n, slot, row)
  {
    var k, j := EntriesWereFilled(states, events, n, slot);
    // The read just before the fill is the read of this flight.
    assert events[j - 1].Read? && events[j - 1].flight == events[k].flight;
    assert k == j - 1;
    assert states[j] == Next(states[k], events[k]);
    TimeGoesForward(states, events, j, n);
    assert CurrentSinceInvalidation(states, events, k, n, slot, row);
  }

  /** Interrupted, they do not: a fill can land after the invalidation that should have undone it. */
  lemma LateFillSurvivesInvalidation(slot: Slot, before: Row, after: Row)
    requires before != after
    ensures exists states: seq<State>, events: seq<Event> ::
      && Trace(states, events) && |events| == 4
      && events[2] == Invalidate(slot)
      && Lookup(states[2].db, slot) == Lookup(states[4].db, slot) == Some(after)
      && Hits(states[4], slot, before)
  {
    var s0 := State(0, map[], map[slot := before], map[]);
    var events := [Read(0, slot), Store(slot, after), Invalidate(slot), Fill(0)];
    var s1 := Next(s0, events[0]);
    var s2 := Next(s1, events[1]);
    var s3 := Next(s2, events[2]);
    var s4 := Next(s3, events[3]);
    var states := [s0, s1, s2, s3, s4];
    assert forall i :: 0 <= i < |events| ==>
        Enabled(states[i], events[i]) && states[i + 1] == Next(states[i], events[i]);
    assert Trace(states, events);
    assert Hits(s4, slot, before);
  }

  // ---- Invalidation ---------------------------------------------------------

  predicate Legal(s: State, events: seq<Event>)
    decreases |events|
  {
    events == [] || (Enabled(s, events[0]) && Legal(Next(s, events[0]), events[1..]))
  }

  function Run(s: State, events: seq<Event>): State
    requires Legal(s, events)
    decreases |events|
  {
    if events == [] then s else Run(Next(s, events[0]), events[1..])
  }

  lemma StepKeepsTags(s: State, e: Event)
    requires WellTagged(s.entries) && Enabled(s, e)
    ensures WellTagged(Next(s, e).entries)
  {
    if e.Fill? {
      var flight := s.flights[e.flight];
      InsertKeepsTags(s.entries, flight.slot, flight.row, s.now + TIME_TO_LIVE);
    }
  }

  /** In every interleaving no getter finds a value of another kind under its key. */
  lemma {:induction false} RunKeepsTags(s: State, events: seq<Event>)
    requires WellTagged(s.entries) && Legal(s, events)
    ensures WellTagged(Run(s, events).entries)
    decreases |events|
  {
    if events != [] {
      StepKeepsTags(s, events[0]);
      RunKeepsTags(Next(s, events[0]), events[1..]);
    }
  }

  /** The database holds this row at some moment of the run, its first and its last included. */
  predicate HeldDuring(s: State, events: seq<Event>, slot: Slot, row: Row)
    requires Legal(s, events)
    decreases |events|
  {
    Lookup(s.db, slot) == Some(row) || (events != [] && HeldDuring(Next(s, events[0]), events[1..], slot, row))
  }

  /** From here on the cache answers only rows that the database holds from here on. */
  ghost predicate OnlyLaterRows(s: State, slot: Slot) {
    forall later: seq<Event>, row: Row :: Legal(s, later) && Hits(Run(s, later), slot, row) ==>
      HeldDuring(s, later, slot, row)
  }

  /** No getter carries a row of the slot that the database has replaced or removed. */
  predicate NoStaleFlight(s: State, slot: Slot) {
    forall f :: f in s.flights && s.flights[f].slot == slot ==>
      s.flights[f].row.None? || s.flights[f].row == Lookup(s.db, slot)
  }

  /** The database, the getters and the cache know no row of the slot but these. */
  ghost predicate KnowsOnly(s: State, slot: Slot, rows: set<Row>) {
    && (forall row :: Lookup(s.db, slot) == Some(row) ==> row in rows)
    && (forall f, row :: f in s.flights && s.flights[f] == Flight(slot, Some(row)) ==> row in rows)
    && (KeyOf(slot) in s.entries ==>
          forall row :: s.entries[KeyOf(slot)].value == Tag(slot, Some(row)) ==> row in rows)
  }

  lemma StepLearnsFromTheDatabase(s: State, e: Event, slot: Slot, rows: set<Row>)
    requires KnowsOnly(s, slot, rows) && Enabled(s, e)
    ensures var s' := Next(s, e);
      KnowsOnly(s', slot, rows + set row | row in s'.db.Values && Lookup(s'.db, slot) == Some(row))
  {
    var s' := Next(s, e);
    assert slot in s'.db ==> s'.db[slot] in s'.db.Values;
    if e.Fill? && KeyOf(s.flights[e.flight].slot) == KeyOf(slot) {
      KeysAreInjective(s.flights[e.flight].slot, slot);
      assert s.flights[e.flight] == Flight(slot, s.flights[e.flight].row);
    }
  }

  lemma {:induction false} HitsWereHeld(s: State, later: seq<Event>, slot: Slot, row: Row, rows: set<Row>)
    requires KnowsOnly(s, slot, rows) && Legal(s, later) && Hits(Run(s, later), slot, row)
    ensures row in rows || HeldDuring(s, later, slot, row)
    decreases |later|
  {
    if later != [] {
      var s' := Next(s, later[0]);
      StepLearnsFromTheDatabase(s, later[0], slot, rows);
      HitsWereHeld(
        s', later[1..], slot, row, rows + set r | r in s'.db.Values && Lookup(s'.db, slot) == Some(r));
    }
  }

  lemma StaleFlightIsAnswered(s: State, slot: Slot, f: nat)
    requires f in s.flights && s.flights[f].slot == slot
    requires s.flights[f].row.Some? && s.flights[f].row != Lookup(s.db, slot)
    ensures !OnlyLaterRows(s, slot)
  {
    var row := s.flights[f].row.value;
    var s' := Next(s, Fill(f));
    assert Legal(s', []) && Run(s', []) == s' && [Fill(f)][1..] == [];
    assert Legal(s, [Fill(f)]) && Run(s, [Fill(f)]) == s';
    assert Hits(s', slot, row) && !HeldDuring(s', [], slot, row);
    assert !HeldDuring(s, [Fill(f)], slot, row);
  }

  /**
   At every invalidation, whatever came before: from then on the cache answers
   only rows that the database holds from then on, if and only if no getter is
   carrying a row that the database no longer holds.
   */
  lemma InvalidationHoldsIff(before: State, slot: Slot)
    ensures var s := Next(before, Invalidate(slot)); OnlyLaterRows(s, slot) <==> NoStaleFlight(s, slot)
  {
    var s := Next(before, Invalidate(slot));
    if NoStaleFlight(s, slot) {
      var rows := set row | row in s.db.Values && Lookup(s.db, slot) == Some(row);
      assert slot in s.db ==> s.db[slot] in s.db.Values;
      assert KnowsOnly(s, slot, rows);
      forall later: seq<Event>, row: Row | Legal(s, later) && Hits(Run(s, later), slot, row)
        ensures HeldDuring(s, later, slot, row)
      {
        HitsWereHeld(s, later, slot, row, rows);
      }
    } else {
      var f :| f in s.flights && s.flights[f].slot == slot
        && s.flights[f].row.Some? && s.flights[f].row != Lookup(s.db, slot);
      StaleFlightIsAnswered(s, slot, f);
    }
  }
}
