/** The shared cache with expiring entries, its sweeper, and the getters that read through it. */
module TtlCache {
  import opened Prelude

  /** A stored row, as one value per version. */
  type Row = nat

  datatype CacheValue =
    | Networks(names: seq<string>)
    | Relayer(relayer: Option<Row>)
    | IsRelayerApiKey(valid: bool)
    | Transaction(transaction: Option<Row>)
    | AuthenticationChallenge(challenge: string)

  /** Times are seconds; an entry answers strictly before it expires. */
  datatype CacheEntry = CacheEntry(value: CacheValue, expirationTime: nat)

  type Entries = map<string, CacheEntry>

  const TIME_TO_LIVE: nat := 60 * 10

  function Visible(entries: Entries, key: string, now: nat): Option<CacheValue> {
    if key in entries && entries[key].expirationTime > now then Some(entries[key].value) else None
  }

  function Swept(entries: Entries, now: nat): Entries {
    map key | key in entries && entries[key].expirationTime > now :: entries[key]
  }

  // ---- Keys and tags --------------------------------------------------------

  datatype Kind = RelayerKind | TransactionKind

  /** One row of the database, as the cache names it; identifiers are their printed form. */
  datatype Slot = Slot(kind: Kind, id: string)

  function KeyOf(slot: Slot): string {
    (if slot.kind == RelayerKind then "relayer" else "transaction") + "__" + slot.id
  }

  function Tag(slot: Slot, row: Option<Row>): CacheValue {
    if slot.kind == RelayerKind then Relayer(row) else Transaction(row)
  }

  predicate HasTagOf(slot: Slot, value: CacheValue) {
    if slot.kind == RelayerKind then value.Relayer? else value.Transaction?
  }

  function Untag(slot: Slot, value: CacheValue): Option<Row>
    requires HasTagOf(slot, value)
  {
    if slot.kind == RelayerKind then value.relayer else value.transaction
  }

  lemma KeysAreInjective(a: Slot, b: Slot)
    requires KeyOf(a) == KeyOf(b)
    ensures a == b
  {
    assert KeyOf(a)[0] == if a.kind == RelayerKind then 'r' else 't';
    assert KeyOf(b)[0] == if b.kind == RelayerKind then 'r' else 't';
    assert KeyOf(a)[|KeyOf(a)| - |a.id|..] == a.id;
    assert KeyOf(b)[|KeyOf(b)| - |b.id|..] == b.id;
  }

  /** No getter of these callers ever finds a value of another kind under its key. */
  ghost predicate WellTagged(entries: Entries) {
    forall slot: Slot :: KeyOf(slot) in entries ==> HasTagOf(slot, entries[KeyOf(slot)].value)
  }

  lemma InsertKeepsTags(entries: Entries, slot: Slot, row: Option<Row>, expirationTime: nat)
    requires WellTagged(entries)
    ensures WellTagged(entries[KeyOf(slot) := CacheEntry(Tag(slot, row), expirationTime)])
  {
    forall other: Slot | KeyOf(other) == KeyOf(slot)
      ensures other == slot
    {
      KeysAreInjective(other, slot);
    }
  }

  datatype DatabaseError = Unreadable

  // ---- The objects ----------------------------------------------------------

  class Cache {
    var entries: Entries

    constructor ()
      ensures entries == map[]
    {
      entries := map[];
    }

    method InsertWithExpiry(key: string, value: CacheValue, now: nat, expirationDuration: nat)
      modifies this
      ensures entries == old(entries)[key := CacheEntry(value, now + expirationDuration)]
      ensures entries == Apply(old(entries), Timed(PutOp(key, value, expirationDuration), now))
    {
      entries := entries[key := CacheEntry(value, now + expirationDuration)];
    }

    method Insert(key: string, value: CacheValue, now: nat)
      modifies this
      ensures entries == old(entries)[key := CacheEntry(value, now + 600)]
    {
      InsertWithExpiry(key, value, now, TIME_TO_LIVE);
    }

    method Get(key: string, now: nat) returns (r: Option<CacheValue>)
      ensures r == Visible(entries, key, now)
    {
      if key in entries {
        var entry := entries[key];
        if entry.expirationTime > now {
          return Some(entry.value);
        }
      }
      return None;
    }

    /** Hands back what was stored, expired or not. */
    method Delete(key: string) returns (r: Option<CacheValue>)
      modifies this
      ensures entries == old(entries) - {key}
      ensures forall now: nat :: entries == Apply(old(entries), Timed(DeleteOp(key), now))
      ensures r == if key in old(entries) then Some(old(entries)[key].value) else None
    {
      r := None;
      if key in entries {
        r := Some(entries[key].value);
      }
      entries := entries - {key};
    }

    /** Removes expired entries and nothing that any later get could still see. */
    method Sweep(now: nat)
      modifies this
      ensures entries == Swept(old(entries), now) == Apply(old(entries), Timed(SweepOp, now))
      ensures forall key: string :: key in entries <==> key in old(entries) && old(entries)[key].expirationTime > now
      ensures forall key: string, later: nat :: later >= now ==>
        Visible(entries, key, later) == Visible(old(entries), key, later)
    {
      entries := map key | key in entries && entries[key].expirationTime > now :: entries[key];
    }

    /**
     The read-through getter of relayers and of transactions: a cached row if
     there is one, else the database, whose answer is then cached. A missing row
     is cached too but never answered from the cache. A database that cannot be
     read is an error and leaves the cache alone.
     */
    method GetThrough(slot: Slot, db: map<Slot, Row>, readable: bool, now: nat)
      returns (r: Result<Option<Row>, DatabaseError>)
      requires WellTagged(entries)
      modifies this
      ensures WellTagged(entries)
      ensures var cached := Visible(old(entries), KeyOf(slot), now);
        if cached.Some? && Untag(slot, cached.value).Some?
        then r == Ok(Untag(slot, cached.value)) && entries == old(entries)
        else if !readable then r == Err(Unreadable) && entries == old(entries)
        else
          && r == Ok(Lookup(db, slot))
          && entries == old(entries)[KeyOf(slot) := CacheEntry(Tag(slot, Lookup(db, slot)), now + 600)]
      ensures r == Ok(None) ==> readable && slot !in db
    {
      var cached := Get(KeyOf(slot), now);
      if cached.Some? && Untag(slot, cached.value).Some? {
        return Ok(Untag(slot, cached.value));
      }
      if !readable {
        return Err(Unreadable);
      }
      var row := Lookup(db, slot);
      InsertKeepsTags(entries, slot, row, now + TIME_TO_LIVE);
      Insert(KeyOf(slot), Tag(slot, row), now);
      return Ok(row);
    }

    method Invalidate(slot: Slot)
      requires WellTagged(entries)
      modifies this
      ensures WellTagged(entries) && entries == old(entries) - {KeyOf(slot)}
    {
      var _ := Delete(KeyOf(slot));
    }
  }

  // ---- The sweeper is invisible ---------------------------------------------

  datatype Op =
    | PutOp(key: string, value: CacheValue, ttl: nat)
    | GetOp(key: string)
    | DeleteOp(key: string)
    | SweepOp

  /** An operation and when it happens. */
  datatype Timed = Timed(op: Op, at: nat)

  predicate InOrder(ops: seq<Timed>, from: nat)
    decreases |ops|
  {
    ops == [] || (from <= ops[0].at && InOrder(ops[1..], ops[0].at))
  }

  function Apply(entries: Entries, t: Timed): Entries {
    match t.op
    case PutOp(key, value, ttl) => entries[key := CacheEntry(value, t.at + ttl)]
    case GetOp(_) => entries
    case DeleteOp(key) => entries - {key}
    case SweepOp => Swept(entries, t.at)
  }

  /** What the gets answer, in order. */
  function Answers(entries: Entries, ops: seq<Timed>): seq<Option<CacheValue>>
    decreases |ops|
  {
    if ops == [] then []
    else
      var rest := Answers(Apply(entries, ops[0]), ops[1..]);
      if ops[0].op.GetOp? then [Visible(entries, ops[0].op.key, ops[0].at)] + rest else rest
  }

  function WithoutSweeps(ops: seq<Timed>): seq<Timed>
    decreases |ops|
  {
    if ops == [] then []
    else if ops[0].op.SweepOp? then WithoutSweeps(ops[1..])
    else [ops[0]] + WithoutSweeps(ops[1..])
  }

  ghost predicate Agree(a: Entries, b: Entries, now: nat) {
    forall key: string, later: nat :: later >= now ==> Visible(a, key, later) == Visible(b, key, later)
  }

  lemma ApplyKeepsAgreement(a: Entries, b: Entries, t: Timed, now: nat)
    requires Agree(a, b, now) && now <= t.at
    ensures Agree(Apply(a, t), Apply(b, t), t.at)
    ensures t.op.SweepOp? ==> Agree(Apply(a, t), b, t.at)
  {
    forall key: string, later: nat | later >= t.at
      ensures Visible(Apply(a, t), key, later) == Visible(Apply(b, t), key, later)
      ensures t.op.SweepOp? ==> Visible(Apply(a, t), key, later) == Visible(b, key, later)
    {
      assert Visible(a, key, later) == Visible(b, key, later);
    }
  }

  lemma {:induction false} SweepsDoNotMatter(a: Entries, b: Entries, ops: seq<Timed>, now: nat)
    requires Agree(a, b, now) && InOrder(ops, now)
    ensures Answers(a, ops) == Answers(b, WithoutSweeps(ops))
    decreases |ops|
  {
    if ops != [] {
      var t := ops[0];
      ApplyKeepsAgreement(a, b, t, now);
      if t.op.SweepOp? {
        SweepsDoNotMatter(Apply(a, t), b, ops[1..], t.at);
      } else {
        SweepsDoNotMatter(Apply(a, t), Apply(b, t), ops[1..], t.at);
        var without := WithoutSweeps(ops);
        assert without[0] == t && without[1..] == WithoutSweeps(ops[1..]);
        if t.op.GetOp? {
          assert Visible(a, t.op.key, t.at) == Visible(b, t.op.key, t.at);
        }
      }
    }
  }

  /** Whatever is done to the cache and whenever it is swept, every get answers as if it never were. */
  lemma SweepIsInvisible(entries: Entries, ops: seq<Timed>, now: nat)
    requires InOrder(ops, now)
    ensures Answers(entries, ops) == Answers(entries, WithoutSweeps(ops))
  {
    SweepsDoNotMatter(entries, entries, ops, now);
  }
}
