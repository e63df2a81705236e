/**
 Who is topped up, said without the functions that decide it: by the balances that
 were read, the amounts, the gas and the answers to each send.
 */
module TopUpDelivery {
  import opened Prelude
  import opened TopUp

  // ---- Selections ------------------------------------------------------------------------------

  /** The positions below n that pass a test, in increasing order. */
  function Positions(n: nat, keep: nat -> bool): (list: seq<nat>)
    ensures forall i :: 0 <= i < |list| ==> list[i] < n
  {
    if n == 0 then [] else Positions(n - 1, keep) + (if keep(n - 1) then [n - 1] else [])
  }

  /** They are all such positions, each once and in order. */
  lemma {:induction false} PositionsAreThose(n: nat, keep: nat -> bool)
    ensures var list := Positions(n, keep);
      && (forall k: nat :: k in list <==> k < n && keep(k))
      && (forall i, j :: 0 <= i < j < |list| ==> list[i] < list[j])
    decreases n
  {
    if n > 0 {
      PositionsAreThose(n - 1, keep);
    }
  }

  lemma {:induction false} AllPositions(n: nat, keep: nat -> bool)
    requires forall k: nat :: k < n ==> keep(k)
    ensures Positions(n, keep) == seq(n, i => i)
    decreases n
  {
    if n > 0 {
      AllPositions(n - 1, keep);
    }
  }

  /** These addresses, by position. */
  function At(targets: seq<EvmAddress>, positions: seq<nat>): seq<EvmAddress>
    requires forall i :: 0 <= i < |positions| ==> positions[i] < |targets|
  {
    seq(|positions|, i requires 0 <= i < |positions| => targets[positions[i]])
  }

  lemma SelectedGrow(targets: seq<EvmAddress>, n: nat, keep: nat -> bool)
    requires n < |targets|
    ensures At(targets, Positions(n + 1, keep)) ==
            At(targets, Positions(n, keep)) + (if keep(n) then [targets[n]] else [])
  {
  }

  // ---- The two tests ---------------------------------------------------------------------------

  /** A target is in need when its balance was read and is below the minimum. */
  function InNeed(a: AssetConfig, w: PassAnswers): nat -> bool {
    (i: nat) => w.balances(i).Some? && w.balances(i).value < a.minBalance
  }

  predicate FunderIsCached(cache: RelayerCache, order: seq<ChainId>, funder: EvmAddress) {
    exists k, i ::
      0 <= k < |order| && order[k] in cache && 0 <= i < |cache[order[k]]| && cache[order[k]][i].address == funder
  }

  /**
   A send goes through when there is no Safe, the recipient is a registered relayer
   other than the funder, the funder is one, cached or stored, and the queue accepts.
   */
  predicate GoesThrough(
    cache: RelayerCache, order: seq<ChainId>, config: Config, recipient: EvmAddress, s: SendAnswers)
  {
    && config.safe.None? && recipient != config.funder && s.recipient.Row?
    && (FunderIsCached(cache, order, config.funder) || s.funder.Row?)
    && s.queueAccepts
  }

  function SendGoesThrough(
    cache: RelayerCache, order: seq<ChainId>, config: Config, recipients: seq<EvmAddress>, w: PassAnswers)
    : nat -> bool
  {
    (j: nat) => j < |recipients| && GoesThrough(cache, order, config, recipients[j], w.sends(j))
  }

  /** The entry is the funder's own transaction that hands the top-up amount to the recipient. */
  predicate IsTopUpOf(q: Queued, config: Config, a: AssetConfig, recipient: EvmAddress) {
    && q.sender.address == config.funder
    && q.call ==
       (match a.asset
        case Native => Call(recipient, a.topUpAmount, Empty)
        case Token(token) => Call(token, 0, Transfer(recipient, a.topUpAmount)))
    && Moves(q) == Movement(config.funder, recipient, a.asset, a.topUpAmount)
  }

  /** Exactly these recipients are topped up, in this order. */
  predicate TopsUpThese(queued: seq<Queued>, config: Config, a: AssetConfig, recipients: seq<EvmAddress>) {
    && |queued| == |recipients|
    && forall i :: 0 <= i < |recipients| ==> IsTopUpOf(queued[i], config, a, recipients[i])
  }

  // ---- One send --------------------------------------------------------------------------------

  lemma {:induction false} FirstExistsIff(relayers: seq<Relayer>, address: EvmAddress)
    ensures FirstWithAddress(relayers, address).Some? <==>
            exists i :: 0 <= i < |relayers| && relayers[i].address == address
    decreases |relayers|
  {
    if relayers != [] {
      var rest := relayers[1..];
      FirstExistsIff(rest, address);
      if i :| 0 <= i < |relayers| && relayers[i].address == address && i > 0 {
        assert rest[i - 1].address == address;
      }
      if i :| 0 <= i < |rest| && rest[i].address == address {
        assert relayers[i + 1].address == address;
      }
    }
  }

  lemma {:induction false} FunderIsFoundIff(cache: RelayerCache, order: seq<ChainId>, funder: EvmAddress)
    ensures FindFunder(cache, order, funder).Some? <==> FunderIsCached(cache, order, funder)
    decreases |order|
  {
    if order != [] {
      var rest := order[1..];
      FunderIsFoundIff(cache, rest, funder);
      if order[0] in cache {
        FirstExistsIff(cache[order[0]], funder);
      }
      if FunderIsCached(cache, rest, funder) {
        var k, i :| 0 <= k < |rest| && rest[k] in cache && 0 <= i < |cache[rest[k]]|
                    && cache[rest[k]][i].address == funder;
        assert order[k + 1] == rest[k];
      }
      if FunderIsCached(cache, order, funder) {
        var k, i :| 0 <= k < |order| && order[k] in cache && 0 <= i < |cache[order[k]]|
                    && cache[order[k]][i].address == funder;
        if k > 0 {
          assert rest[k - 1] == order[k];
        }
      }
    }
  }

  /** A send queues one top-up exactly when it goes through, and nothing otherwise. */
  lemma SendQueuesIff(
    cache: RelayerCache, order: seq<ChainId>, chainId: ChainId, config: Config, a: AssetConfig,
    recipient: EvmAddress, s: SendAnswers)
    ensures var queued := Attempt(cache, order, chainId, config, a, recipient, s);
      if GoesThrough(cache, order, config, recipient, s)
      then |queued| == 1 && IsTopUpOf(queued[0], config, a, recipient)
      else queued == []
  {
    FunderIsFoundIff(cache, order, config.funder);
    SenderIsTheFunder(cache, order, chainId, config.funder, s.funder);
    CallMovesTheTopUp(a, recipient, config.funder, 0);
  }

  lemma {:induction false} FirstIs(relayers: seq<Relayer>, address: EvmAddress, i: nat)
    requires i < |relayers| && relayers[i].address == address
    requires forall j :: 0 <= j < i ==> relayers[j].address != address
    ensures FirstWithAddress(relayers, address) == Some(relayers[i])
    decreases i
  {
    if i > 0 {
      FirstIs(relayers[1..], address, i - 1);
    }
  }

  /**
   The sender is the first relayer with the funder's address on the first cached chain
   that has one; the row read for this chain counts only when no chain has one.
   */
  lemma {:induction false} SenderIsTheFirstCached(
    cache: RelayerCache, order: seq<ChainId>, chainId: ChainId, funder: EvmAddress, row: RowAnswer, k: nat, i: nat)
    requires k < |order| && order[k] in cache && i < |cache[order[k]]| && cache[order[k]][i].address == funder
    requires forall j :: 0 <= j < i ==> cache[order[k]][j].address != funder
    requires !FunderIsCached(cache, order[..k], funder)
    ensures Sender(cache, order, chainId, funder, row) == Some(cache[order[k]][i])
    decreases k
  {
    if k == 0 {
      FirstIs(cache[order[0]], funder, i);
    } else {
      var rest := order[1..];
      assert rest[..k - 1] == order[..k][1..];
      SenderIsTheFirstCached(cache, rest, chainId, funder, row, k - 1, i);
      if order[0] in cache {
        FirstExistsIff(cache[order[0]], funder);
        assert order[..k][0] == order[0];
      }
    }
  }

  lemma SenderIsTheStoredRow(
    cache: RelayerCache, order: seq<ChainId>, chainId: ChainId, funder: EvmAddress, row: RowAnswer)
    requires !FunderIsCached(cache, order, funder)
    ensures Sender(cache, order, chainId, funder, row) ==
            if row.Row? then Some(Relayer(row.id, funder, chainId)) else None
  {
    FunderIsFoundIff(cache, order, funder);
  }

  // ---- One pass --------------------------------------------------------------------------------

  lemma {:induction false} NeedingAreThoseInNeed(a: AssetConfig, targets: seq<EvmAddress>, w: PassAnswers, k: nat)
    requires k <= |targets|
    ensures Needing(a, targets, w, k) == At(targets, Positions(k, InNeed(a, w)))
    decreases k
  {
    if k > 0 {
      NeedingAreThoseInNeed(a, targets, w, k - 1);
      SelectedGrow(targets, k - 1, InNeed(a, w));
    }
  }

  lemma OneMoreSend(
    cache: RelayerCache, order: seq<ChainId>, chainId: ChainId, config: Config, a: AssetConfig,
    recipients: seq<EvmAddress>, w: PassAnswers, k: nat, before: seq<EvmAddress>, after: seq<EvmAddress>)
    requires k < |recipients|
    requires after == before + if SendGoesThrough(cache, order, config, recipients, w)(k) then [recipients[k]] else []
    requires TopsUpThese(Attempts(cache, order, chainId, config, a, recipients, w, k), config, a, before)
    ensures TopsUpThese(Attempts(cache, order, chainId, config, a, recipients, w, k + 1), config, a, after)
  {
    SendQueuesIff(cache, order, chainId, config, a, recipients[k], w.sends(k));
  }

  /** The recipients of the first k sends that go through. */
  function Reached(
    cache: RelayerCache, order: seq<ChainId>, config: Config, recipients: seq<EvmAddress>, w: PassAnswers, k: nat)
    : seq<EvmAddress>
    requires k <= |recipients|
  {
    At(recipients, Positions(k, SendGoesThrough(cache, order, config, recipients, w)))
  }

  lemma {:induction false} AttemptsAreThoseThatGoThrough(
    cache: RelayerCache, order: seq<ChainId>, chainId: ChainId, config: Config, a: AssetConfig,
    recipients: seq<EvmAddress>, w: PassAnswers, k: nat)
    requires k <= |recipients|
    ensures TopsUpThese(
              Attempts(cache, order, chainId, config, a, recipients, w, k), config, a,
              Reached(cache, order, config, recipients, w, k))
    decreases k
  {
    if k > 0 {
      AttemptsAreThoseThatGoThrough(cache, order, chainId, config, a, recipients, w, k - 1);
      SelectedGrow(recipients, k - 1, SendGoesThrough(cache, order, config, recipients, w));
      OneMoreSend(cache, order, chainId, config, a, recipients, w, k - 1,
                  Reached(cache, order, config, recipients, w, k - 1), Reached(cache, order, config, recipients, w, k));
    }
  }

  /** The balances the funding check of this asset looks at could be read. */
  predicate BalancesAreRead(a: AssetConfig, w: PassAnswers) {
    w.funderNative.Some? && (a.asset.Token? ==> w.funderTokens.Some?)
  }

  /** Without wrapping, the check answers no exactly for balances that are read and fall short. */
  lemma CheckFailsIff(a: AssetConfig, n: nat, w: PassAnswers)
    requires n > 0 && Words(a, w) && TotalsFit(a, n, w)
    ensures Sufficient(a, n, w) == Some(false) <==> BalancesAreRead(a, w) && !Covers(a, n, w)
  {
    var gas := EstimatedGas(a.asset, w.gasPrice);
    match a.asset {
      case Native =>
        MoreTimesIsMore(a.topUpAmount + gas, 1, n);
        WrapOfSmall(a.topUpAmount + gas);
        WrapOfSmall(Times(a.topUpAmount + gas, n));
      case Token(_) =>
        WrapOfSmall(Times(gas, n));
        WrapOfSmall(Times(a.topUpAmount, n));
    }
  }

  /**
   Whatever is answered, a pass queues nothing or exactly one top-up for every target in
   need whose send goes through, so nobody is funded who is not in need, and nobody more
   often than listed.
   */
  lemma PassIsAllOrNothing(
    cache: RelayerCache, order: seq<ChainId>, chainId: ChainId, config: Config, a: AssetConfig,
    targets: seq<EvmAddress>, w: PassAnswers)
    ensures var queued := Pass(cache, order, chainId, config, a, targets, w);
      var needy := At(targets, Positions(|targets|, InNeed(a, w)));
      queued == [] || TopsUpThese(queued, config, a, Reached(cache, order, config, needy, w, |needy|))
  {
    var needy := At(targets, Positions(|targets|, InNeed(a, w)));
    NeedingAreThoseInNeed(a, targets, w, |targets|);
    AttemptsAreThoseThatGoThrough(cache, order, chainId, config, a, needy, w, |needy|);
  }

  /**
   What a pass queues, exactly. Nothing, when the balances were read and do not cover
   the amounts and the gas of all the targets in need; otherwise one top-up for every
   target in need whose send goes through, in the order of the targets and as often as
   each is listed.
   */
  lemma PassTopsUpExactly(
    cache: RelayerCache, order: seq<ChainId>, chainId: ChainId, config: Config, a: AssetConfig,
    targets: seq<EvmAddress>, w: PassAnswers)
    requires Words(a, w) && TotalsFit(a, |Positions(|targets|, InNeed(a, w))|, w)
    ensures var queued := Pass(cache, order, chainId, config, a, targets, w);
      var needy := At(targets, Positions(|targets|, InNeed(a, w)));
      if needy != [] && BalancesAreRead(a, w) && !Covers(a, |needy|, w) then queued == []
      else
        TopsUpThese(queued, config, a, Reached(cache, order, config, needy, w, |needy|))
  {
    var needy := At(targets, Positions(|targets|, InNeed(a, w)));
    NeedingAreThoseInNeed(a, targets, w, |targets|);
    AttemptsAreThoseThatGoThrough(cache, order, chainId, config, a, needy, w, |needy|);
    if needy != [] {
      CheckFailsIff(a, |needy|, w);
    } else {
      assert Positions(0, SendGoesThrough(cache, order, config, needy, w)) == [];
    }
  }

  /** When the balances cover the totals and no send fails, everyone in need is topped up. */
  lemma EveryoneInNeedIsToppedUp(
    cache: RelayerCache, order: seq<ChainId>, chainId: ChainId, config: Config, a: AssetConfig,
    targets: seq<EvmAddress>, w: PassAnswers)
    requires var n := |Positions(|targets|, InNeed(a, w))|; Words(a, w) && TotalsFit(a, n, w) && Covers(a, n, w)
    requires var needy := At(targets, Positions(|targets|, InNeed(a, w)));
      forall j: nat :: j < |needy| ==> GoesThrough(cache, order, config, needy[j], w.sends(j))
    ensures TopsUpThese(Pass(cache, order, chainId, config, a, targets, w), config, a,
                        At(targets, Positions(|targets|, InNeed(a, w))))
  {
    var needy := At(targets, Positions(|targets|, InNeed(a, w)));
    PassTopsUpExactly(cache, order, chainId, config, a, targets, w);
    AllPositions(|needy|, SendGoesThrough(cache, order, config, needy, w));
    assert At(needy, seq(|needy|, i => i)) == needy;
  }

  // ---- The targets -----------------------------------------------------------------------------

  /** The addresses a configuration asks for, when these relayers are registered. */
  function Asked(relayers: Targets, rows: seq<Relayer>): seq<EvmAddress> {
    match relayers
    case All => Addresses(rows)
    case List(addresses) => addresses
  }

  function IsTarget(asked: seq<EvmAddress>, rows: seq<Relayer>, funder: EvmAddress): nat -> bool {
    (i: nat) => i < |asked| && asked[i] != funder && exists k :: 0 <= k < |rows| && rows[k].address == asked[i]
  }

  lemma {:induction false} WithoutConcat(a: seq<EvmAddress>, b: seq<EvmAddress>, x: EvmAddress)
    ensures Without(a + b, x) == Without(a, x) + Without(b, x)
    decreases |a|
  {
    if a == [] {
      assert a + b == b;
    } else {
      assert (a + b)[1..] == a[1..] + b;
      WithoutConcat(a[1..], b, x);
    }
  }

  lemma KnownIff(rows: seq<Relayer>, x: EvmAddress)
    ensures x in Addresses(rows) <==> exists k :: 0 <= k < |rows| && rows[k].address == x
  {
    if k :| 0 <= k < |rows| && rows[k].address == x {
      assert Addresses(rows)[k] == x;
    }
  }

  lemma {:induction false} FilteredPrefix(
    asked: seq<EvmAddress>, rows: seq<Relayer>, funder: EvmAddress, k: nat)
    requires k <= |asked|
    ensures Without(Registered(asked[..k], Addresses(rows)), funder)
            == At(asked, Positions(k, IsTarget(asked, rows, funder)))
    decreases k
  {
    if k > 0 {
      var known := Addresses(rows);
      var last := if asked[k - 1] in known then [asked[k - 1]] else [];
      FilteredPrefix(asked, rows, funder, k - 1);
      assert asked[..k][..k - 1] == asked[..k - 1];
      WithoutConcat(Registered(asked[..k - 1], known), last, funder);
      KnownIff(rows, asked[k - 1]);
      SelectedGrow(asked, k - 1, IsTarget(asked, rows, funder));
    }
  }

  lemma {:induction false} AllAreKnown(asked: seq<EvmAddress>, known: seq<EvmAddress>)
    requires forall x :: x in asked ==> x in known
    ensures Registered(asked, known) == asked
    decreases |asked|
  {
    if asked != [] {
      AllAreKnown(asked[..|asked| - 1], known);
    }
  }

  /** The targets are the addresses asked for, without the funder and the unregistered, in their order. */
  lemma TargetsAreThoseAskedFor(relayers: Targets, funder: EvmAddress, rows: seq<Relayer>)
    ensures var asked := Asked(relayers, rows);
      Resolved(relayers, funder, Some(rows)) == Some(At(asked, Positions(|asked|, IsTarget(asked, rows, funder))))
  {
    var asked := Asked(relayers, rows);
    FilteredPrefix(asked, rows, funder, |asked|);
    assert asked[..|asked|] == asked;
    if relayers.All? {
      AllAreKnown(asked, asked);
    }
  }

  // ---- A whole configuration -------------------------------------------------------------------

  /** The answers to the pass over an asset: the native one, or the token at a position. */
  ghost predicate IsPassOf(config: Config, w: ConfigAnswers, a: AssetConfig, v: PassAnswers) {
    || (config.native == Some(a) && v == w.native)
    || (config.tokens.Some? && exists t: nat ::
          t < |config.tokens.value| && config.tokens.value[t] == a && v == w.tokens(t))
  }

  lemma {:induction false} PartIsJoined(parts: nat -> seq<Queued>, i: nat, k: nat, q: Queued)
    requires i < k && q in parts(i)
    ensures q in Joined(parts, k)
    decreases k
  {
    if i < k - 1 {
      PartIsJoined(parts, i, k - 1, q);
    }
  }

  lemma PassIsPartOfTheConfigPass(
    cache: RelayerCache, order: seq<ChainId>, chainId: ChainId, config: Config, w: ConfigAnswers,
    a: AssetConfig, v: PassAnswers, q: Queued)
    requires w.rows.Some? && IsPassOf(config, w, a, v)
    requires q in Pass(cache, order, chainId, config, a, Resolved(config.relayers, config.funder, w.rows).value, v)
    ensures q in ConfigPass(cache, order, chainId, config, w)
  {
    var targets := Resolved(config.relayers, config.funder, w.rows).value;
    assert targets != [];
    if !(config.native == Some(a) && v == w.native) {
      var tokens := config.tokens.value;
      var t: nat :| t < |tokens| && tokens[t] == a && v == w.tokens(t);
      PartIsJoined(TokenParts(cache, order, chainId, config, tokens, targets, w), t, |tokens|, q);
    }
  }

  /** No send of the pass fails: the recipient and the funder are stored, and the queue accepts. */
  ghost predicate SendsWork(v: PassAnswers) {
    forall j: nat :: v.sends(j).recipient.Row? && v.sends(j).funder.Row? && v.sends(j).queueAccepts
  }

  /**
   Nobody in need is forgotten: without a Safe, when the balances cover the top-ups of all
   in need and the sends work, every registered relayer that is asked for, is not the
   funder and is below the minimum of a configured asset is topped up in that asset.
   */
  lemma NobodyInNeedIsForgotten(
    cache: RelayerCache, order: seq<ChainId>, chainId: ChainId, config: Config, w: ConfigAnswers,
    a: AssetConfig, v: PassAnswers, targets: seq<EvmAddress>, i: nat)
    requires w.rows.Some? && config.safe.None? && IsPassOf(config, w, a, v) && SendsWork(v)
    requires var asked := Asked(config.relayers, w.rows.value);
      targets == At(asked, Positions(|asked|, IsTarget(asked, w.rows.value, config.funder)))
    requires var n := |Positions(|targets|, InNeed(a, v))|; Words(a, v) && TotalsFit(a, n, v) && Covers(a, n, v)
    requires i < |targets| && InNeed(a, v)(i)
    ensures exists q :: q in ConfigPass(cache, order, chainId, config, w) && IsTopUpOf(q, config, a, targets[i])
  {
    var needy := Positions(|targets|, InNeed(a, v));
    TargetsAreThoseAskedFor(config.relayers, config.funder, w.rows.value);
    TargetsAreNotTheFunder(config, w.rows.value, targets);
    EveryoneInNeedIsToppedUp(cache, order, chainId, config, a, targets, v);
    PositionsAreThose(|targets|, InNeed(a, v));
    assert i in needy;
    var j :| 0 <= j < |needy| && needy[j] == i;
    var queued := Pass(cache, order, chainId, config, a, targets, v);
    assert IsTopUpOf(queued[j], config, a, At(targets, needy)[j]);
    PassIsPartOfTheConfigPass(cache, order, chainId, config, w, a, v, queued[j]);
  }

  lemma TargetsAreNotTheFunder(config: Config, rows: seq<Relayer>, targets: seq<EvmAddress>)
    requires Resolved(config.relayers, config.funder, Some(rows)) == Some(targets)
    ensures config.funder !in targets
  {
    ResolvedCounts(config.relayers, config.funder, rows, config.funder);
    assert config.funder in targets ==> multiset(targets)[config.funder] > 0;
  }
}
