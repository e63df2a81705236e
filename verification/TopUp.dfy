/**
 Automatic top-ups: who is resolved as a target, which targets are below their
 minimum, whether the funder can pay, and what is queued for them.
 */
module TopUp {
  import opened Prelude

  datatype Relayer = Relayer(id: nat, address: EvmAddress, chainId: ChainId)

  datatype Asset = Native | Token(address: EvmAddress)

  datatype AssetConfig = AssetConfig(asset: Asset, minBalance: nat, topUpAmount: nat)

  datatype Targets = All | List(addresses: seq<EvmAddress>)

  datatype Config = Config(
    funder: EvmAddress, safe: Option<EvmAddress>, relayers: Targets,
    native: Option<AssetConfig>, tokens: Option<seq<AssetConfig>>)

  // ---- Transactions and what they do -------------------------------------------

  datatype Call = Call(to: EvmAddress, value: nat, data: CallData)

  datatype CallData = Empty | Transfer(recipient: EvmAddress, amount: nat) | SafeExecution(inner: Call)

  datatype Queued = Queued(sender: Relayer, call: Call)

  datatype Movement = Movement(payer: EvmAddress, recipient: EvmAddress, asset: Asset, amount: nat)

  /** What a call moves when it succeeds. */
  function Effect(sender: EvmAddress, call: Call): Movement
    decreases call
  {
    match call.data
    case Empty => Movement(sender, call.to, Native, call.value)
    case Transfer(recipient, amount) => Movement(sender, recipient, Token(call.to), amount)
    case SafeExecution(inner) => Effect(call.to, inner)
  }

  function Moves(q: Queued): Movement {
    Effect(q.sender.address, q.call)
  }

  function DirectCall(a: AssetConfig, recipient: EvmAddress): Call {
    match a.asset
    case Native => Call(recipient, a.topUpAmount, Empty)
    case Token(token) => Call(token, 0, Transfer(recipient, a.topUpAmount))
  }

  /** The call a Safe is given to carry out another call. */
  function SafeCall(safe: EvmAddress, inner: Call): Call {
    Call(safe, 0, SafeExecution(inner))
  }

  /**
   A direct call moves the top-up amount from the sender to the recipient; the
   same call through a Safe would move it from the Safe.
   */
  lemma CallMovesTheTopUp(a: AssetConfig, recipient: EvmAddress, sender: EvmAddress, safe: EvmAddress)
    ensures Effect(sender, DirectCall(a, recipient)) == Movement(sender, recipient, a.asset, a.topUpAmount)
    ensures Effect(sender, SafeCall(safe, DirectCall(a, recipient)))
            == Movement(safe, recipient, a.asset, a.topUpAmount)
  {
    assert Effect(safe, DirectCall(a, recipient)) == Movement(safe, recipient, a.asset, a.topUpAmount);
  }

  datatype SafeError = ContractError | SignatureError

  /** Signing for a Safe is not supported, so there never is a signature. */
  function CreateSafeSignature(): Result<nat, SafeError> {
    Err(SignatureError)
  }

  /** The Safe's nonce is read first; without a signature no Safe transaction is ever created. */
  function CreateSafeTransaction(nonceRead: bool, safe: EvmAddress, inner: Call): (r: Result<Call, SafeError>)
    ensures r.Err?
  {
    if !nonceRead then Err(ContractError)
    else match CreateSafeSignature()
      case Err(error) => Err(error)
      case Ok(_) => Ok(SafeCall(safe, inner))
  }

  // ---- What the outside answers --------------------------------------------------

  datatype RowAnswer = Row(id: nat) | NoRow | DbError

  /** The answers to one send: the recipient's row, the Safe's wallet and nonce, the funder's row, the queue. */
  datatype SendAnswers = SendAnswers(
    recipient: RowAnswer, funderWallet: RowAnswer, safeNonceRead: bool, funder: RowAnswer, queueAccepts: bool)

  /** The answers to one pass over one asset; balances and sends by position. */
  datatype PassAnswers = PassAnswers(
    balances: nat -> Option<nat>, funderTokens: Option<nat>, funderNative: Option<nat>, gasPrice: Option<nat>,
    sends: nat -> SendAnswers)

  datatype ConfigAnswers = ConfigAnswers(
    rows: Option<seq<Relayer>>, native: PassAnswers, tokens: nat -> PassAnswers)

  // ---- Finding the funder ----------------------------------------------------------

  type RelayerCache = map<ChainId, seq<Relayer>>

  function FirstWithAddress(relayers: seq<Relayer>, address: EvmAddress): Option<Relayer> {
    if relayers == [] then None
    else if relayers[0].address == address then Some(relayers[0])
    else FirstWithAddress(relayers[1..], address)
  }

  /** The funder in the whole cache, chains visited in the given order. */
  function FindFunder(cache: RelayerCache, order: seq<ChainId>, funder: EvmAddress): Option<Relayer> {
    if order == [] then None
    else
      var hit := if order[0] in cache then FirstWithAddress(cache[order[0]], funder) else None;
      if hit.Some? then hit else FindFunder(cache, order[1..], funder)
  }

  /** Every chain of the set once, in some order. */
  ghost predicate Enumerates(order: seq<ChainId>, chains: set<ChainId>) {
    && (forall i, j :: 0 <= i < j < |order| ==> order[i] != order[j])
    && (forall c :: c in order <==> c in chains)
  }

  /** An order in which the hash map may hand out its chains. */
  ghost predicate IsOrder(order: seq<ChainId>, cache: RelayerCache) {
    Enumerates(order, cache.Keys)
  }

  ghost predicate CacheSound(cache: RelayerCache) {
    forall c, i :: c in cache && 0 <= i < |cache[c]| ==> cache[c][i].chainId == c
  }

  lemma {:induction false} FirstIsListed(relayers: seq<Relayer>, address: EvmAddress)
    ensures FirstWithAddress(relayers, address).Some? ==>
              FirstWithAddress(relayers, address).value in relayers
              && FirstWithAddress(relayers, address).value.address == address
    decreases |relayers|
  {
    if relayers != [] {
      FirstIsListed(relayers[1..], address);
    }
  }

  lemma {:induction false} FunderComesFromACachedChain(cache: RelayerCache, order: seq<ChainId>, funder: EvmAddress)
    requires CacheSound(cache)
    ensures var f := FindFunder(cache, order, funder);
      f.Some? ==> f.value.address == funder && f.value.chainId in cache
                  && FirstWithAddress(cache[f.value.chainId], funder).Some?
    decreases |order|
  {
    if order != [] {
      FunderComesFromACachedChain(cache, order[1..], funder);
      if order[0] in cache {
        FirstIsListed(cache[order[0]], funder);
      }
    }
  }

  /** Every set of chains has an order that starts wherever one likes. */
  lemma {:induction false} EnumerateFrom(chains: set<ChainId>, first: ChainId)
    requires first in chains
    ensures exists rest: seq<ChainId> :: Enumerates([first] + rest, chains)
    decreases |chains|
  {
    var others := chains - {first};
    if others == {} {
      assert chains == {first};
      assert Enumerates([first] + [], chains);
    } else {
      var second :| second in others;
      EnumerateFrom(others, second);
      var rest: seq<ChainId> :| Enumerates([second] + rest, others);
      var tail := [second] + rest;
      assert forall i :: 0 <= i < |tail| ==> tail[i] in others;
      assert Enumerates([first] + tail, chains);
    }
  }

  // ---- The funding checks -----------------------------------------------------------

  const NATIVE_GAS: nat := 21000
  const TOKEN_GAS: nat := 65000
  const DEFAULT_GAS_PRICE: nat := 20_000_000_000

  /** x added up n times, a form of the product that proofs can follow. */
  function Times(x: nat, n: nat): nat {
    if n == 0 then 0 else Times(x, n - 1) + x
  }

  lemma {:induction false} TimesIsProduct(x: nat, n: nat)
    ensures Times(x, n) == x * n
    decreases n
  {
    if n > 0 {
      TimesIsProduct(x, n - 1);
      assert x * n == x * (n - 1) + x;
    }
  }

  /** 256-bit arithmetic wraps around. */
  function Wrap(x: nat): nat {
    Remainder(x, TWO_TO_THE_256)
  }

  function GasCost(asset: Asset, gasPrice: Option<nat>): nat {
    var price := if gasPrice.Some? then gasPrice.value else DEFAULT_GAS_PRICE;
    if asset.Native? then price * NATIVE_GAS else price * TOKEN_GAS
  }

  /** What one top-up is expected to cost in gas: 21000 units or 65000 for a token, at the price read or 20 gwei. */
  function EstimatedGas(asset: Asset, gasPrice: Option<nat>): nat {
    match gasPrice
    case Some(price) => if asset.Token? then 65000 * price else 21000 * price
    case None => if asset.Token? then 1_300_000_000_000_000 else 420_000_000_000_000
  }

  /** The funding check: None when a balance could not be read. */
  function Sufficient(a: AssetConfig, recipients: nat, w: PassAnswers): Option<bool> {
    var gas := GasCost(a.asset, w.gasPrice);
    match a.asset
    case Native =>
      if w.funderNative.None? then None
      else Some(w.funderNative.value >= Wrap(Times(Wrap(a.topUpAmount + gas), recipients)))
    case Token(_) =>
      if w.funderTokens.None? || w.funderNative.None? then None
      else Some(
        && w.funderNative.value >= Wrap(Times(gas, recipients))
        && w.funderTokens.value >= Wrap(Times(a.topUpAmount, recipients)))
  }

  /** Balances and amounts are 256-bit words. */
  predicate Words(a: AssetConfig, w: PassAnswers) {
    && a.topUpAmount < TWO_TO_THE_256
    && (w.funderNative.Some? ==> w.funderNative.value < TWO_TO_THE_256)
    && (w.funderTokens.Some? ==> w.funderTokens.value < TWO_TO_THE_256)
  }

  /** No product of the check wraps. */
  predicate TotalsFit(a: AssetConfig, recipients: nat, w: PassAnswers) {
    var gas := EstimatedGas(a.asset, w.gasPrice);
    match a.asset
    case Native => Times(a.topUpAmount + gas, recipients) < TWO_TO_THE_256
    case Token(_) => Times(gas, recipients) < TWO_TO_THE_256 && Times(a.topUpAmount, recipients) < TWO_TO_THE_256
  }

  /** The funder's balances cover this many top-ups with their gas. */
  predicate Covers(a: AssetConfig, recipients: nat, w: PassAnswers) {
    var gas := EstimatedGas(a.asset, w.gasPrice);
    match a.asset
    case Native => w.funderNative.Some? && Times(a.topUpAmount + gas, recipients) <= w.funderNative.value
    case Token(_) =>
      && w.funderNative.Some? && Times(gas, recipients) <= w.funderNative.value
      && w.funderTokens.Some? && Times(a.topUpAmount, recipients) <= w.funderTokens.value
  }

  lemma WrapOfSmall(x: nat)
    ensures Wrap(x) <= x
    ensures x < TWO_TO_THE_256 ==> Wrap(x) == x
  {
    QuotientIsUnique(x, TWO_TO_THE_256, Quotient(x, TWO_TO_THE_256));
    if x < TWO_TO_THE_256 {
      QuotientIsUnique(x, TWO_TO_THE_256, 0);
    }
  }

  lemma {:induction false} MoreTimesIsMore(x: nat, m: nat, n: nat)
    requires m <= n
    ensures Times(x, m) <= Times(x, n)
    decreases n
  {
    if m < n {
      MoreTimesIsMore(x, m, n - 1);
    }
  }

  lemma {:induction false} TimesDistributes(x: nat, y: nat, n: nat)
    ensures Times(x + y, n) == Times(x, n) + Times(y, n)
    decreases n
  {
    if n > 0 {
      TimesDistributes(x, y, n - 1);
    }
  }

  /** A check that answered "sufficient" is right if and only if its products did not wrap. */
  lemma SufficientIsRightIff(a: AssetConfig, recipients: nat, w: PassAnswers)
    requires recipients > 0 && Words(a, w) && Sufficient(a, recipients, w) == Some(true)
    ensures Covers(a, recipients, w) <==> TotalsFit(a, recipients, w)
  {
    var gas := GasCost(a.asset, w.gasPrice);
    if TotalsFit(a, recipients, w) {
      match a.asset {
        case Native =>
          MoreTimesIsMore(a.topUpAmount + gas, 1, recipients);
          WrapOfSmall(a.topUpAmount + gas);
          WrapOfSmall(Times(a.topUpAmount + gas, recipients));
        case Token(_) =>
          WrapOfSmall(Times(gas, recipients));
          WrapOfSmall(Times(a.topUpAmount, recipients));
      }
    }
  }

  /** The check answers "sufficient" although the funder's balances do not cover the top-ups. */
  predicate Misjudges(a: AssetConfig, recipients: nat, w: PassAnswers) {
    Words(a, w) && Sufficient(a, recipients, w) == Some(true) && !Covers(a, recipients, w)
  }

  /** With some amount, two native top-ups are judged affordable by a funder that has nothing at all. */
  lemma WrappedCheckFundsNothing(minBalance: nat, w: PassAnswers)
    requires w.funderNative == Some(0) && w.funderTokens.None?
    requires 2 * EstimatedGas(Native, w.gasPrice) <= TWO_TO_THE_256
    ensures exists amount: nat :: Misjudges(AssetConfig(Native, minBalance, amount), 2, w)
  {
    var half: nat := 0x8000_0000_0000_0000_0000_0000_0000_0000_0000_0000_0000_0000_0000_0000_0000_0000;
    var a := AssetConfig(Native, minBalance, half - EstimatedGas(Native, w.gasPrice));
    WrapOfSmall(half);
    QuotientIsUnique(TWO_TO_THE_256, TWO_TO_THE_256, 1);
    assert Times(half, 2) == TWO_TO_THE_256 && Wrap(TWO_TO_THE_256) == 0;
    assert Misjudges(a, 2, w);
  }

  // ---- One pass over one asset, as a function -----------------------------------------

  /** The first k targets whose balance was read and is below the minimum. */
  function Needing(a: AssetConfig, targets: seq<EvmAddress>, w: PassAnswers, k: nat): seq<EvmAddress>
    requires k <= |targets|
  {
    if k == 0 then []
    else
      var balance := w.balances(k - 1);
      Needing(a, targets, w, k - 1)
      + (if balance.Some? && balance.value < a.minBalance then [targets[k - 1]] else [])
  }

  function Find(cache: RelayerCache, chainId: ChainId, address: EvmAddress, row: RowAnswer): bool {
    (chainId in cache && FirstWithAddress(cache[chainId], address).Some?) || row.Row?
  }

  /** The relayer that will send: any cached relayer with the address, else the chain's row. */
  function Sender(
    cache: RelayerCache, order: seq<ChainId>, chainId: ChainId, funder: EvmAddress, row: RowAnswer): Option<Relayer>
  {
    var cached := FindFunder(cache, order, funder);
    if cached.Some? then cached
    else match row
      case Row(id) => Some(Relayer(id, funder, chainId))
      case _ => None
  }

  /**
   Whatever order the hash map has and whatever the database answers, a top-up is
   queued for a relayer of the chain being topped up, if and only if no other
   cached chain has a relayer with the funder's address.
   */
  lemma SenderIsOnTheChainIff(cache: RelayerCache, funder: EvmAddress, chainId: ChainId)
    requires CacheSound(cache)
    ensures (forall order, row ::
              IsOrder(order, cache) && Sender(cache, order, chainId, funder, row).Some? ==>
                Sender(cache, order, chainId, funder, row).value.chainId == chainId)
            <==> forall c :: c in cache && c != chainId ==> FirstWithAddress(cache[c], funder).None?
  {
    if c :| c in cache && c != chainId && FirstWithAddress(cache[c], funder).Some? {
      EnumerateFrom(cache.Keys, c);
      var rest: seq<ChainId> :| Enumerates([c] + rest, cache.Keys);
      var order := [c] + rest;
      FirstIsListed(cache[c], funder);
      assert FindFunder(cache, order, funder) == FirstWithAddress(cache[c], funder);
      assert IsOrder(order, cache) && Sender(cache, order, chainId, funder, NoRow).Some?;
    } else {
      forall order, row | IsOrder(order, cache) && Sender(cache, order, chainId, funder, row).Some?
        ensures Sender(cache, order, chainId, funder, row).value.chainId == chainId
      {
        FunderComesFromACachedChain(cache, order, funder);
      }
    }
  }

  /** The call to queue, directly or through the Safe. */
  function CallFor(
    cache: RelayerCache, chainId: ChainId, config: Config, a: AssetConfig, recipient: EvmAddress, s: SendAnswers)
    : Option<Call>
  {
    match config.safe
    case None => Some(DirectCall(a, recipient))
    case Some(safe) =>
      if !Find(cache, chainId, config.funder, s.funderWallet) then None
      else match CreateSafeTransaction(s.safeNonceRead, safe, DirectCall(a, recipient))
        case Err(_) => None
        case Ok(call) => Some(call)
  }

  /** What one send queues, if anything. */
  function Attempt(
    cache: RelayerCache, order: seq<ChainId>, chainId: ChainId, config: Config, a: AssetConfig,
    recipient: EvmAddress, s: SendAnswers): seq<Queued>
  {
    var call := CallFor(cache, chainId, config, a, recipient, s);
    var sender := Sender(cache, order, chainId, config.funder, s.funder);
    if config.funder != recipient && s.recipient.Row? && call.Some? && sender.Some? && s.queueAccepts
    then [Queued(sender.value, call.value)]
    else []
  }

  function Attempts(
    cache: RelayerCache, order: seq<ChainId>, chainId: ChainId, config: Config, a: AssetConfig,
    recipients: seq<EvmAddress>, w: PassAnswers, k: nat): seq<Queued>
    requires k <= |recipients|
  {
    if k == 0 then []
    else
      Attempts(cache, order, chainId, config, a, recipients, w, k - 1)
      + Attempt(cache, order, chainId, config, a, recipients[k - 1], w.sends(k - 1))
  }

  /** What a pass adds to the queue. */
  function Pass(
    cache: RelayerCache, order: seq<ChainId>, chainId: ChainId, config: Config, a: AssetConfig,
    targets: seq<EvmAddress>, w: PassAnswers): seq<Queued>
  {
    var needing := Needing(a, targets, w, |targets|);
    if needing == [] || Sufficient(a, |needing|, w) == Some(false) then []
    else Attempts(cache, order, chainId, config, a, needing, w, |needing|)
  }

  // ---- Targets ---------------------------------------------------------------------------

  function Addresses(rows: seq<Relayer>): seq<EvmAddress> {
    seq(|rows|, i requires 0 <= i < |rows| => rows[i].address)
  }

  function Registered(addresses: seq<EvmAddress>, known: seq<EvmAddress>): seq<EvmAddress> {
    if addresses == [] then []
    else
      var last := addresses[|addresses| - 1];
      Registered(addresses[..|addresses| - 1], known) + (if last in known then [last] else [])
  }

  function Without(addresses: seq<EvmAddress>, address: EvmAddress): seq<EvmAddress> {
    if addresses == [] then []
    else (if addresses[0] == address then [] else [addresses[0]]) + Without(addresses[1..], address)
  }

  /** The list filtered to registered relayers without the funder; an error is kept only for a list. */
  function Resolved(relayers: Targets, funder: EvmAddress, rows: Option<seq<Relayer>>): Option<seq<EvmAddress>> {
    match relayers
    case All => Some(if rows.None? then [] else Without(Addresses(rows.value), funder))
    case List(addresses) =>
      if rows.None? then None else Some(Without(Registered(addresses, Addresses(rows.value)), funder))
  }

  function Count(addresses: seq<EvmAddress>, address: EvmAddress): nat {
    multiset(addresses)[address]
  }

  lemma {:induction false} RegisteredCounts(addresses: seq<EvmAddress>, known: seq<EvmAddress>, x: EvmAddress)
    ensures Count(Registered(addresses, known), x) == if x in known then Count(addresses, x) else 0
    decreases |addresses|
  {
    if addresses != [] {
      var n := |addresses| - 1;
      RegisteredCounts(addresses[..n], known, x);
      assert addresses == addresses[..n] + [addresses[n]];
    }
  }

  lemma {:induction false} WithoutCounts(addresses: seq<EvmAddress>, funder: EvmAddress, x: EvmAddress)
    ensures Count(Without(addresses, funder), x) == if x == funder then 0 else Count(addresses, x)
    decreases |addresses|
  {
    if addresses != [] {
      WithoutCounts(addresses[1..], funder, x);
      assert addresses == [addresses[0]] + addresses[1..];
    }
  }

  /** Each address is a target exactly as often as it is asked for, except the funder and the unregistered. */
  lemma ResolvedCounts(relayers: Targets, funder: EvmAddress, rows: seq<Relayer>, x: EvmAddress)
    ensures var targets := Resolved(relayers, funder, Some(rows));
      && targets.Some?
      && Count(targets.value, x) ==
         (if x == funder || x !in Addresses(rows) then 0
          else if relayers.All? then Count(Addresses(rows), x)
          else Count(relayers.addresses, x))
  {
    var known := Addresses(rows);
    match relayers {
      case All =>
        WithoutCounts(known, funder, x);
      case List(addresses) =>
        WithoutCounts(Registered(addresses, known), funder, x);
        RegisteredCounts(addresses, known, x);
    }
  }

  // ---- The background job ---------------------------------------------------------------------

  lemma AppendIsAssociative(a: seq<Queued>, b: seq<Queued>, c: seq<Queued>)
    ensures (a + b) + c == a + (b + c)
  {
  }

  /** The last of the first k answers that brought rows for the chain. */
  function LastRead(chains: seq<ChainId>, answers: nat -> Option<seq<Relayer>>, k: nat, c: ChainId)
    : Option<seq<Relayer>>
    requires k <= |chains|
  {
    if k == 0 then None
    else if chains[k - 1] == c && answers(k - 1).Some? then answers(k - 1)
    else LastRead(chains, answers, k - 1, c)
  }

  /** It is the answer of the last position with that chain that brought any rows. */
  lemma {:induction false} LastReadIs(
    chains: seq<ChainId>, answers: nat -> Option<seq<Relayer>>, k: nat, c: ChainId)
    requires k <= |chains|
    ensures var read := LastRead(chains, answers, k, c);
      if read.None? then forall i: nat :: i < k && chains[i] == c ==> answers(i).None?
      else exists i: nat ::
        && i < k && chains[i] == c && answers(i) == read
        && forall j: nat :: i < j < k && chains[j] == c ==> answers(j).None?
    decreases k
  {
    if k > 0 {
      LastReadIs(chains, answers, k - 1, c);
    }
  }

  class AutomaticTopUpTask {
    var relayerCache: RelayerCache
    var queue: seq<Queued>

    constructor ()
      ensures relayerCache == map[] && queue == []
    {
      relayerCache, queue := map[], [];
    }

    /** Every chain holds the rows that were read for it last; one whose rows cannot be read keeps its old ones. */
    method RefreshRelayerCache(chains: seq<ChainId>, answers: nat -> Option<seq<Relayer>>)
      requires CacheSound(relayerCache)
      requires forall i: nat, j :: answers(i).Some? && i < |chains| && 0 <= j < |answers(i).value| ==>
                 answers(i).value[j].chainId == chains[i]
      modifies `relayerCache
      ensures CacheSound(relayerCache)
      ensures forall c: ChainId ::
                var read := LastRead(chains, answers, |chains|, c);
                Lookup(relayerCache, c) == if read.Some? then read else Lookup(old(relayerCache), c)
    {
      for k := 0 to |chains|
        invariant CacheSound(relayerCache)
        invariant forall c: ChainId ::
                    var read := LastRead(chains, answers, k, c);
                    Lookup(relayerCache, c) == if read.Some? then read else Lookup(old(relayerCache), c)
      {
        ghost var before := relayerCache;
        if answers(k).Some? {
          relayerCache := relayerCache[chains[k] := answers(k).value];
        }
        forall c: ChainId
          ensures var read := LastRead(chains, answers, k + 1, c);
            Lookup(relayerCache, c) == if read.Some? then read else Lookup(old(relayerCache), c)
        {
          assert c != chains[k] || answers(k).None? ==> Lookup(relayerCache, c) == Lookup(before, c);
        }
      }
    }

    method ResolveRelayerAddresses(relayers: Targets, funder: EvmAddress, rows: Option<seq<Relayer>>)
      returns (r: Option<seq<EvmAddress>>)
      ensures r == Resolved(relayers, funder, rows)
      ensures rows.None? ==> r == if relayers.All? then Some([]) else None
    {
      var addresses: seq<EvmAddress>;
      match relayers {
        case All =>
          addresses := if rows.Some? then Addresses(rows.value) else [];
        case List(listed) =>
          if rows.None? {
            return None;
          }
          var known := Addresses(rows.value);
          addresses := [];
          for i := 0 to |listed|
            invariant addresses == Registered(listed[..i], known)
          {
            assert listed[..i + 1][..i] == listed[..i];
            if listed[i] in known {
              addresses := addresses + [listed[i]];
            }
          }
          assert listed[..|listed|] == listed;
      }
      return Some(Without(addresses, funder));
    }

    /** The guards come in the order of the code, and the first that fails ends the send. */
    method SendTopUp(
      order: seq<ChainId>, chainId: ChainId, config: Config, a: AssetConfig, recipient: EvmAddress, s: SendAnswers)
      returns (ok: bool)
      modifies `queue
      ensures queue == old(queue) + Attempt(relayerCache, order, chainId, config, a, recipient, s)
      ensures ok <==> queue != old(queue)
    {
      if config.funder == recipient {
        return false;
      }
      if !s.recipient.Row? {
        return false;
      }
      var call: Call;
      match config.safe {
        case None =>
          call := DirectCall(a, recipient);
        case Some(safe) =>
          if !Find(relayerCache, chainId, config.funder, s.funderWallet) {
            return false;
          }
          var created := CreateSafeTransaction(s.safeNonceRead, safe, DirectCall(a, recipient));
          match created {
            case Err(_) => return false;
            case Ok(safeCall) => call := safeCall;
          }
      }
      var sender := Sender(relayerCache, order, chainId, config.funder, s.funder);
      if sender.None? || !s.queueAccepts {
        return false;
      }
      queue := queue + [Queued(sender.value, call)];
      return true;
    }

    /** Native and token passes are the same loop around different checks and calls. */
    method ProcessTopUps(
      order: seq<ChainId>, chainId: ChainId, config: Config, a: AssetConfig, targets: seq<EvmAddress>, w: PassAnswers)
      modifies `queue
      ensures queue == old(queue) + Pass(relayerCache, order, chainId, config, a, targets, w)
    {
      var needing: seq<EvmAddress> := [];
      for i := 0 to |targets|
        invariant needing == Needing(a, targets, w, i)
      {
        var balance := w.balances(i);
        if balance.Some? {
          if balance.value < a.minBalance {
            needing := needing + [targets[i]];
          }
        }
      }
      if needing == [] {
        return;
      }
      var sufficient := Sufficient(a, |needing|, w);
      if sufficient == Some(false) {
        return;
      }
      for j := 0 to |needing|
        invariant queue == old(queue) + Attempts(relayerCache, order, chainId, config, a, needing, w, j)
      {
        var _ := SendTopUp(order, chainId, config, a, needing[j], w.sends(j));
      }
    }

    method ProcessTokens(
      order: seq<ChainId>, chainId: ChainId, config: Config, tokens: seq<AssetConfig>, targets: seq<EvmAddress>,
      w: ConfigAnswers)
      modifies `queue
      ensures queue ==
              old(queue) + Joined(TokenParts(relayerCache, order, chainId, config, tokens, targets, w), |tokens|)
    {
      ghost var start := queue;
      ghost var parts := TokenParts(relayerCache, order, chainId, config, tokens, targets, w);
      for i := 0 to |tokens|
        invariant queue == start + Joined(parts, i)
      {
        ProcessTopUps(order, chainId, config, tokens[i], targets, w.tokens(i));
        AppendIsAssociative(start, Joined(parts, i), parts(i));
        assert Joined(parts, i + 1) == Joined(parts, i) + parts(i);
      }
    }

    method ProcessTopUpConfig(order: seq<ChainId>, chainId: ChainId, config: Config, w: ConfigAnswers)
      modifies `queue
      ensures queue == old(queue) + ConfigPass(relayerCache, order, chainId, config, w)
    {
      var targets := ResolveRelayerAddresses(config.relayers, config.funder, w.rows);
      if targets.None? || targets.value == [] {
        return;
      }
      ghost var cache, start := relayerCache, queue;
      ghost var byNative := NativePass(cache, order, chainId, config, targets.value, w);
      ghost var byTokens := TokensPass(cache, order, chainId, config, targets.value, w);
      if config.native.Some? {
        ProcessTopUps(order, chainId, config, config.native.value, targets.value, w.native);
      }
      assert queue == start + byNative;
      if config.tokens.Some? {
        ProcessTokens(order, chainId, config, config.tokens.value, targets.value, w);
      }
      AppendIsAssociative(start, byNative, byTokens);
    }
  }

  function NativePass(
    cache: RelayerCache, order: seq<ChainId>, chainId: ChainId, config: Config, targets: seq<EvmAddress>,
    w: ConfigAnswers): seq<Queued>
  {
    if config.native.Some? then Pass(cache, order, chainId, config, config.native.value, targets, w.native) else []
  }

  /** What the pass over each token adds. */
  function TokenParts(
    cache: RelayerCache, order: seq<ChainId>, chainId: ChainId, config: Config, tokens: seq<AssetConfig>,
    targets: seq<EvmAddress>, w: ConfigAnswers): nat -> seq<Queued>
  {
    (i: nat) => if i < |tokens| then Pass(cache, order, chainId, config, tokens[i], targets, w.tokens(i)) else []
  }

  function Joined(parts: nat -> seq<Queued>, k: nat): seq<Queued> {
    if k == 0 then [] else Joined(parts, k - 1) + parts(k - 1)
  }

  function TokensPass(
    cache: RelayerCache, order: seq<ChainId>, chainId: ChainId, config: Config, targets: seq<EvmAddress>,
    w: ConfigAnswers): seq<Queued>
  {
    if config.tokens.None? then []
    else
      var tokens := config.tokens.value;
      Joined(TokenParts(cache, order, chainId, config, tokens, targets, w), |tokens|)
  }

  function ConfigPass(
    cache: RelayerCache, order: seq<ChainId>, chainId: ChainId, config: Config, w: ConfigAnswers): seq<Queued>
  {
    var targets := Resolved(config.relayers, config.funder, w.rows);
    if targets.None? || targets.value == [] then []
    else
      NativePass(cache, order, chainId, config, targets.value, w)
      + TokensPass(cache, order, chainId, config, targets.value, w)
  }

  // ---- What a pass is worth -------------------------------------------------------------------

  /** The entry moves the asset's top-up amount to the recipient, sent and paid by the funder itself. */
  predicate TopsUp(q: Queued, config: Config, a: AssetConfig, recipient: EvmAddress) {
    && q.sender.address == config.funder && config.safe.None?
    && Moves(q) == Movement(config.funder, recipient, a.asset, a.topUpAmount)
  }

  /** The target was read and found below the minimum. */
  ghost predicate IsBelowMinimum(a: AssetConfig, targets: seq<EvmAddress>, w: PassAnswers, recipient: EvmAddress) {
    exists i: nat ::
      && i < |targets| && targets[i] == recipient
      && w.balances(i).Some? && w.balances(i).value < a.minBalance
  }

  /** Some send of the pass checked that the recipient is registered on the chain. */
  ghost predicate WasRegistered(recipients: seq<EvmAddress>, w: PassAnswers, recipient: EvmAddress) {
    exists j: nat :: j < |recipients| && recipients[j] == recipient && w.sends(j).recipient.Row?
  }

  /** The entry tops up a recipient that is registered and is not the funder. */
  ghost predicate IsSoundTopUp(
    q: Queued, config: Config, a: AssetConfig, recipients: seq<EvmAddress>, w: PassAnswers, recipient: EvmAddress)
  {
    TopsUp(q, config, a, recipient) && recipient != config.funder && WasRegistered(recipients, w, recipient)
  }

  lemma {:induction false} SenderIsTheFunder(
    cache: RelayerCache, order: seq<ChainId>, chainId: ChainId, funder: EvmAddress, row: RowAnswer)
    ensures Sender(cache, order, chainId, funder, row).Some? ==>
              Sender(cache, order, chainId, funder, row).value.address == funder
    decreases |order|
  {
    if order != [] {
      SenderIsTheFunder(cache, order[1..], chainId, funder, row);
      if order[0] in cache {
        FirstIsListed(cache[order[0]], funder);
      }
    }
  }

  lemma {:induction false} AttemptsAreSound(
    cache: RelayerCache, order: seq<ChainId>, chainId: ChainId, config: Config, a: AssetConfig,
    recipients: seq<EvmAddress>, w: PassAnswers, k: nat)
    requires k <= |recipients|
    ensures forall q :: q in Attempts(cache, order, chainId, config, a, recipients, w, k) ==>
              exists r :: IsSoundTopUp(q, config, a, recipients, w, r)
    decreases k
  {
    if k > 0 {
      AttemptsAreSound(cache, order, chainId, config, a, recipients, w, k - 1);
      var r, s := recipients[k - 1], w.sends(k - 1);
      var last := Attempt(cache, order, chainId, config, a, r, s);
      if last != [] {
        SenderIsTheFunder(cache, order, chainId, config.funder, s.funder);
        CallMovesTheTopUp(a, r, config.funder, 0);
        assert IsSoundTopUp(last[0], config, a, recipients, w, r);
      }
    }
  }

  lemma {:induction false} NeedingAreBelowMinimum(a: AssetConfig, targets: seq<EvmAddress>, w: PassAnswers, k: nat)
    requires k <= |targets|
    ensures forall r :: r in Needing(a, targets, w, k) ==> IsBelowMinimum(a, targets, w, r)
    decreases k
  {
    if k > 0 {
      NeedingAreBelowMinimum(a, targets, w, k - 1);
    }
  }

  /** The entry is a sound top-up of a target that was below its minimum. */
  ghost predicate IsDeserved(q: Queued, config: Config, a: AssetConfig, targets: seq<EvmAddress>, w: PassAnswers) {
    var needing := Needing(a, targets, w, |targets|);
    exists r :: IsSoundTopUp(q, config, a, needing, w, r) && r in targets && IsBelowMinimum(a, targets, w, r)
  }

  /** Whatever is answered, a pass queues top-ups only for registered targets below their minimum. */
  lemma PassTopsUpTheNeedy(
    cache: RelayerCache, order: seq<ChainId>, chainId: ChainId, config: Config, a: AssetConfig,
    targets: seq<EvmAddress>, w: PassAnswers)
    ensures forall q :: q in Pass(cache, order, chainId, config, a, targets, w) ==>
              IsDeserved(q, config, a, targets, w)
  {
    var needing := Needing(a, targets, w, |targets|);
    AttemptsAreSound(cache, order, chainId, config, a, needing, w, |needing|);
    NeedingAreBelowMinimum(a, targets, w, |targets|);
    forall q | q in Pass(cache, order, chainId, config, a, targets, w)
      ensures IsDeserved(q, config, a, targets, w)
    {
      var r :| IsSoundTopUp(q, config, a, needing, w, r);
      assert r in needing;
    }
  }

  function TotalAmount(queued: seq<Queued>): nat {
    if queued == [] then 0
    else TotalAmount(queued[..|queued| - 1]) + Moves(queued[|queued| - 1]).amount
  }

  lemma {:induction false} TotalOfEqualAmounts(queued: seq<Queued>, amount: nat)
    requires forall q :: q in queued ==> Moves(q).amount == amount
    ensures TotalAmount(queued) == Times(amount, |queued|)
    decreases |queued|
  {
    if queued != [] {
      var n: nat := |queued| - 1;
      TotalOfEqualAmounts(queued[..n], amount);
      assert queued[n] in queued;
    }
  }

  lemma {:induction false} AttemptsAreFew(
    cache: RelayerCache, order: seq<ChainId>, chainId: ChainId, config: Config, a: AssetConfig,
    recipients: seq<EvmAddress>, w: PassAnswers, k: nat)
    requires k <= |recipients|
    ensures |Attempts(cache, order, chainId, config, a, recipients, w, k)| <= k
    decreases k
  {
    if k > 0 {
      AttemptsAreFew(cache, order, chainId, config, a, recipients, w, k - 1);
    }
  }

  lemma PassTotal(
    cache: RelayerCache, order: seq<ChainId>, chainId: ChainId, config: Config, a: AssetConfig,
    targets: seq<EvmAddress>, w: PassAnswers)
    ensures var queued := Pass(cache, order, chainId, config, a, targets, w);
      |queued| <= |Needing(a, targets, w, |targets|)| && TotalAmount(queued) == Times(a.topUpAmount, |queued|)
  {
    var needing, queued := Needing(a, targets, w, |targets|), Pass(cache, order, chainId, config, a, targets, w);
    PassTopsUpTheNeedy(cache, order, chainId, config, a, targets, w);
    AttemptsAreFew(cache, order, chainId, config, a, needing, w, |needing|);
    forall q | q in queued
      ensures Moves(q).amount == a.topUpAmount
    {
      assert IsDeserved(q, config, a, targets, w);
    }
    TotalOfEqualAmounts(queued, a.topUpAmount);
  }

  /** The entries with their estimated gas fit into the balances the check read. */
  predicate WithinBalances(queued: seq<Queued>, asset: Asset, w: PassAnswers) {
    var gas := Times(EstimatedGas(asset, w.gasPrice), |queued|);
    && w.funderNative.Some?
    && match asset
       case Native => TotalAmount(queued) + gas <= w.funderNative.value
       case Token(_) =>
         && gas <= w.funderNative.value
         && w.funderTokens.Some? && TotalAmount(queued) <= w.funderTokens.value
  }

  /**
   A pass whose check answered "sufficient" without wrapping queues no more than
   the balances it read: amounts and gas together for native currency, tokens and
   gas separately for a token.
   */
  lemma QueuedTotalIsWithinBalances(
    cache: RelayerCache, order: seq<ChainId>, chainId: ChainId, config: Config, a: AssetConfig,
    targets: seq<EvmAddress>, w: PassAnswers)
    requires Words(a, w)
    requires var n := |Needing(a, targets, w, |targets|)|;
      n > 0 && Sufficient(a, n, w) == Some(true) && TotalsFit(a, n, w)
    ensures WithinBalances(Pass(cache, order, chainId, config, a, targets, w), a.asset, w)
  {
    var n, queued := |Needing(a, targets, w, |targets|)|, Pass(cache, order, chainId, config, a, targets, w);
    SufficientIsRightIff(a, n, w);
    PassTotal(cache, order, chainId, config, a, targets, w);
    var gas := EstimatedGas(a.asset, w.gasPrice);
    MoreTimesIsMore(gas, |queued|, n);
    MoreTimesIsMore(a.topUpAmount, |queued|, n);
    TimesDistributes(a.topUpAmount, gas, n);
  }

  // ---- Who pays -------------------------------------------------------------------------------

  function PaidBy(queued: seq<Queued>, payer: EvmAddress): nat {
    if queued == [] then 0
    else
      var last := Moves(queued[|queued| - 1]);
      PaidBy(queued[..|queued| - 1], payer) + if last.payer == payer then last.amount else 0
  }

  /** Nobody is to pay more of the asset than it has. */
  ghost predicate PayersCanPay(queued: seq<Queued>, balanceOf: EvmAddress -> nat) {
    forall payer: EvmAddress :: PaidBy(queued, payer) <= balanceOf(payer)
  }

  /** What was read of the funder's balance of the asset is what it has. */
  predicate ReadTruly(config: Config, a: AssetConfig, w: PassAnswers, balanceOf: EvmAddress -> nat) {
    (if a.asset.Native? then w.funderNative else w.funderTokens) == Some(balanceOf(config.funder))
  }

  /** The check answered "sufficient" and its products did not wrap. */
  predicate RightlySufficient(a: AssetConfig, targets: seq<EvmAddress>, w: PassAnswers) {
    var n := |Needing(a, targets, w, |targets|)|;
    Words(a, w) && Sufficient(a, n, w) == Some(true) && TotalsFit(a, n, w)
  }

  lemma {:induction false} OnePayerPays(queued: seq<Queued>, payer: EvmAddress)
    requires forall q :: q in queued ==> Moves(q).payer == payer
    ensures forall p: EvmAddress :: PaidBy(queued, p) == if p == payer then TotalAmount(queued) else 0
    decreases |queued|
  {
    if queued != [] {
      var n := |queued| - 1;
      OnePayerPays(queued[..n], payer);
      assert queued[n] in queued;
    }
  }

  /**
   A rightly sufficient pass asks nobody to pay more than it has, for every
   configuration and whatever is answered: the check reads the balance of the
   funder, and only the funder ever pays.
   */
  lemma PayersCanAlwaysPay(
    cache: RelayerCache, order: seq<ChainId>, chainId: ChainId, config: Config, a: AssetConfig,
    targets: seq<EvmAddress>, w: PassAnswers, balanceOf: EvmAddress -> nat)
    requires RightlySufficient(a, targets, w) && ReadTruly(config, a, w, balanceOf)
    ensures PayersCanPay(Pass(cache, order, chainId, config, a, targets, w), balanceOf)
  {
    var queued := Pass(cache, order, chainId, config, a, targets, w);
    PassTopsUpTheNeedy(cache, order, chainId, config, a, targets, w);
    forall q | q in queued
      ensures Moves(q).payer == config.funder
    {
      assert IsDeserved(q, config, a, targets, w);
    }
    OnePayerPays(queued, config.funder);
    if Needing(a, targets, w, |targets|) != [] {
      QueuedTotalIsWithinBalances(cache, order, chainId, config, a, targets, w);
      assert WithinBalances(queued, a.asset, w);
    }
  }

  /** With a Safe nothing is queued, whatever is answered: no Safe transaction can be signed. */
  lemma SafeQueuesNothing(
    cache: RelayerCache, order: seq<ChainId>, chainId: ChainId, config: Config, w: ConfigAnswers)
    requires config.safe.Some?
    ensures ConfigPass(cache, order, chainId, config, w) == []
  {
    ConfigPassIsConfigured(cache, order, chainId, config, w);
    var queued := ConfigPass(cache, order, chainId, config, w);
    assert queued != [] ==> queued[0] in queued;
    assert queued != [] && w.rows.Some? ==> IsSomeConfigured(queued[0], config, w.rows.value);
  }

  /** A balance that cannot be read lets the pass go on as if it sufficed. */
  lemma UnreadBalanceFailsOpen(
    cache: RelayerCache, order: seq<ChainId>, chainId: ChainId, config: Config, a: AssetConfig,
    targets: seq<EvmAddress>, w: PassAnswers, enough: PassAnswers)
    requires enough.balances == w.balances && enough.sends == w.sends
    requires Sufficient(a, |Needing(a, targets, w, |targets|)|, w).None?
    requires Sufficient(a, |Needing(a, targets, w, |targets|)|, enough) == Some(true)
    ensures Pass(cache, order, chainId, config, a, targets, w)
            == Pass(cache, order, chainId, config, a, targets, enough)
  {
    SameTargetsNeed(a, targets, w, enough, |targets|);
    var needing := Needing(a, targets, w, |targets|);
    SameAttempts(cache, order, chainId, config, a, needing, w, enough, |needing|);
  }

  lemma {:induction false} SameTargetsNeed(
    a: AssetConfig, targets: seq<EvmAddress>, w: PassAnswers, v: PassAnswers, k: nat)
    requires k <= |targets| && v.balances == w.balances
    ensures Needing(a, targets, v, k) == Needing(a, targets, w, k)
    decreases k
  {
    if k > 0 {
      SameTargetsNeed(a, targets, w, v, k - 1);
    }
  }

  lemma {:induction false} SameAttempts(
    cache: RelayerCache, order: seq<ChainId>, chainId: ChainId, config: Config, a: AssetConfig,
    recipients: seq<EvmAddress>, w: PassAnswers, v: PassAnswers, k: nat)
    requires k <= |recipients| && v.sends == w.sends
    ensures Attempts(cache, order, chainId, config, a, recipients, v, k)
            == Attempts(cache, order, chainId, config, a, recipients, w, k)
    decreases k
  {
    if k > 0 {
      SameAttempts(cache, order, chainId, config, a, recipients, w, v, k - 1);
    }
  }

  // ---- A whole configuration ------------------------------------------------------------------

  predicate AssetOf(config: Config, a: AssetConfig) {
    config.native == Some(a) || (config.tokens.Some? && a in config.tokens.value)
  }

  /** A top-up in one of the configured assets, for a relayer of the chain that was asked for and is not the funder. */
  predicate IsConfigured(q: Queued, config: Config, rows: seq<Relayer>, a: AssetConfig, r: EvmAddress) {
    && AssetOf(config, a) && TopsUp(q, config, a, r) && r != config.funder
    && r in Addresses(rows) && (config.relayers.All? || r in config.relayers.addresses)
  }

  ghost predicate IsSomeConfigured(q: Queued, config: Config, rows: seq<Relayer>) {
    exists a, r :: IsConfigured(q, config, rows, a, r)
  }

  ghost predicate AllConfigured(queued: seq<Queued>, config: Config, rows: seq<Relayer>) {
    forall q :: q in queued ==> IsSomeConfigured(q, config, rows)
  }

  lemma PassIsConfigured(
    cache: RelayerCache, order: seq<ChainId>, chainId: ChainId, config: Config, a: AssetConfig, rows: seq<Relayer>,
    w: PassAnswers)
    requires AssetOf(config, a)
    ensures AllConfigured(
              Pass(cache, order, chainId, config, a, Resolved(config.relayers, config.funder, Some(rows)).value, w),
              config, rows)
  {
    var targets := Resolved(config.relayers, config.funder, Some(rows)).value;
    var queued := Pass(cache, order, chainId, config, a, targets, w);
    PassTopsUpTheNeedy(cache, order, chainId, config, a, targets, w);
    forall q | q in queued
      ensures IsSomeConfigured(q, config, rows)
    {
      var needing := Needing(a, targets, w, |targets|);
      assert IsDeserved(q, config, a, targets, w);
      var r :| IsSoundTopUp(q, config, a, needing, w, r) && r in targets && IsBelowMinimum(a, targets, w, r);
      ResolvedCounts(config.relayers, config.funder, rows, r);
      assert r in multiset(targets);
      assert IsConfigured(q, config, rows, a, r);
    }
  }

  lemma {:induction false} AllPartsConfigured(
    parts: nat -> seq<Queued>, k: nat, config: Config, rows: seq<Relayer>)
    requires forall i: nat :: i < k ==> AllConfigured(parts(i), config, rows)
    ensures AllConfigured(Joined(parts, k), config, rows)
    decreases k
  {
    if k > 0 {
      AllPartsConfigured(parts, k - 1, config, rows);
    }
  }

  /** Whatever the outside answers, everything one configuration queues was configured. */
  lemma ConfigPassIsConfigured(
    cache: RelayerCache, order: seq<ChainId>, chainId: ChainId, config: Config, w: ConfigAnswers)
    ensures w.rows.None? ==> ConfigPass(cache, order, chainId, config, w) == []
    ensures w.rows.Some? ==> AllConfigured(ConfigPass(cache, order, chainId, config, w), config, w.rows.value)
  {
    if w.rows.Some? {
      if config.native.Some? {
        PassIsConfigured(cache, order, chainId, config, config.native.value, w.rows.value, w.native);
      }
      if config.tokens.Some? {
        var tokens, targets := config.tokens.value, Resolved(config.relayers, config.funder, w.rows).value;
        var parts := TokenParts(cache, order, chainId, config, tokens, targets, w);
        forall i: nat | i < |tokens|
          ensures AllConfigured(parts(i), config, w.rows.value)
        {
          PassIsConfigured(cache, order, chainId, config, tokens[i], w.rows.value, w.tokens(i));
        }
        AllPartsConfigured(parts, |tokens|, config, w.rows.value);
      }
    }
  }
}
