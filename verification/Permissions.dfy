/**
 Which relayers may send which transactions: the configuration, the tables that
 startup builds from it, the API's check over the tables, and the cron jobs'
 check over the configuration.
 */
module Permissions {
  import opened Prelude

  datatype AllOrOneOrMany = All | One(address: EvmAddress) | Many(addresses: seq<EvmAddress>)
  {
    predicate Contains(a: EvmAddress) {
      match this
      case All => true
      case One(address) => address == a
      case Many(addresses) => a in addresses
    }
  }

  /** How a list of addresses is written in the configuration file. */
  datatype AddressText = Star | OneAddress(address: EvmAddress) | AddressList(addresses: seq<EvmAddress>)

  function Serialize(relayers: AllOrOneOrMany): AddressText {
    match relayers
    case All => Star
    case One(address) => OneAddress(address)
    case Many(addresses) => AddressList(addresses)
  }

  /** A list of exactly one address is read as that address. */
  function Deserialize(text: AddressText): AllOrOneOrMany {
    match text
    case Star => All
    case OneAddress(address) => One(address)
    case AddressList(addresses) => if |addresses| == 1 then One(addresses[0]) else Many(addresses)
  }

  /** Saving and loading never changes who is meant; it changes the value only for a list of one. */
  lemma AddressesRoundTrip(relayers: AllOrOneOrMany)
    ensures forall a: EvmAddress :: Deserialize(Serialize(relayers)).Contains(a) <==> relayers.Contains(a)
    ensures Deserialize(Serialize(relayers)) == relayers <==> !(relayers.Many? && |relayers.addresses| == 1)
  {
  }

  datatype Permission = Permission(
    relayers: AllOrOneOrMany,
    allowlist: seq<EvmAddress>,
    disableNativeTransfer: Option<bool>,
    disableTypedDataSign: Option<bool>,
    disableTransactions: Option<bool>)

  datatype TopUp = TopUp(fromRelayer: EvmAddress, internalOnly: Option<bool>)

  datatype Network = Network(
    name: string, chainId: ChainId, permissions: Option<seq<Permission>>, automaticTopUp: Option<seq<TopUp>>)

  function OrFalse(flag: Option<bool>): bool {
    flag == Some(true)
  }

  function OrTrue(flag: Option<bool>): bool {
    flag != Some(false)
  }

  // ---- Startup --------------------------------------------------------------

  type PermissionTable = seq<(ChainId, seq<Permission>)>

  type InternalTable = seq<(ChainId, EvmAddress)>

  /** The tables of the whole configuration, network by network. */
  function PermissionsOf(networks: seq<Network>): PermissionTable {
    if networks == [] then []
    else
      var last := networks[|networks| - 1];
      PermissionsOf(networks[..|networks| - 1])
      + (if last.permissions.Some? then [(last.chainId, last.permissions.value)] else [])
  }

  function InternalOf(chainId: ChainId, topUps: seq<TopUp>): InternalTable {
    if topUps == [] then []
    else
      var last := topUps[|topUps| - 1];
      InternalOf(chainId, topUps[..|topUps| - 1])
      + (if OrTrue(last.internalOnly) then [(chainId, last.fromRelayer)] else [])
  }

  function InternalOnlyOf(networks: seq<Network>): InternalTable {
    if networks == [] then []
    else
      var last := networks[|networks| - 1];
      InternalOnlyOf(networks[..|networks| - 1])
      + (if last.automaticTopUp.Some? then InternalOf(last.chainId, last.automaticTopUp.value) else [])
  }

  method BuildTables(networks: seq<Network>) returns (networkPermissions: PermissionTable, internalOnly: InternalTable)
    ensures networkPermissions == PermissionsOf(networks)
    ensures internalOnly == InternalOnlyOf(networks)
  {
    networkPermissions, internalOnly := [], [];
    for i := 0 to |networks|
      invariant networkPermissions == PermissionsOf(networks[..i])
      invariant internalOnly == InternalOnlyOf(networks[..i])
    {
      assert networks[..i + 1][..i] == networks[..i];
      var network := networks[i];
      if network.automaticTopUp.Some? {
        var topUps := network.automaticTopUp.value;
        for j := 0 to |topUps|
          invariant internalOnly == InternalOnlyOf(networks[..i]) + InternalOf(network.chainId, topUps[..j])
        {
          assert topUps[..j + 1][..j] == topUps[..j];
          if OrTrue(topUps[j].internalOnly) {
            internalOnly := internalOnly + [(network.chainId, topUps[j].fromRelayer)];
          }
        }
        assert topUps[..|topUps|] == topUps;
      }
      if network.permissions.Some? {
        networkPermissions := networkPermissions + [(network.chainId, network.permissions.value)];
      }
    }
    assert networks[..|networks|] == networks;
  }

  // ---- The API's check ------------------------------------------------------

  datatype Action = Transaction | SigningTypedData

  datatype Denial = TransactionsDisabled | TypedDataDisabled | NotAllowlisted | NativeTransferDisabled

  function FindNetworkPermission(table: PermissionTable, chainId: ChainId): Option<seq<Permission>> {
    if table == [] then None
    else if table[0].0 == chainId then Some(table[0].1)
    else FindNetworkPermission(table[1..], chainId)
  }

  /** The first reason an entry has against the request, in the order the API asks. */
  function ApiDenial(p: Permission, relayer: EvmAddress, to: EvmAddress, value: nat, action: Action): Option<Denial> {
    if !p.relayers.Contains(relayer) then None
    else if action == Transaction && OrFalse(p.disableTransactions) then Some(TransactionsDisabled)
    else if action == SigningTypedData && OrFalse(p.disableTypedDataSign) then Some(TypedDataDisabled)
    else if p.allowlist != [] && to !in p.allowlist then Some(NotAllowlisted)
    else if value != 0 && OrFalse(p.disableNativeTransfer) then Some(NativeTransferDisabled)
    else None
  }

  /** The entry is about this relayer: it names everybody, or the relayer. */
  predicate Names(p: Permission, relayer: EvmAddress) {
    match p.relayers
    case All => true
    case One(address) => address == relayer
    case Many(addresses) => exists i :: 0 <= i < |addresses| && addresses[i] == relayer
  }

  /**
   An entry allows a request unless it names the relayer and forbids the action, the
   recipient or the native value; a flag forbids only when it is set to true, and the
   flag of the other action does not matter.
   */
  lemma EntryAllowsIff(p: Permission, relayer: EvmAddress, to: EvmAddress, value: nat)
    ensures ApiDenial(p, relayer, to, value, Transaction).None? <==>
            (Names(p, relayer) ==>
               && p.disableTransactions != Some(true)
               && (|p.allowlist| == 0 || to in p.allowlist)
               && (value == 0 || p.disableNativeTransfer != Some(true)))
    ensures ApiDenial(p, relayer, to, value, SigningTypedData).None? <==>
            (Names(p, relayer) ==>
               && p.disableTypedDataSign != Some(true)
               && (|p.allowlist| == 0 || to in p.allowlist)
               && (value == 0 || p.disableNativeTransfer != Some(true)))
  {
  }

  /** The reason that is given: the action first, then the recipient, then the value. */
  lemma FirstReason(p: Permission, relayer: EvmAddress, to: EvmAddress, value: nat, action: Action)
    requires ApiDenial(p, relayer, to, value, action).Some?
    ensures var reason := ApiDenial(p, relayer, to, value, action).value;
      && (reason == TransactionsDisabled <==> action == Transaction && p.disableTransactions == Some(true))
      && (reason == TypedDataDisabled <==> action == SigningTypedData && p.disableTypedDataSign == Some(true))
      && (reason == NativeTransferDisabled ==> |p.allowlist| == 0 || to in p.allowlist)
      && (reason == NotAllowlisted ==> |p.allowlist| > 0 && to !in p.allowlist)
  {
  }

  /** The answer is the first denial of the first entry that has one. */
  method NetworkPermissionValidate(
    table: PermissionTable, relayer: EvmAddress, chainId: ChainId, to: EvmAddress, value: nat, action: Action)
    returns (r: Option<Denial>)
    ensures r.None? <==> ApiAccepts(table, relayer, chainId, to, value, action)
    ensures r.Some? ==> exists i ::
      && 0 <= i < |FindNetworkPermission(table, chainId).value|
      && ApiDenial(FindNetworkPermission(table, chainId).value[i], relayer, to, value, action) == r
      && forall j :: 0 <= j < i ==>
           ApiDenial(FindNetworkPermission(table, chainId).value[j], relayer, to, value, action).None?
  {
    var found := FindNetworkPermission(table, chainId);
    if found.Some? {
      var permissions := found.value;
      for i := 0 to |permissions|
        invariant forall j :: 0 <= j < i ==> ApiDenial(permissions[j], relayer, to, value, action).None?
      {
        var p := permissions[i];
        if p.relayers.Contains(relayer) {
          match action {
            case Transaction =>
              if OrFalse(p.disableTransactions) {
                return Some(TransactionsDisabled);
              }
            case SigningTypedData =>
              if OrFalse(p.disableTypedDataSign) {
                return Some(TypedDataDisabled);
              }
          }
          if p.allowlist != [] && to !in p.allowlist {
            return Some(NotAllowlisted);
          }
          if value != 0 && OrFalse(p.disableNativeTransfer) {
            return Some(NativeTransferDisabled);
          }
        }
      }
    }
    return None;
  }

  /** Every entry of the chain's permissions that names the relayer allows the request. */
  ghost predicate ApiAccepts(
    table: PermissionTable, relayer: EvmAddress, chainId: ChainId, to: EvmAddress, value: nat, action: Action)
  {
    var permissions := FindNetworkPermission(table, chainId);
    permissions.Some? ==>
      forall i :: 0 <= i < |permissions.value| ==>
        ApiDenial(permissions.value[i], relayer, to, value, action).None?
  }

  predicate Restricted(table: InternalTable, relayer: EvmAddress, chainId: ChainId) {
    exists i :: 0 <= i < |table| && table[i] == (chainId, relayer)
  }

  // ---- The cron jobs' check -------------------------------------------------

  /** A cron job's transaction, whose value text may not parse as an amount (None). */
  datatype CronTransaction = CronTransaction(to: EvmAddress, value: Option<nat>)
  {
    /** What the cron check takes the value to be: text that is no amount counts as zero. */
    function Amount(): nat {
      if value.Some? then value.value else 0
    }
  }

  function NetworkOf(networks: seq<Network>, chainId: ChainId): Option<Network> {
    if networks == [] then None
    else if networks[0].chainId == chainId then Some(networks[0])
    else NetworkOf(networks[1..], chainId)
  }

  /** An entry's refusal of a cron transaction. */
  predicate CronDenies(p: Permission, relayer: EvmAddress, t: CronTransaction) {
    && p.relayers.Contains(relayer)
    && (|| OrFalse(p.disableTransactions)
        || (OrFalse(p.disableNativeTransfer) && t.value.Some? && t.value.value != 0)
        || (p.allowlist != [] && t.to !in p.allowlist))
  }

  method ValidateCronJobTransactionPermissions(
    networks: seq<Network>, relayer: EvmAddress, chainId: ChainId, t: CronTransaction)
    returns (ok: bool)
    ensures ok <==> CronAccepts(networks, relayer, chainId, t)
  {
    var network := NetworkOf(networks, chainId);
    if network.None? || network.value.permissions.None? {
      return true;
    }
    var permissions := network.value.permissions.value;
    for i := 0 to |permissions|
      invariant forall j :: 0 <= j < i ==> !CronDenies(permissions[j], relayer, t)
    {
      var p := permissions[i];
      if p.relayers.Contains(relayer) {
        if OrFalse(p.disableTransactions) {
          return false;
        }
        if OrFalse(p.disableNativeTransfer) && t.value.Some? && t.value.value != 0 {
          return false;
        }
        if p.allowlist != [] && t.to !in p.allowlist {
          return false;
        }
      }
    }
    return true;
  }

  predicate CronAccepts(networks: seq<Network>, relayer: EvmAddress, chainId: ChainId, t: CronTransaction) {
    var network := NetworkOf(networks, chainId);
    network.Some? && network.value.permissions.Some? ==>
      forall i :: 0 <= i < |network.value.permissions.value| ==>
        !CronDenies(network.value.permissions.value[i], relayer, t)
  }

  // ---- The two checks agree -------------------------------------------------

  ghost predicate DistinctChains(networks: seq<Network>) {
    forall i, j :: 0 <= i < j < |networks| ==> networks[i].chainId != networks[j].chainId
  }

  /** The first network of the chain that has any permissions. */
  function FirstWithPermissions(networks: seq<Network>, chainId: ChainId): Option<seq<Permission>> {
    if networks == [] then None
    else if networks[0].chainId == chainId && networks[0].permissions.Some? then networks[0].permissions
    else FirstWithPermissions(networks[1..], chainId)
  }

  lemma {:induction false} FindConcat(a: PermissionTable, b: PermissionTable, chainId: ChainId)
    ensures FindNetworkPermission(a + b, chainId) ==
            if FindNetworkPermission(a, chainId).Some? then FindNetworkPermission(a, chainId)
            else FindNetworkPermission(b, chainId)
    decreases |a|
  {
    if a == [] {
      assert a + b == b;
    } else {
      assert (a + b)[1..] == a[1..] + b;
      FindConcat(a[1..], b, chainId);
    }
  }

  lemma {:induction false} FirstWithPermissionsConcat(a: seq<Network>, b: seq<Network>, chainId: ChainId)
    ensures FirstWithPermissions(a + b, chainId) ==
            if FirstWithPermissions(a, chainId).Some? then FirstWithPermissions(a, chainId)
            else FirstWithPermissions(b, chainId)
    decreases |a|
  {
    if a == [] {
      assert a + b == b;
    } else {
      assert (a + b)[1..] == a[1..] + b;
      FirstWithPermissionsConcat(a[1..], b, chainId);
    }
  }

  /** Looking a chain up in the table is looking for the first network that has permissions. */
  lemma {:induction false} TableFindsFirstWithPermissions(networks: seq<Network>, chainId: ChainId)
    ensures FindNetworkPermission(PermissionsOf(networks), chainId) == FirstWithPermissions(networks, chainId)
    decreases |networks|
  {
    if networks != [] {
      var n := |networks| - 1;
      var last := networks[n];
      TableFindsFirstWithPermissions(networks[..n], chainId);
      assert networks == networks[..n] + [last];
      FirstWithPermissionsConcat(networks[..n], [last], chainId);
      assert [last][1..] == [];
      assert FirstWithPermissions([], chainId) == None;
      var tail: PermissionTable := if last.permissions.Some? then [(last.chainId, last.permissions.value)] else [];
      FindConcat(PermissionsOf(networks[..n]), tail, chainId);
      if tail != [] {
        assert tail[1..] == [] && FindNetworkPermission([], chainId) == None;
      }
    }
  }

  /** The network that answers for a chain in the cron check has permissions, or no network of the chain has. */
  predicate FirstNetworkSpeaks(networks: seq<Network>, chainId: ChainId) {
    var network := NetworkOf(networks, chainId);
    (network.Some? && network.value.permissions.Some?) || FirstWithPermissions(networks, chainId).None?
  }

  lemma {:induction false} SpeakingNetworkIsFirst(networks: seq<Network>, chainId: ChainId)
    ensures var network := NetworkOf(networks, chainId);
      && (network.Some? && network.value.permissions.Some? ==>
            FirstWithPermissions(networks, chainId) == network.value.permissions)
      && (network.None? ==> FirstWithPermissions(networks, chainId).None?)
    decreases |networks|
  {
    if networks != [] {
      SpeakingNetworkIsFirst(networks[1..], chainId);
    }
  }

  /** With permissions on the chain's first network both checks read the same entries. */
  lemma SpeakingChecksAgree(networks: seq<Network>, relayer: EvmAddress, chainId: ChainId, t: CronTransaction)
    requires FirstNetworkSpeaks(networks, chainId)
    ensures CronAccepts(networks, relayer, chainId, t)
            <==> ApiAccepts(PermissionsOf(networks), relayer, chainId, t.to, t.Amount(), Transaction)
  {
    TableFindsFirstWithPermissions(networks, chainId);
    SpeakingNetworkIsFirst(networks, chainId);
    var permissions := FindNetworkPermission(PermissionsOf(networks), chainId);
    if permissions.Some? {
      forall i | 0 <= i < |permissions.value|
        ensures CronDenies(permissions.value[i], relayer, t)
                <==> ApiDenial(permissions.value[i], relayer, t.to, t.Amount(), Transaction).Some?
      {
      }
    }
  }

  /** An entry that can deny no transaction: it names nobody or forbids nothing. */
  predicate Harmless(p: Permission) {
    || p.relayers == Many([])
    || (!OrFalse(p.disableTransactions) && p.allowlist == [] && !OrFalse(p.disableNativeTransfer))
  }

  function AnyOf(relayers: AllOrOneOrMany): (a: EvmAddress)
    ensures relayers != Many([]) ==> relayers.Contains(a)
  {
    match relayers
    case All => 0
    case One(address) => address
    case Many(addresses) => if addresses == [] then 0 else addresses[0]
  }

  /** An address larger than every listed one. */
  function Unlisted(addresses: seq<EvmAddress>): (a: EvmAddress)
    ensures forall i :: 0 <= i < |addresses| ==> addresses[i] < a
  {
    if addresses == [] then 0 else Max(addresses[0] + 1, Unlisted(addresses[1..]))
  }

  /** Every entry that is not harmless denies some transaction of some relayer. */
  lemma HarmfulEntryDenies(p: Permission)
    ensures Harmless(p) <==>
            forall relayer: EvmAddress, to: EvmAddress, value: nat ::
              ApiDenial(p, relayer, to, value, Transaction).None?
  {
    var relayer, to := AnyOf(p.relayers), Unlisted(p.allowlist);
    assert to !in p.allowlist;
    assert ApiDenial(p, relayer, to, 1, Transaction).None? ==> Harmless(p);
  }

  /**
   For every configuration: the cron check accepts exactly what the API check
   over the tables built at startup accepts, for all requests, if and only if
   the chain's first network speaks for it or the entries the API reads are
   all harmless.
   */
  lemma ChecksAgreeIff(networks: seq<Network>, chainId: ChainId)
    ensures (forall relayer: EvmAddress, t: CronTransaction ::
              CronAccepts(networks, relayer, chainId, t)
              <==> ApiAccepts(PermissionsOf(networks), relayer, chainId, t.to, t.Amount(), Transaction))
            <==>
            || FirstNetworkSpeaks(networks, chainId)
            || forall p :: p in FirstWithPermissions(networks, chainId).value ==> Harmless(p)
  {
    if FirstNetworkSpeaks(networks, chainId) {
      forall relayer: EvmAddress, t: CronTransaction {
        SpeakingChecksAgree(networks, relayer, chainId, t);
      }
    } else {
      TableFindsFirstWithPermissions(networks, chainId);
      var permissions := FirstWithPermissions(networks, chainId).value;
      forall i | 0 <= i < |permissions|
        ensures Harmless(permissions[i]) <==> forall relayer: EvmAddress, to: EvmAddress, value: nat ::
                  ApiDenial(permissions[i], relayer, to, value, Transaction).None?
      {
        HarmfulEntryDenies(permissions[i]);
      }
      if p :| p in permissions && !Harmless(p) {
        var i :| 0 <= i < |permissions| && permissions[i] == p;
        var relayer: EvmAddress, to: EvmAddress, value: nat :| ApiDenial(p, relayer, to, value, Transaction).Some?;
        var t := CronTransaction(to, Some(value));
        assert CronAccepts(networks, relayer, chainId, t);
        assert !ApiAccepts(PermissionsOf(networks), relayer, chainId, t.to, t.Amount(), Transaction);
      }
    }
  }

  lemma {:induction false} DistinctChainsSpeak(networks: seq<Network>, chainId: ChainId)
    requires DistinctChains(networks)
    ensures FirstNetworkSpeaks(networks, chainId)
    decreases |networks|
  {
    if networks != [] {
      if networks[0].chainId == chainId {
        NoOtherNetwork(networks[1..], chainId);
      } else {
        DistinctChainsSpeak(networks[1..], chainId);
      }
    }
  }

  lemma {:induction false} NoOtherNetwork(networks: seq<Network>, chainId: ChainId)
    requires forall i :: 0 <= i < |networks| ==> networks[i].chainId != chainId
    ensures FirstWithPermissions(networks, chainId).None? && NetworkOf(networks, chainId).None?
    decreases |networks|
  {
    if networks != [] {
      NoOtherNetwork(networks[1..], chainId);
    }
  }

  /** With distinct chain ids the two checks always agree. */
  lemma ChecksAgreeOnDistinctChains(networks: seq<Network>, relayer: EvmAddress, chainId: ChainId, t: CronTransaction)
    requires DistinctChains(networks)
    ensures CronAccepts(networks, relayer, chainId, t)
            <==> ApiAccepts(PermissionsOf(networks), relayer, chainId, t.to, t.Amount(), Transaction)
  {
    DistinctChainsSpeak(networks, chainId);
    SpeakingChecksAgree(networks, relayer, chainId, t);
  }

  // ---- Internal-only relayers -----------------------------------------------

  /** Some top-up of the list is internal and funded by this relayer. */
  predicate HasInternal(topUps: seq<TopUp>, relayer: EvmAddress) {
    exists j :: 0 <= j < |topUps| && IsInternal(topUps[j], relayer)
  }

  /** A network of the chain has an internal-only top-up funded by this relayer. */
  predicate Funds(network: Network, relayer: EvmAddress, chainId: ChainId) {
    && network.chainId == chainId && network.automaticTopUp.Some?
    && HasInternal(network.automaticTopUp.value, relayer)
  }

  predicate IsInternal(t: TopUp, relayer: EvmAddress) {
    OrTrue(t.internalOnly) && t.fromRelayer == relayer
  }

  /** The relayers the cron filter leaves out on a chain. */
  predicate CronExcludes(networks: seq<Network>, relayer: EvmAddress, chainId: ChainId) {
    exists i :: 0 <= i < |networks| && Funds(networks[i], relayer, chainId)
  }

  lemma HasInternalAppend(topUps: seq<TopUp>, last: TopUp, relayer: EvmAddress)
    ensures HasInternal(topUps + [last], relayer) <==> HasInternal(topUps, relayer) || IsInternal(last, relayer)
  {
    var all := topUps + [last];
    assert forall j :: 0 <= j < |topUps| ==> all[j] == topUps[j];
    assert all[|topUps|] == last;
  }

  lemma {:induction false} InternalMembers(chainId: ChainId, topUps: seq<TopUp>, entry: (ChainId, EvmAddress))
    ensures entry in InternalOf(chainId, topUps) <==> entry.0 == chainId && HasInternal(topUps, entry.1)
    decreases |topUps|
  {
    if topUps != [] {
      var n := |topUps| - 1;
      InternalMembers(chainId, topUps[..n], entry);
      HasInternalAppend(topUps[..n], topUps[n], entry.1);
      assert topUps == topUps[..n] + [topUps[n]];
    }
  }

  lemma {:induction false} InternalOnlyMembers(networks: seq<Network>, relayer: EvmAddress, chainId: ChainId)
    ensures (chainId, relayer) in InternalOnlyOf(networks) <==> CronExcludes(networks, relayer, chainId)
    decreases |networks|
  {
    if networks != [] {
      var n := |networks| - 1;
      var last := networks[n];
      InternalOnlyMembers(networks[..n], relayer, chainId);
      assert forall i :: 0 <= i < n ==> networks[..n][i] == networks[i];
      assert CronExcludes(networks, relayer, chainId)
             <==> CronExcludes(networks[..n], relayer, chainId) || Funds(last, relayer, chainId);
      if last.automaticTopUp.Some? {
        InternalMembers(last.chainId, last.automaticTopUp.value, (chainId, relayer));
      }
    }
  }

  /** A network of the chain has a top-up funded by the relayer that is not declared to be shared. */
  predicate FundsInternally(networks: seq<Network>, relayer: EvmAddress, chainId: ChainId, i: nat, j: nat) {
    && i < |networks| && networks[i].chainId == chainId && networks[i].automaticTopUp.Some?
    && j < |networks[i].automaticTopUp.value|
    && networks[i].automaticTopUp.value[j].fromRelayer == relayer
    && networks[i].automaticTopUp.value[j].internalOnly != Some(false)
  }

  /** A relayer is kept internal on a chain unless all its top-ups there say that it is not: unset means internal. */
  lemma RestrictedIff(networks: seq<Network>, relayer: EvmAddress, chainId: ChainId)
    ensures Restricted(InternalOnlyOf(networks), relayer, chainId)
            <==> exists i: nat, j: nat :: FundsInternally(networks, relayer, chainId, i, j)
  {
    InternalOnlyFiltersAgree(networks, relayer, chainId);
    if CronExcludes(networks, relayer, chainId) {
      var i :| 0 <= i < |networks| && Funds(networks[i], relayer, chainId);
      var topUps := networks[i].automaticTopUp.value;
      var j :| 0 <= j < |topUps| && IsInternal(topUps[j], relayer);
      assert FundsInternally(networks, relayer, chainId, i, j);
    }
    if i: nat, j: nat :| FundsInternally(networks, relayer, chainId, i, j) {
      assert IsInternal(networks[i].automaticTopUp.value[j], relayer);
      assert Funds(networks[i], relayer, chainId);
    }
  }

  /** For any configuration the cron filter excludes exactly the relayers the API reports as restricted. */
  lemma InternalOnlyFiltersAgree(networks: seq<Network>, relayer: EvmAddress, chainId: ChainId)
    ensures CronExcludes(networks, relayer, chainId) <==> Restricted(InternalOnlyOf(networks), relayer, chainId)
  {
    InternalOnlyMembers(networks, relayer, chainId);
    var table := InternalOnlyOf(networks);
    if (chainId, relayer) in table {
      var i :| 0 <= i < |table| && table[i] == (chainId, relayer);
    }
  }

  // ---- Who a cron job may use -------------------------------------------------

  datatype Relayer = Relayer(address: EvmAddress, chainId: ChainId, paused: bool)

  datatype CronJob = CronJob(relayers: AllOrOneOrMany, transaction: CronTransaction)

  /** The relayers of the job's chain that pass every filter, before one is drawn at random. */
  function AvailableRelayers(networks: seq<Network>, job: CronJob, relayers: seq<Relayer>): seq<Relayer> {
    if relayers == [] then []
    else
      var r := relayers[0];
      (if
        && !r.paused
        && !CronExcludes(networks, r.address, r.chainId)
        && job.relayers.Contains(r.address)
        && CronAccepts(networks, r.address, r.chainId, job.transaction)
      then [r] else [])
      + AvailableRelayers(networks, job, relayers[1..])
  }

  /**
   A cron job draws from exactly the unpaused relayers it names that the API,
   through its own tables, would let send the same transaction.
   */
  lemma {:induction false} CronUsesWhomTheApiAllows(
    networks: seq<Network>, job: CronJob, relayers: seq<Relayer>, r: Relayer)
    requires DistinctChains(networks)
    ensures r in AvailableRelayers(networks, job, relayers) <==>
            && r in relayers && !r.paused && job.relayers.Contains(r.address)
            && !Restricted(InternalOnlyOf(networks), r.address, r.chainId)
            && ApiAccepts(PermissionsOf(networks), r.address, r.chainId,
                          job.transaction.to, job.transaction.Amount(), Transaction)
    decreases |relayers|
  {
    InternalOnlyFiltersAgree(networks, r.address, r.chainId);
    ChecksAgreeOnDistinctChains(networks, r.address, r.chainId, job.transaction);
    if relayers != [] {
      CronUsesWhomTheApiAllows(networks, job, relayers[1..], r);
    }
  }
}
