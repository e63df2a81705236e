/**
 When a request passes the policy of a relayer and which status it gets otherwise,
 said by the addresses, the blocks, the headers and the tokens themselves.
 */
module PolicyDecision {
  import opened Prelude
  import opened Cidr
  import opened Permissions
  import opened Text
  import opened Policy

  /** The rule is a block of the client's family that shares its prefix, or else the client's own address. */
  predicate RuleAdmits(reader: RuleReader, clientIp: IpAddr, rule: string) {
    var text := Trim(rule);
    text != [] &&
    match reader.net(text)
    case Some(block) =>
      (block.address.V4? <==> clientIp.V4?)
      && clientIp.bits[..block.prefixLen] == block.address.bits[..block.prefixLen]
    case None => reader.ip(text) == Some(clientIp)
  }

  lemma AdmitsIff(reader: RuleReader, clientIp: IpAddr, rule: string)
    ensures Admits(reader, clientIp, rule) <==> RuleAdmits(reader, clientIp, rule)
  {
    var text := Trim(rule);
    if text != [] && reader.net(text).Some? {
      ContainsIsSharedPrefix(reader.net(text).value, clientIp);
    }
  }

  /** The text, trimmed, is not empty and is a block or an address. */
  predicate IsRule(reader: RuleReader, rule: string) {
    var text := Trim(rule);
    |text| > 0 && (reader.net(text) != None || reader.ip(text) != None)
  }

  /** Some rule admits the client, and every rule before it can be read. */
  predicate ListAdmits(reader: RuleReader, clientIp: IpAddr, rules: seq<string>) {
    exists i ::
      && 0 <= i < |rules| && RuleAdmits(reader, clientIp, rules[i])
      && forall j :: 0 <= j < i ==> IsRule(reader, rules[j])
  }

  /** Some rule cannot be read, and no rule before it admits the client. */
  predicate ListFails(reader: RuleReader, clientIp: IpAddr, rules: seq<string>) {
    exists i ::
      && 0 <= i < |rules| && !IsRule(reader, rules[i])
      && forall j :: 0 <= j < i ==> !RuleAdmits(reader, clientIp, rules[j])
  }

  lemma AdmittedByFirstOrLater(reader: RuleReader, clientIp: IpAddr, rules: seq<string>)
    requires rules != []
    ensures ListAdmits(reader, clientIp, rules) <==>
            || RuleAdmits(reader, clientIp, rules[0])
            || (IsRule(reader, rules[0]) && ListAdmits(reader, clientIp, rules[1..]))
  {
    var rest := rules[1..];
    if ListAdmits(reader, clientIp, rules) && !RuleAdmits(reader, clientIp, rules[0]) {
      var i :| 0 <= i < |rules| && RuleAdmits(reader, clientIp, rules[i])
               && forall j :: 0 <= j < i ==> IsRule(reader, rules[j]);
      assert RuleAdmits(reader, clientIp, rest[i - 1]);
    }
    if IsRule(reader, rules[0]) && ListAdmits(reader, clientIp, rest) {
      var i :| 0 <= i < |rest| && RuleAdmits(reader, clientIp, rest[i])
               && forall j :: 0 <= j < i ==> IsRule(reader, rest[j]);
      assert RuleAdmits(reader, clientIp, rules[i + 1]);
    }
  }

  lemma FailsByFirstOrLater(reader: RuleReader, clientIp: IpAddr, rules: seq<string>)
    requires rules != []
    ensures ListFails(reader, clientIp, rules) <==>
            || !IsRule(reader, rules[0])
            || (!RuleAdmits(reader, clientIp, rules[0]) && ListFails(reader, clientIp, rules[1..]))
  {
    var rest := rules[1..];
    if ListFails(reader, clientIp, rules) && IsRule(reader, rules[0]) {
      var i :| 0 <= i < |rules| && !IsRule(reader, rules[i])
               && forall j :: 0 <= j < i ==> !RuleAdmits(reader, clientIp, rules[j]);
      assert !IsRule(reader, rest[i - 1]);
    }
    if !RuleAdmits(reader, clientIp, rules[0]) && ListFails(reader, clientIp, rest) {
      var i :| 0 <= i < |rest| && !IsRule(reader, rest[i])
               && forall j :: 0 <= j < i ==> !RuleAdmits(reader, clientIp, rest[j]);
      assert !IsRule(reader, rules[i + 1]);
    }
  }

  /** A list answers yes, no or an error by the first rule that admits the client or cannot be read. */
  lemma {:induction false} ListAnswers(reader: RuleReader, clientIp: IpAddr, rules: seq<string>)
    ensures IpAllowed(reader, clientIp, rules) == Ok(true) <==> ListAdmits(reader, clientIp, rules)
    ensures IpAllowed(reader, clientIp, rules).Err? <==> ListFails(reader, clientIp, rules)
    decreases |rules|
  {
    if rules != [] {
      AdmitsIff(reader, clientIp, rules[0]);
      ListAnswers(reader, clientIp, rules[1..]);
      AdmittedByFirstOrLater(reader, clientIp, rules);
      FailsByFirstOrLater(reader, clientIp, rules);
    }
  }

  /** The client's address is known and the list of the entry, if there is one, admits it. */
  predicate AddressIsAllowed(w: Surroundings, entry: PolicyEntry, request: Policy.Request) {
    entry.ipAllowlist.Some? ==>
      request.clientIp.Some? && ListAdmits(w.reader, request.clientIp.value, entry.ipAllowlist.value)
  }

  /** The secret can still be found in the environment and is not blank. */
  predicate SecretIsThere(w: Surroundings, config: JwtConfig) {
    config.secretEnv in w.secrets && Trim(w.secrets[config.secretEnv]) != []
  }

  /** The configured header, x-appsmith-signature by default, carries a well-signed token that has not expired. */
  predicate CarriesGoodToken(w: Surroundings, config: JwtConfig, request: Policy.Request, now: nat) {
    var header := match config.signatureHeader case Some(name) => name case None => "x-appsmith-signature";
    && config.secretEnv in w.secrets
    && header in request.headers && request.headers[header].Ascii?
    && var token := Trim(request.headers[header].text);
    && token != []
    && var exp := w.decode(token, w.secrets[config.secretEnv]);
    && exp.Some? && now < exp.value
  }

  /** A signed request is accepted exactly when the secret is there and it carries a good token. */
  lemma TokenIsAcceptedIff(w: Surroundings, config: JwtConfig, request: Policy.Request, now: nat)
    ensures VerifyJwtHs256At(w, config, request, now).Ok?
            <==> SecretIsThere(w, config) && CarriesGoodToken(w, config, request, now)
  {
  }

  /** What is wrong with a refused one: the secret, then the header, then the token. */
  lemma RefusedTokenErrors(w: Surroundings, config: JwtConfig, request: Policy.Request, now: nat)
    requires VerifyJwtHs256At(w, config, request, now).Err?
    ensures var header := match config.signatureHeader case Some(name) => name case None => "x-appsmith-signature";
      VerifyJwtHs256At(w, config, request, now).error ==
      if config.secretEnv !in w.secrets then SecretEnvMissing(config.secretEnv)
      else if !SecretIsThere(w, config) then SecretEnvEmpty(config.secretEnv)
      else if header !in request.headers then MissingSignatureHeader(header)
      else if request.headers[header] == NonAscii then NonAsciiHeader(header)
      else InvalidJwt
  {
  }

  predicate TokenIsAllowed(w: Surroundings, entry: PolicyEntry, request: Policy.Request, now: nat) {
    entry.requestVerification.Some? ==>
      && SecretIsThere(w, entry.requestVerification.value)
      && CarriesGoodToken(w, entry.requestVerification.value, request, now)
  }

  /** The entry is about this relayer. */
  predicate AppliesTo(entry: PolicyEntry, relayer: EvmAddress) {
    || entry.relayers == All
    || entry.relayers == One(relayer)
    || (entry.relayers.Many? && exists i ::
          0 <= i < |entry.relayers.addresses| && entry.relayers.addresses[i] == relayer)
  }

  predicate Passes(w: Surroundings, entry: PolicyEntry, request: Policy.Request, now: nat) {
    AddressIsAllowed(w, entry, request) && TokenIsAllowed(w, entry, request, now)
  }

  /** Entry i is the first that applies and does not let the request pass. */
  predicate FirstToRefuse(
    w: Surroundings, entries: seq<PolicyEntry>, request: Policy.Request, now: nat, relayer: EvmAddress, i: nat)
  {
    && i < |entries| && AppliesTo(entries[i], relayer) && !Passes(w, entries[i], request, now)
    && forall j :: 0 <= j < i && AppliesTo(entries[j], relayer) ==> Passes(w, entries[j], request, now)
  }

  /**
   What such an entry answers: 403 for an address that is unknown or not on the list,
   500 for a list that cannot be read so far, then 500 for a lost secret, then 401.
   */
  function StatusOf(w: Surroundings, entry: PolicyEntry, request: Policy.Request): Status {
    if !AddressIsAllowed(w, entry, request) then
      if request.clientIp.Some? && ListFails(w.reader, request.clientIp.value, entry.ipAllowlist.value)
      then InternalServerError
      else Forbidden
    else if entry.requestVerification.Some? && !SecretIsThere(w, entry.requestVerification.value)
      then InternalServerError
    else Unauthorized
  }

  lemma EntryIsCheckedSo(w: Surroundings, entry: PolicyEntry, request: Policy.Request, now: nat)
    ensures CheckEntry(w, entry, request, now) ==
            if Passes(w, entry, request, now) then None else Some(StatusOf(w, entry, request))
  {
    if entry.ipAllowlist.Some? && request.clientIp.Some? {
      ListAnswers(w.reader, request.clientIp.value, entry.ipAllowlist.value);
    }
    if entry.requestVerification.Some? {
      var config := entry.requestVerification.value;
      TokenIsAcceptedIff(w, config, request, now);
      LostSecretIsTheOperators(w, config, request, now);
    }
  }

  /** Every entry that applies lets the request pass. */
  predicate EveryEntryPasses(
    w: Surroundings, entries: seq<PolicyEntry>, request: Policy.Request, now: nat, relayer: EvmAddress)
  {
    forall i :: 0 <= i < |entries| && AppliesTo(entries[i], relayer) ==> Passes(w, entries[i], request, now)
  }

  ghost predicate RefusedWith(
    w: Surroundings, entries: seq<PolicyEntry>, request: Policy.Request, now: nat, relayer: EvmAddress, status: Status)
  {
    exists i: nat ::
      FirstToRefuse(w, entries, request, now, relayer, i) && StatusOf(w, entries[i], request) == status
  }

  lemma {:induction false} PolicyDecides(
    w: Surroundings, entries: seq<PolicyEntry>, request: Policy.Request, now: nat, relayer: EvmAddress)
    ensures var r := ValidateRequestPolicyEntries(w, entries, request, now, relayer);
      if r.None? then EveryEntryPasses(w, entries, request, now, relayer)
      else RefusedWith(w, entries, request, now, relayer, r.value)
    decreases |entries|
  {
    if entries != [] {
      var rest := entries[1..];
      assert forall i :: 0 < i < |entries| ==> entries[i] == rest[i - 1];
      PolicyDecides(w, rest, request, now, relayer);
      EntryIsCheckedSo(w, entries[0], request, now);
      if AppliesTo(entries[0], relayer) && !Passes(w, entries[0], request, now) {
        assert FirstToRefuse(w, entries, request, now, relayer, 0);
      } else {
        var r := ValidateRequestPolicyEntries(w, rest, request, now, relayer);
        if r.Some? {
          var i: nat :| FirstToRefuse(w, rest, request, now, relayer, i) && StatusOf(w, rest[i], request) == r.value;
          assert FirstToRefuse(w, entries, request, now, relayer, i + 1);
        }
      }
    }
  }

  /**
   For every configuration and every request: it passes exactly when every entry about
   the relayer allows its address and its token, and otherwise it is refused with the
   status of the first entry that does not.
   */
  lemma PolicyPassesIff(
    w: Surroundings, entries: seq<PolicyEntry>, request: Policy.Request, now: nat, relayer: EvmAddress)
    ensures var r := ValidateRequestPolicyEntries(w, entries, request, now, relayer);
      && (r == None <==> EveryEntryPasses(w, entries, request, now, relayer))
      && (forall status :: r == Some(status) <==> RefusedWith(w, entries, request, now, relayer, status))
  {
    var r := ValidateRequestPolicyEntries(w, entries, request, now, relayer);
    PolicyDecides(w, entries, request, now, relayer);
    forall status | RefusedWith(w, entries, request, now, relayer, status)
      ensures r == Some(status)
    {
      var i: nat :| FirstToRefuse(w, entries, request, now, relayer, i) && StatusOf(w, entries[i], request) == status;
      assert !EveryEntryPasses(w, entries, request, now, relayer);
      var j: nat :| FirstToRefuse(w, entries, request, now, relayer, j) && StatusOf(w, entries[j], request) == r.value;
      assert !(i < j) && !(j < i);
    }
  }

  // ---- What startup guarantees -----------------------------------------------------------------

  /**
   Startup accepts entries exactly when every rule is a block or an address, and every
   signature control names its secret and, if any, a header that can be one, and finds
   a secret that is not blank.
   */
  lemma AcceptedAtStartupIff(w: Surroundings, entries: seq<PolicyEntry>)
    ensures AcceptedAtStartup(w, entries) <==>
      && (forall i, j ::
            0 <= i < |entries| && entries[i].ipAllowlist.Some? && 0 <= j < |entries[i].ipAllowlist.value| ==>
              IsRule(w.reader, entries[i].ipAllowlist.value[j]))
      && (forall i :: 0 <= i < |entries| && entries[i].requestVerification.Some? ==>
            var config := entries[i].requestVerification.value;
            && Trim(config.secretEnv) != [] && SecretIsThere(w, config)
            && (config.signatureHeader.None?
                || (Trim(config.signatureHeader.value) != [] && w.validHeaderName(config.signatureHeader.value))))
  {
    forall i | 0 <= i < |entries| && entries[i].ipAllowlist.Some?
      ensures ValidateIpAllowlist(w.reader, entries[i].ipAllowlist.value).Ok? <==>
              forall j :: 0 <= j < |entries[i].ipAllowlist.value| ==>
                IsRule(w.reader, entries[i].ipAllowlist.value[j])
    {
      ValidatedIffReadable(w.reader, entries[i].ipAllowlist.value);
    }
  }

  /**
   With a configuration accepted at startup, whatever the environment has become: an
   internal error means that the first entry to refuse allows the address and has lost
   its secret, and while the secrets stay every refusal is the caller's, 403 or 401.
   */
  lemma AcceptedPolicyFailsOnlyOnLostSecrets(
    atStart: Surroundings, w: Surroundings, entries: seq<PolicyEntry>, request: Policy.Request, now: nat,
    relayer: EvmAddress)
    requires AcceptedAtStartup(atStart, entries) && w.reader == atStart.reader
    ensures ValidateRequestPolicyEntries(w, entries, request, now, relayer) == Some(InternalServerError) <==>
            exists i: nat ::
              && FirstToRefuse(w, entries, request, now, relayer, i)
              && AddressIsAllowed(w, entries[i], request)
              && entries[i].requestVerification.Some? && !SecretIsThere(w, entries[i].requestVerification.value)
    ensures w.secrets == atStart.secrets ==>
              ValidateRequestPolicyEntries(w, entries, request, now, relayer) != Some(InternalServerError)
  {
    AcceptedAtStartupIff(atStart, entries);
    PolicyPassesIff(w, entries, request, now, relayer);
    if i: nat :| FirstToRefuse(w, entries, request, now, relayer, i)
                 && StatusOf(w, entries[i], request) == InternalServerError {
      assert AddressIsAllowed(w, entries[i], request);
    }
  }
}
