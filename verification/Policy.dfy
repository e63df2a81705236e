/**
 The request policy of a relayer: IP allowlists, the JWT that callers must
 present, the order in which they are asked, and what startup guarantees.
 */
module Policy {
  import opened Prelude
  import opened Cidr
  import opened Permissions
  import opened Text

  // ---- IP allowlists ------------------------------------------------------------

  /** The two readings of a rule's text: a CIDR block or a single address. */
  datatype RuleReader = RuleReader(net: string -> Option<IpNet>, ip: string -> Option<IpAddr>)

  /** The error carries the trimmed rule. */
  function RuleMatches(reader: RuleReader, clientIp: IpAddr, rule: string): Result<bool, string> {
    var text := Trim(rule);
    if text == [] then Err(text)
    else if reader.net(text).Some? then Ok(Contains(reader.net(text).value, clientIp))
    else if reader.ip(text).Some? then Ok(reader.ip(text).value == clientIp)
    else Err(text)
  }

  function ValidateIpAllowlist(reader: RuleReader, rules: seq<string>): Result<(), string> {
    if rules == [] then Ok(())
    else
      var first := RuleMatches(reader, Unspecified(), rules[0]);
      if first.Err? then Err(first.error) else ValidateIpAllowlist(reader, rules[1..])
  }

  function IpAllowed(reader: RuleReader, clientIp: IpAddr, rules: seq<string>): Result<bool, string> {
    if rules == [] then Ok(false)
    else
      var first := RuleMatches(reader, clientIp, rules[0]);
      if first == Ok(false) then IpAllowed(reader, clientIp, rules[1..]) else first
  }

  /** The rule is a block or an address at all, whoever asks. */
  predicate Readable(reader: RuleReader, rule: string) {
    Trim(rule) != [] && (reader.net(Trim(rule)).Some? || reader.ip(Trim(rule)).Some?)
  }

  predicate Admits(reader: RuleReader, clientIp: IpAddr, rule: string) {
    RuleMatches(reader, clientIp, rule) == Ok(true)
  }

  /** Rule i is the first that decides: the rules before it are readable and admit the client not. */
  predicate Decides(reader: RuleReader, clientIp: IpAddr, rules: seq<string>, i: nat) {
    && i < |rules|
    && (Admits(reader, clientIp, rules[i]) || !Readable(reader, rules[i]))
    && forall j :: 0 <= j < i ==> Readable(reader, rules[j]) && !Admits(reader, clientIp, rules[j])
  }

  /** Padding around a rule never matters. */
  lemma PaddedRuleIsTheSame(reader: RuleReader, clientIp: IpAddr, before: string, rule: string, after: string)
    requires Blank(before) && Blank(after)
    ensures RuleMatches(reader, clientIp, before + rule + after) == RuleMatches(reader, clientIp, rule)
  {
    TrimDropsPadding(before, rule, after);
  }

  lemma DecidesShift(reader: RuleReader, clientIp: IpAddr, rules: seq<string>, i: nat)
    requires rules != [] && Readable(reader, rules[0]) && !Admits(reader, clientIp, rules[0])
    ensures Decides(reader, clientIp, rules, i) <==> i > 0 && Decides(reader, clientIp, rules[1..], i - 1)
  {
    if i > 0 && Decides(reader, clientIp, rules[1..], i - 1) {
      assert forall j :: 0 < j < i ==> rules[j] == rules[1..][j - 1];
    }
    if Decides(reader, clientIp, rules, i) {
      assert forall j :: 0 <= j < i - 1 ==> rules[1..][j] == rules[j + 1];
    }
  }

  /** The answer is the first deciding rule's, and "not allowed" when no rule decides. */
  lemma {:induction false} FirstDecidingRuleAnswers(reader: RuleReader, clientIp: IpAddr, rules: seq<string>)
    ensures forall i: nat :: Decides(reader, clientIp, rules, i) ==>
              IpAllowed(reader, clientIp, rules)
              == (if Readable(reader, rules[i]) then Ok(true) else Err(Trim(rules[i])))
    ensures IpAllowed(reader, clientIp, rules) == Ok(false) <==> forall i: nat :: !Decides(reader, clientIp, rules, i)
    decreases |rules|
  {
    if rules == [] {
    } else if Admits(reader, clientIp, rules[0]) || !Readable(reader, rules[0]) {
      assert Decides(reader, clientIp, rules, 0);
    } else {
      FirstDecidingRuleAnswers(reader, clientIp, rules[1..]);
      forall i: nat
        ensures Decides(reader, clientIp, rules, i) <==> i > 0 && Decides(reader, clientIp, rules[1..], i - 1)
      {
        DecidesShift(reader, clientIp, rules, i);
      }
      forall i: nat
        ensures Decides(reader, clientIp, rules[1..], i) <==> Decides(reader, clientIp, rules, i + 1)
      {
        DecidesShift(reader, clientIp, rules, i + 1);
      }
    }
  }

  /** Startup's sentinel finds exactly the lists in which some rule is unreadable. */
  lemma {:induction false} ValidatedIffReadable(reader: RuleReader, rules: seq<string>)
    ensures ValidateIpAllowlist(reader, rules).Ok? <==> forall i :: 0 <= i < |rules| ==> Readable(reader, rules[i])
    decreases |rules|
  {
    if rules != [] {
      ValidatedIffReadable(reader, rules[1..]);
      assert forall i :: 1 <= i < |rules| ==> rules[i] == rules[1..][i - 1];
    }
  }

  /** A list accepted at startup never fails for any client, and allows it exactly when some rule admits it. */
  lemma {:induction false} ValidatedListsDecide(reader: RuleReader, clientIp: IpAddr, rules: seq<string>)
    requires ValidateIpAllowlist(reader, rules).Ok?
    ensures IpAllowed(reader, clientIp, rules) == Ok(exists i :: 0 <= i < |rules| && Admits(reader, clientIp, rules[i]))
    decreases |rules|
  {
    if rules != [] {
      ValidatedListsDecide(reader, clientIp, rules[1..]);
      assert forall i :: 1 <= i < |rules| ==> rules[i] == rules[1..][i - 1];
    }
  }

  /** For a list accepted at startup, neither the order of the rules nor repeating them matters. */
  lemma RuleOrderDoesNotMatter(reader: RuleReader, clientIp: IpAddr, a: seq<string>, b: seq<string>)
    requires ValidateIpAllowlist(reader, a).Ok?
    requires forall rule :: rule in a <==> rule in b
    ensures IpAllowed(reader, clientIp, a) == IpAllowed(reader, clientIp, b)
  {
    ValidatedIffReadable(reader, a);
    ValidatedIffReadable(reader, b);
    assert ValidateIpAllowlist(reader, b).Ok? by {
      forall i | 0 <= i < |b|
        ensures Readable(reader, b[i])
      {
        assert b[i] in a;
      }
    }
    ValidatedListsDecide(reader, clientIp, a);
    ValidatedListsDecide(reader, clientIp, b);
    if i :| 0 <= i < |a| && Admits(reader, clientIp, a[i]) {
      assert a[i] in b;
    }
    if i :| 0 <= i < |b| && Admits(reader, clientIp, b[i]) {
      assert b[i] in a;
    }
  }

  // ---- Signed requests ------------------------------------------------------------

  datatype JwtConfig = JwtConfig(secretEnv: string, signatureHeader: Option<string>)
  {
    function Header(): string {
      if signatureHeader.Some? then signatureHeader.value else "x-appsmith-signature"
    }
  }

  datatype HeaderValue = Ascii(text: string) | NonAscii

  datatype Request = Request(clientIp: Option<IpAddr>, headers: map<string, HeaderValue>)

  /**
   What the process finds around it: its environment variables, the readers, and
   the token library, which answers a token and a secret with the `exp` claim of
   a well-signed token and with None for every other.
   */
  datatype Surroundings = Surroundings(
    secrets: map<string, string>, reader: RuleReader,
    decode: (string, string) -> Option<nat>, validHeaderName: string -> bool)

  datatype SignatureError =
    | SecretEnvMissing(name: string)
    | SecretEnvEmpty(name: string)
    | MissingSignatureHeader(header: string)
    | NonAsciiHeader(header: string)
    | InvalidJwt

  function VerifyJwtHs256At(w: Surroundings, config: JwtConfig, request: Request, now: nat)
    : Result<(), SignatureError>
  {
    if config.secretEnv !in w.secrets then Err(SecretEnvMissing(config.secretEnv))
    else
      var secret := w.secrets[config.secretEnv];
      if Trim(secret) == [] then Err(SecretEnvEmpty(config.secretEnv))
      else
        var header := config.Header();
        if header !in request.headers then Err(MissingSignatureHeader(header))
        else if request.headers[header].NonAscii? then Err(NonAsciiHeader(header))
        else
          var token := Trim(request.headers[header].text);
          if token == [] then Err(InvalidJwt)
          else
            var exp := w.decode(token, secret);
            if exp.None? || exp.value <= now then Err(InvalidJwt) else Ok(())
  }

  predicate SecretUsable(w: Surroundings, config: JwtConfig) {
    config.secretEnv in w.secrets && Trim(w.secrets[config.secretEnv]) != []
  }

  predicate OperatorFault(r: Result<(), SignatureError>) {
    r.Err? && (r.error.SecretEnvMissing? || r.error.SecretEnvEmpty?)
  }

  /** A lost secret is reported as the operator's fault for every request, and nothing else is. */
  lemma LostSecretIsTheOperators(w: Surroundings, config: JwtConfig, request: Request, now: nat)
    ensures OperatorFault(VerifyJwtHs256At(w, config, request, now)) <==> !SecretUsable(w, config)
  {
  }

  /** At each moment this request is accepted or not; nothing else varies. */
  predicate AcceptedAt(w: Surroundings, config: JwtConfig, request: Request, now: nat) {
    VerifyJwtHs256At(w, config, request, now).Ok?
  }

  /**
   Zero leeway: a request is never accepted, or it carries a token that is
   accepted strictly before its `exp` and at no moment from then on.
   */
  lemma TokenIsGoodStrictlyBeforeExp(w: Surroundings, config: JwtConfig, request: Request)
    ensures
      || (forall now: nat :: !AcceptedAt(w, config, request, now))
      || exists token: string, exp: nat ::
           && config.secretEnv in w.secrets && w.decode(token, w.secrets[config.secretEnv]) == Some(exp)
           && forall now: nat :: AcceptedAt(w, config, request, now) <==> now < exp
  {
    if early: nat :| AcceptedAt(w, config, request, early) {
      var token := Trim(request.headers[config.Header()].text);
      var exp := w.decode(token, w.secrets[config.secretEnv]).value;
      assert forall now: nat :: AcceptedAt(w, config, request, now) <==> now < exp;
    }
  }

  // ---- The policy -------------------------------------------------------------------

  datatype PolicyEntry = PolicyEntry(
    relayers: AllOrOneOrMany, ipAllowlist: Option<seq<string>>, requestVerification: Option<JwtConfig>)

  datatype Status = Forbidden | Unauthorized | InternalServerError

  function CheckIp(w: Surroundings, rules: seq<string>, request: Request): Option<Status> {
    if request.clientIp.None? then Some(Forbidden)
    else
      var allowed := IpAllowed(w.reader, request.clientIp.value, rules);
      if allowed.Err? then Some(InternalServerError)
      else if !allowed.value then Some(Forbidden)
      else None
  }

  function CheckSignature(w: Surroundings, config: JwtConfig, request: Request, now: nat): Option<Status> {
    var verdict := VerifyJwtHs256At(w, config, request, now);
    if verdict.Ok? then None
    else match verdict.error
      case SecretEnvMissing(_) => Some(InternalServerError)
      case SecretEnvEmpty(_) => Some(InternalServerError)
      case _ => Some(Unauthorized)
  }

  /** What one matching entry answers: IP before signature. */
  function CheckEntry(w: Surroundings, entry: PolicyEntry, request: Request, now: nat): Option<Status> {
    var byIp := if entry.ipAllowlist.Some? then CheckIp(w, entry.ipAllowlist.value, request) else None;
    if byIp.Some? then byIp
    else if entry.requestVerification.Some?
      then CheckSignature(w, entry.requestVerification.value, request, now)
    else None
  }

  function ValidateRequestPolicyEntries(
    w: Surroundings, entries: seq<PolicyEntry>, request: Request, now: nat, relayer: EvmAddress): Option<Status>
  {
    if entries == [] then None
    else
      var own := if entries[0].relayers.Contains(relayer) then CheckEntry(w, entries[0], request, now) else None;
      if own.Some? then own else ValidateRequestPolicyEntries(w, entries[1..], request, now, relayer)
  }

  /** Entries compose with "and": adding entries anywhere can only refuse more. */
  lemma {:induction false} PoliciesCompose(
    w: Surroundings, a: seq<PolicyEntry>, b: seq<PolicyEntry>, request: Request, now: nat, relayer: EvmAddress)
    ensures ValidateRequestPolicyEntries(w, a + b, request, now, relayer)
            == var first := ValidateRequestPolicyEntries(w, a, request, now, relayer);
               if first.Some? then first else ValidateRequestPolicyEntries(w, b, request, now, relayer)
    decreases |a|
  {
    if a == [] {
      assert a + b == b;
    } else {
      assert (a + b)[1..] == a[1..] + b;
      PoliciesCompose(w, a[1..], b, request, now, relayer);
    }
  }

  // ---- What startup guarantees --------------------------------------------------------

  predicate ValidateJwtConfig(w: Surroundings, config: JwtConfig) {
    && Trim(config.secretEnv) != []
    && (config.signatureHeader.Some? ==>
          Trim(config.signatureHeader.value) != [] && w.validHeaderName(config.signatureHeader.value))
    && SecretUsable(w, config)
  }

  /** The checks of the configuration reader on one network's entries. */
  predicate AcceptedAtStartup(w: Surroundings, entries: seq<PolicyEntry>) {
    forall i :: 0 <= i < |entries| ==>
      && (entries[i].ipAllowlist.Some? ==> ValidateIpAllowlist(w.reader, entries[i].ipAllowlist.value).Ok?)
      && (entries[i].requestVerification.Some? ==> ValidateJwtConfig(w, entries[i].requestVerification.value))
  }
}
