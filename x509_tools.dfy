/**
 * Deriving a user's X.509 identity: the policy lookup in the leaf
 * certificate, the bounded scan of its policy slots against the accepted
 * catalog, the identity produced by the realm's custom-attribute
 * authenticator configuration, and the registration check against the user
 * store.
 */
module X509Tools {
  import opened Wrappers
  import Common
  import opened Keycloak

  /** Result of getCertificatePolicyId: an OID, null, or an exception. */
  datatype PolicyLookup = PolicyId(oid: string) | NoPolicyId | ParseFailure

  /**
   * getCertificatePolicyId. The selected slot is wrapped in a
   * CertificatePolicies holding exactly one PolicyInformation, so only
   * identifier position 0 can yield an OID; a negative position throws.
   */
  function GetCertificatePolicyId(cert: Certificate, certificatePolicyPos: int, policyIdentifierPos: int)
    : (r: PolicyLookup)
    ensures cert.policies.NoPolicyExtension? ==> r == NoPolicyId
    ensures cert.policies.UndecodablePolicyExtension? ==> r == ParseFailure
    ensures cert.policies.PolicySequence? && |cert.policies.entries| <= certificatePolicyPos ==> r == NoPolicyId
    ensures r.PolicyId? <==>
      cert.policies.PolicySequence? && 0 <= certificatePolicyPos < |cert.policies.entries|
      && cert.policies.entries[certificatePolicyPos].PolicyInformation? && policyIdentifierPos == 0
    ensures r.PolicyId? ==> r.oid == cert.policies.entries[certificatePolicyPos].policyIdentifier
  {
    match cert.policies
    case NoPolicyExtension => NoPolicyId
    case UndecodablePolicyExtension => ParseFailure
    case PolicySequence(entries) =>
      if |entries| <= certificatePolicyPos then NoPolicyId
      else if certificatePolicyPos < 0 then ParseFailure
      else
        match entries[certificatePolicyPos]
        case MalformedPolicyInformation => ParseFailure
        case PolicyInformation(oid) =>
          if 1 <= policyIdentifierPos then NoPolicyId
          else if policyIdentifierPos < 0 then ParseFailure
          else PolicyId(oid)
  }

  /** Slot `k` of the leaf yields an OID: the lookup neither returns null nor throws. */
  predicate SlotReadable(leaf: Certificate, k: int)
  {
    GetCertificatePolicyId(leaf, k, 0).PolicyId?
  }

  /** Slot `k` of the leaf yields an OID that `accept` admits. */
  predicate SlotAccepted(leaf: Certificate, k: int, accept: string -> bool)
  {
    SlotReadable(leaf, k) && accept(GetCertificatePolicyId(leaf, k, 0).oid)
  }

  /**
   * The scan's verdict: one of the first MaxCertPoliciesToCheck slots holds
   * an accepted OID and every slot before it is readable.
   */
  predicate HasAcceptedPolicy(leaf: Certificate, accept: string -> bool)
  {
    exists k :: 0 <= k < Common.MaxCertPoliciesToCheck && SlotAccepted(leaf, k, accept)
      && forall j :: 0 <= j < k ==> SlotReadable(leaf, j)
  }

  /** The verdict in terms of the certificate itself. */
  lemma HasAcceptedPolicyIff(leaf: Certificate, accept: string -> bool)
    ensures HasAcceptedPolicy(leaf, accept) <==>
      leaf.policies.PolicySequence?
      && (exists k :: 0 <= k < Common.MaxCertPoliciesToCheck && k < |leaf.policies.entries|
            && leaf.policies.entries[k].PolicyInformation?
            && accept(leaf.policies.entries[k].policyIdentifier)
            && forall j :: 0 <= j < k ==> leaf.policies.entries[j].PolicyInformation?)
  {
    if leaf.policies.PolicySequence? {
      var e := leaf.policies.entries;
      if HasAcceptedPolicy(leaf, accept) {
        var k :| 0 <= k < Common.MaxCertPoliciesToCheck && SlotAccepted(leaf, k, accept)
          && forall j :: 0 <= j < k ==> SlotReadable(leaf, j);
        forall j | 0 <= j < k ensures e[j].PolicyInformation? {
          assert SlotReadable(leaf, j);
        }
      }
      if k :| (0 <= k < Common.MaxCertPoliciesToCheck && k < |e| && e[k].PolicyInformation?
               && accept(e[k].policyIdentifier)
               && forall j :: 0 <= j < k ==> e[j].PolicyInformation?) {
        forall j | 0 <= j < k ensures SlotReadable(leaf, j) {
          assert e[j].PolicyInformation?;
        }
        assert SlotAccepted(leaf, k, accept);
      }
    }
  }

  /** Only the first MaxCertPoliciesToCheck slots of the leaf matter. */
  lemma VerdictReadsOnlyScannedSlots(a: Certificate, b: Certificate, accept: string -> bool)
    requires forall k :: 0 <= k < Common.MaxCertPoliciesToCheck ==>
      GetCertificatePolicyId(a, k, 0) == GetCertificatePolicyId(b, k, 0)
    ensures HasAcceptedPolicy(a, accept) <==> HasAcceptedPolicy(b, accept)
  {
    if HasAcceptedPolicy(a, accept) {
      var k :| 0 <= k < Common.MaxCertPoliciesToCheck && SlotAccepted(a, k, accept)
        && forall j :: 0 <= j < k ==> SlotReadable(a, j);
      forall j | 0 <= j < k ensures SlotReadable(b, j) {
        assert SlotReadable(a, j);
      }
      assert SlotAccepted(b, k, accept);
    }
    if HasAcceptedPolicy(b, accept) {
      var k :| 0 <= k < Common.MaxCertPoliciesToCheck && SlotAccepted(b, k, accept)
        && forall j :: 0 <= j < k ==> SlotReadable(b, j);
      forall j | 0 <= j < k ensures SlotReadable(a, j) {
        assert SlotReadable(b, j);
      }
      assert SlotAccepted(a, k, accept);
    }
  }

  // ---------------------------------------------------------------------
  // The identity stream
  // ---------------------------------------------------------------------

  /** The configurations carrying the custom-attribute key, in realm order. */
  function CustomAttributeConfigs(configs: seq<AuthenticatorConfig>): (r: seq<AuthenticatorConfig>)
    ensures forall c :: c in r <==> c in configs && CustomAttributeName in c.config
    ensures configs != [] && CustomAttributeName in configs[0].config ==> r != [] && r[0] == configs[0]
  {
    if configs == [] then []
    else if CustomAttributeName in configs[0].config then [configs[0]] + CustomAttributeConfigs(configs[1..])
    else CustomAttributeConfigs(configs[1..])
  }

  lemma {:induction false} FirstCustomAttributeConfigIsFirstInRealm(configs: seq<AuthenticatorConfig>)
    requires CustomAttributeConfigs(configs) != []
    ensures exists i :: (0 <= i < |configs| && configs[i] == CustomAttributeConfigs(configs)[0]
                         && forall j :: 0 <= j < i ==> CustomAttributeName !in configs[j].config)
  {
    if CustomAttributeName !in configs[0].config {
      FirstCustomAttributeConfigIsFirstInRealm(configs[1..]);
      var i :| 0 <= i < |configs[1..]| && configs[1..][i] == CustomAttributeConfigs(configs[1..])[0]
        && forall j :: 0 <= j < i ==> CustomAttributeName !in configs[1..][j].config;
      assert configs[i + 1] == CustomAttributeConfigs(configs)[0];
      forall j | 0 <= j < i + 1 ensures CustomAttributeName !in configs[j].config {
        if j > 0 {
          assert configs[j] == configs[1..][j - 1];
        }
      }
    }
  }

  /** A value computed by Java code, or the NullPointerException it threw. */
  datatype JavaResult<T> = Returned(value: T) | NullPointerException

  /**
   * The stream step as written: `filter(...).map(extract).findFirst().orElse(null)`.
   * findFirst throws a NullPointerException when the element it selects is
   * null, so a first matching configuration whose extraction is null throws
   * instead of yielding null.
   */
  function FirstIdentityAsWritten(configs: seq<AuthenticatorConfig>, chain: seq<Certificate>,
                                  extract: (AuthenticatorConfig, seq<Certificate>) -> Option<string>)
    : (r: JavaResult<Option<string>>)
    ensures r.NullPointerException? <==>
      CustomAttributeConfigs(configs) != [] && extract(CustomAttributeConfigs(configs)[0], chain).None?
  {
    var matching := CustomAttributeConfigs(configs);
    if matching == [] then Returned(None)
    else
      var first := extract(matching[0], chain);
      if first.None? then NullPointerException else Returned(first)
  }

  /**
   * The stream step as evidently intended: the identity extracted under the
   * first configuration with the custom-attribute key, null when there is
   * none or when that extraction is null.
   */
  function FirstIdentity(configs: seq<AuthenticatorConfig>, chain: seq<Certificate>,
                         extract: (AuthenticatorConfig, seq<Certificate>) -> Option<string>)
    : (r: Option<string>)
    ensures (forall c :: c in configs ==> CustomAttributeName !in c.config) ==> r == None
    ensures r.Some? ==>
      exists i :: (0 <= i < |configs| && CustomAttributeName in configs[i].config
                   && r == extract(configs[i], chain)
                   && forall j :: 0 <= j < i ==> CustomAttributeName !in configs[j].config)
  {
    var matching := CustomAttributeConfigs(configs);
    if matching == [] then None
    else
      FirstCustomAttributeConfigIsFirstInRealm(configs);
      extract(matching[0], chain)
  }

  /** The first configuration with the key is the head of the filtered stream. */
  lemma {:induction false} FirstKeyedHeadsFilter(configs: seq<AuthenticatorConfig>, i: nat)
    requires i < |configs| && CustomAttributeName in configs[i].config
    requires forall j :: 0 <= j < i ==> CustomAttributeName !in configs[j].config
    ensures CustomAttributeConfigs(configs) != [] && CustomAttributeConfigs(configs)[0] == configs[i]
  {
    if i > 0 {
      assert CustomAttributeName !in configs[0].config;
      forall j | 0 <= j < i - 1 ensures CustomAttributeName !in configs[1..][j].config {
        assert configs[1..][j] == configs[j + 1];
      }
      FirstKeyedHeadsFilter(configs[1..], i - 1);
    }
  }

  /**
   * The corrected stream step returns exactly the extraction under the first
   * configuration that carries the custom-attribute key.
   */
  lemma FirstIdentityUsesFirstKeyedConfig(configs: seq<AuthenticatorConfig>, chain: seq<Certificate>,
                                          extract: (AuthenticatorConfig, seq<Certificate>) -> Option<string>,
                                          i: nat)
    requires i < |configs| && CustomAttributeName in configs[i].config
    requires forall j :: 0 <= j < i ==> CustomAttributeName !in configs[j].config
    ensures FirstIdentity(configs, chain, extract) == extract(configs[i], chain)
  {
    FirstKeyedHeadsFilter(configs, i);
  }

  /** Wherever the source returns normally, the corrected step returns the same value. */
  lemma FirstIdentityAgreesWhereSourceReturns(configs: seq<AuthenticatorConfig>, chain: seq<Certificate>,
                                              extract: (AuthenticatorConfig, seq<Certificate>) -> Option<string>)
    ensures FirstIdentityAsWritten(configs, chain, extract).Returned? ==>
      FirstIdentityAsWritten(configs, chain, extract).value == FirstIdentity(configs, chain, extract)
    ensures FirstIdentityAsWritten(configs, chain, extract).NullPointerException? ==>
      FirstIdentity(configs, chain, extract) == None
  {
  }

  /** The input that shows the exception: one custom-attribute configuration whose extraction is null. */
  lemma NullExtractionThrows(chain: seq<Certificate>)
    ensures var configs := [AuthenticatorConfig("x509", map[CustomAttributeName := "usercertificate"])];
      var extract := (c: AuthenticatorConfig, certs: seq<Certificate>) => None;
      FirstIdentityAsWritten(configs, chain, extract) == NullPointerException
      && FirstIdentity(configs, chain, extract) == None
  {
    var configs := [AuthenticatorConfig("x509", map[CustomAttributeName := "usercertificate"])];
    assert CustomAttributeConfigs(configs) == configs;
  }

  // ---------------------------------------------------------------------
  // getX509IdentityFromCertChain
  // ---------------------------------------------------------------------

  /** What getX509IdentityFromCertChain returns (with the corrected stream step). */
  function IdentityFromCertChain(certs: Option<seq<Certificate>>, realm: Realm, platform: Platform)
    : (r: Option<string>)
    ensures certs.None? || certs.value == [] ==> r == None
    ensures r.Some? ==> certs.Some? && certs.value != [] && HasAcceptedPolicy(certs.value[0], Common.IsAcceptedPolicy)
    ensures r.Some? ==>
      exists c :: (c in realm.authenticatorConfigs && CustomAttributeName in c.config
                   && platform.extractIdentity(c, certs.value) == r)
    ensures certs.Some? && certs.value != [] && HasAcceptedPolicy(certs.value[0], Common.IsAcceptedPolicy) ==>
      r == FirstIdentity(realm.authenticatorConfigs, certs.value, platform.extractIdentity)
  {
    if certs.None? || |certs.value| == 0 then None
    else if !HasAcceptedPolicy(certs.value[0], Common.IsAcceptedPolicy) then None
    else if |realm.authenticatorConfigs| > 0 then
      FirstIdentity(realm.authenticatorConfigs, certs.value, platform.extractIdentity)
    else None
  }

  /**
   * The scan loop of getX509IdentityFromCertChain: reads slots 0, 1, ... of
   * the leaf certificate (identifier position 0 each time) until `accept`
   * admits an OID, a slot yields null, a lookup throws, or
   * MaxCertPoliciesToCheck slots were read. `slotsRead` is the number of
   * lookups that returned an OID.
   */
  method ScanLeafPolicies(leaf: Certificate, accept: string -> bool)
    returns (hasValidPolicy: bool, ghost slotsRead: nat)
    ensures hasValidPolicy == HasAcceptedPolicy(leaf, accept)
    ensures slotsRead <= Common.MaxCertPoliciesToCheck
    ensures hasValidPolicy ==>
      (1 <= slotsRead && SlotAccepted(leaf, slotsRead - 1, accept)
       && forall j :: 0 <= j < slotsRead - 1 ==> SlotReadable(leaf, j) && !SlotAccepted(leaf, j, accept))
  {
    slotsRead := 0;
    hasValidPolicy := false;
    var index := 0;
    ghost var stopped := false;
    while !hasValidPolicy && index < Common.MaxCertPoliciesToCheck
      invariant 0 <= index <= Common.MaxCertPoliciesToCheck
      invariant !stopped && !hasValidPolicy ==>
        forall j :: 0 <= j < index ==> SlotReadable(leaf, j) && !SlotAccepted(leaf, j, accept)
      invariant hasValidPolicy ==>
        (!stopped && 1 <= index && SlotAccepted(leaf, index - 1, accept)
         && forall j :: 0 <= j < index - 1 ==> SlotReadable(leaf, j) && !SlotAccepted(leaf, j, accept))
      invariant stopped ==>
        (!hasValidPolicy && slotsRead < Common.MaxCertPoliciesToCheck && !SlotReadable(leaf, slotsRead)
         && forall j :: 0 <= j < slotsRead ==> SlotReadable(leaf, j) && !SlotAccepted(leaf, j, accept))
      invariant stopped ==> index == Common.MaxCertPoliciesToCheck
      invariant !stopped ==> slotsRead == index
      decreases Common.MaxCertPoliciesToCheck - index
    {
      var policy := GetCertificatePolicyId(leaf, index, 0);
      match policy
      case ParseFailure =>
        // the lookup threw: abort the scan
        stopped := true;
        index := Common.MaxCertPoliciesToCheck;
      case NoPolicyId =>
        stopped := true;
        break;
      case PolicyId(oid) =>
        hasValidPolicy := accept(oid);
        index := index + 1;
        slotsRead := index;
    }

    if !hasValidPolicy {
      forall k | 0 <= k < Common.MaxCertPoliciesToCheck
        ensures !(SlotAccepted(leaf, k, accept) && forall j :: 0 <= j < k ==> SlotReadable(leaf, j))
      {
        if stopped && slotsRead < k {
          assert !SlotReadable(leaf, slotsRead);
        }
      }
    }
  }

  /** getX509IdentityFromCertChain: the leaf's policy scan against the catalog, then the identity stream. */
  method GetX509IdentityFromCertChain(certs: Option<seq<Certificate>>, realm: Realm, platform: Platform)
    returns (identity: Option<string>)
    ensures identity == IdentityFromCertChain(certs, realm, platform)
  {
    if certs.None? || |certs.value| == 0 {
      return None;
    }
    var hasValidPolicy, _ := ScanLeafPolicies(certs.value[0], Common.IsAcceptedPolicy);
    if !hasValidPolicy {
      return None;
    }
    if |realm.authenticatorConfigs| > 0 {
      identity := FirstIdentity(realm.authenticatorConfigs, certs.value, platform.extractIdentity);
    } else {
      identity := None;
    }
  }

  // ---------------------------------------------------------------------
  // getX509Identity, getX509Username, isX509Registered
  // ---------------------------------------------------------------------

  /** getX509Identity: null without a session, request, realm or lookup provider, or when the lookup throws. */
  function GetX509Identity(env: RequestEnv): (r: Option<string>)
    ensures !env.sessionPresent || !env.requestPresent || env.realm.None? ==> r == None
    ensures env.lookup.NoLookupProvider? || env.lookup.LookupFails? ==> r == None
    ensures r.Some? ==>
      (env.realm.Some? && env.lookup.LookupChain?
       && r == IdentityFromCertChain(env.lookup.chain, env.realm.value, env.platform))
    ensures env.sessionPresent && env.requestPresent && env.realm.Some? && env.lookup.LookupChain? ==>
      r == IdentityFromCertChain(env.lookup.chain, env.realm.value, env.platform)
  {
    if !env.sessionPresent || !env.requestPresent || env.realm.None? then None
    else
      match env.lookup
      case NoLookupProvider => None
      case LookupFails => None
      case LookupChain(chain) => IdentityFromCertChain(chain, env.realm.value, env.platform)
  }

  /** getX509Username: the identity string, or null when it is null or empty. */
  function GetX509Username(env: RequestEnv): (r: Option<string>)
    ensures r.Some? ==> r.value != "" && r == GetX509Identity(env)
    ensures r.None? <==> GetX509Identity(env).None? || GetX509Identity(env).value == ""
  {
    var identity := GetX509Identity(env);
    if identity.Some? && identity.value != "" then identity else None
  }

  /** The realm behind a context that produced an X.509 username. */
  lemma UsernameNeedsRealm(env: RequestEnv)
    ensures GetX509Username(env).Some? ==> env.realm.Some?
  {
  }

  /** isX509Registered: some user already carries the username in `usercertificate`. */
  function IsX509Registered(env: RequestEnv): (r: bool)
    ensures GetX509Username(env).None? ==> !r
    ensures GetX509Username(env).Some? ==>
      (r <==> var users := env.realm.value.searchByAttribute(Common.UserIdAttribute, GetX509Username(env).value);
              users.Some? && |users.value| > 0)
  {
    var username := GetX509Username(env);
    if username.None? then false
    else
      var users := env.realm.value.searchByAttribute(Common.UserIdAttribute, username.value);
      users.Some? && |users.value| > 0
  }

  /**
   * A registered X.509 user is only ever found for a request in a realm whose
   * certificate chain has an accepted leaf, searched under the non-empty
   * identity that a custom-attribute configuration extracts from that chain.
   */
  lemma RegisteredOnlyWithAcceptedCertificate(env: RequestEnv)
    ensures IsX509Registered(env) ==>
      env.sessionPresent && env.requestPresent && env.realm.Some? && env.lookup.LookupChain?
      && env.lookup.chain.Some? && env.lookup.chain.value != []
      && HasAcceptedPolicy(env.lookup.chain.value[0], Common.IsAcceptedPolicy)
      && exists c :: (c in env.realm.value.authenticatorConfigs && CustomAttributeName in c.config
                      && env.platform.extractIdentity(c, env.lookup.chain.value) == GetX509Username(env)
                      && GetX509Username(env).value != "")
  {
    if IsX509Registered(env) {
      assert GetX509Identity(env) == IdentityFromCertChain(env.lookup.chain, env.realm.value, env.platform);
    }
  }
}
