/**
 * The Kubernetes NetworkPolicy generated for one allow rule of a package:
 * its name, its labels and annotations, the peers it allows traffic to or
 * from, and its ports, in a single ingress or egress rule.
 */
module NetworkGenerate {
  import opened Wrappers
  import opened Strings
  import opened AssocLists
  import opened Crd

  /** A label selector; `{}` (every object) is `LabelSelector(None)`. */
  datatype LabelSelector = LabelSelector(matchLabels: Option<Selector>)

  /** A NetworkPolicy peer: namespace and pod selectors, or an IP block. */
  datatype Peer = Peer(namespaceSelector: Option<LabelSelector>, podSelector: Option<LabelSelector>, ipBlock: Option<string>)

  datatype Mode = Ambient | Sidecar

  /**
   * The peer generators for the remoteGenerated values, the CIDR peer and the
   * two egress peers. The generator files are not part of this model; the
   * KubeAPI and KubeNodes peers come from cluster lookups.
   */
  datatype PeerGenerators = PeerGenerators(
    kubeAPI: seq<Peer>,
    kubeNodes: seq<Peer>,
    cloudMetadata: seq<Peer>,
    intraNamespace: Peer,
    anywhere: Peer,
    anywhereInCluster: Peer,
    remoteCidr: string -> Peer,
    egressWaypoint: Peer,
    egressGateway: Peer)

  /** One ingress or egress rule: the peers (`from` or `to`) and the ports. */
  datatype PolicyRule = PolicyRule(peers: seq<Peer>, ports: seq<int>)

  datatype NetworkPolicyMetadata = NetworkPolicyMetadata(
    name: string, namespace: string, labels: Selector, annotations: Option<Selector>)

  datatype NetworkPolicySpec = NetworkPolicySpec(
    policyTypes: seq<Direction>,
    podSelector: LabelSelector,
    ingress: Option<seq<PolicyRule>>,
    egress: Option<seq<PolicyRule>>)

  datatype NetworkPolicy = NetworkPolicy(
    apiVersion: string, kind: string, metadata: NetworkPolicyMetadata, spec: NetworkPolicySpec)

  const NamespaceNameLabel: string := "kubernetes.io/metadata.name"
  const GeneratedLabel: string := "uds/generated"
  const DescriptionAnnotation: string := "uds/description"

  /** A remote namespace that means every namespace. */
  predicate IsWildcardNamespace(namespace: string)
  {
    namespace == "" || namespace == "*"
  }

  // ---------------------------------------------------------------------
  // getPeers
  // ---------------------------------------------------------------------

  /** The peer for `remoteNamespace` and `remoteSelector`, each optional. */
  function SelectorPeer(remoteNamespace: Option<string>, remoteSelector: Option<Selector>): Peer
  {
    var namespaceSelector :=
      match remoteNamespace
      case None => None
      case Some(ns) => Some(if IsWildcardNamespace(ns) then LabelSelector(None) else LabelSelector(Some([(NamespaceNameLabel, ns)])));
    var podSelector :=
      match remoteSelector
      case None => None
      case Some(sel) => Some(LabelSelector(Some(sel)));
    Peer(namespaceSelector, podSelector, None)
  }

  /**
   * getPeers: a remoteGenerated value picks its generator; otherwise a remote
   * namespace or selector gives one selector peer; otherwise a CIDR gives its
   * IP block; otherwise a remote host gives the egress waypoint in ambient
   * mode and the egress gateway in any other; otherwise there is no peer.
   */
  function GetPeers(policy: Allow, istioMode: Option<Mode>, gen: PeerGenerators): seq<Peer>
  {
    if policy.remoteGenerated.Some? then
      match policy.remoteGenerated.value
      case KubeAPI => gen.kubeAPI
      case KubeNodes => gen.kubeNodes
      case CloudMetadata => gen.cloudMetadata
      case IntraNamespace => [gen.intraNamespace]
      case Anywhere => [gen.anywhere, gen.anywhereInCluster]
    else if policy.remoteNamespace.Some? || policy.remoteSelector.Some? then
      [SelectorPeer(policy.remoteNamespace, policy.remoteSelector)]
    else if policy.remoteCidr.Some? then
      [gen.remoteCidr(policy.remoteCidr.value)]
    else if Truthy(policy.remoteHost) then
      if istioMode == Some(Ambient) then [gen.egressWaypoint] else [gen.egressGateway]
    else []
  }

  // ---------------------------------------------------------------------
  // generateName
  // ---------------------------------------------------------------------

  /** `Object.values(labels || ["all pods"])`. */
  function ValuesOrAllPods(labels: Option<Selector>): (r: seq<string>)
    ensures labels.None? ==> r == ["all pods"]
    ensures labels.Some? ==> r == Values(labels.value)
  {
    match labels
    case None => ["all pods"]
    case Some(sel) => Values(sel)
  }

  /**
   * The pieces joined with "-" when there is no description: the selector's
   * values, then the remoteGenerated name, or else the remote namespace (""
   * when unset) and the remote selector's values. `flat(1)` leaves those last
   * values a nested array, which `join` writes with "," between them.
   */
  function NameParts(policy: Allow): seq<string>
  {
    ValuesOrAllPods(policy.selector)
    + match policy.remoteGenerated
      case Some(g) => [RemoteGeneratedName(g)]
      case None => [policy.remoteNamespace.UnwrapOr(""), Join(ValuesOrAllPods(policy.remoteSelector), ",")]
  }

  /** generateName: the direction, "-", then the description or the joined pieces. */
  function GenerateName(policy: Allow): string
  {
    DirectionName(policy.direction) + "-"
    + if Truthy(policy.description) then policy.description.value else Join(NameParts(policy), "-")
  }

  // ---------------------------------------------------------------------
  // generate
  // ---------------------------------------------------------------------

  /** The ports: every entry of `ports`, then `port` when it is set and not 0. */
  function PolicyPorts(policy: Allow): (r: seq<int>)
  {
    policy.ports.UnwrapOr([]) + (if policy.port.Some? && policy.port.value != 0 then [policy.port.value] else [])
  }

  /** The policy's labels: a copy of the rule's, plus the remoteGenerated name under "uds/generated". */
  function PolicyLabels(policy: Allow): Selector
  {
    var labels := policy.labels.UnwrapOr([]);
    match policy.remoteGenerated
    case None => labels
    case Some(g) => Put(labels, GeneratedLabel, RemoteGeneratedName(g))
  }

  /** generate: the NetworkPolicy for one allow rule in `namespace`. */
  function Generate(namespace: string, policy: Allow, istioMode: Option<Mode>, gen: PeerGenerators): NetworkPolicy
  {
    var rule := PolicyRule(GetPeers(policy, istioMode, gen), PolicyPorts(policy));
    NetworkPolicy(
      "networking.k8s.io/v1",
      "NetworkPolicy",
      NetworkPolicyMetadata(
        GenerateName(policy),
        namespace,
        PolicyLabels(policy),
        if Truthy(policy.description) then Some([(DescriptionAnnotation, policy.description.value)]) else None),
      NetworkPolicySpec(
        [policy.direction],
        LabelSelector(policy.selector),
        if policy.direction == Ingress then Some([rule]) else None,
        if policy.direction == Egress then Some([rule]) else None))
  }

  // ---------------------------------------------------------------------
  // Properties
  // ---------------------------------------------------------------------

  /** The name always starts with the direction; with a description it is the direction and the description. */
  lemma GenerateNamePrefix(policy: Allow)
    ensures StartsWith(GenerateName(policy), DirectionName(policy.direction) + "-")
    ensures Truthy(policy.description) ==> GenerateName(policy) == DirectionName(policy.direction) + "-" + policy.description.value
  {
    var prefix := DirectionName(policy.direction) + "-";
    var rest := if Truthy(policy.description) then policy.description.value else Join(NameParts(policy), "-");
    assert GenerateName(policy) == prefix + rest;
    assert (prefix + rest)[..|prefix|] == prefix;
  }

  /**
   * Without a description, the name lists the selector's values and then the
   * remote part: the remoteGenerated name when set, otherwise the remote
   * namespace followed by the remote selector's values.
   */
  lemma GenerateNameWithoutDescription(policy: Allow)
    requires !Truthy(policy.description)
    ensures var parts := NameParts(policy);
      var local := ValuesOrAllPods(policy.selector);
      && GenerateName(policy) == DirectionName(policy.direction) + "-" + Join(parts, "-")
      && parts[..|local|] == local
      && (policy.remoteGenerated.Some? ==> parts[|local|..] == [RemoteGeneratedName(policy.remoteGenerated.value)])
      && (policy.remoteGenerated.None? ==>
            parts[|local|..] == [policy.remoteNamespace.UnwrapOr(""), Join(ValuesOrAllPods(policy.remoteSelector), ",")])
  {
    var local := ValuesOrAllPods(policy.selector);
    var tail := match policy.remoteGenerated
      case Some(g) => [RemoteGeneratedName(g)]
      case None => [policy.remoteNamespace.UnwrapOr(""), Join(ValuesOrAllPods(policy.remoteSelector), ",")];
    assert NameParts(policy) == local + tail;
    assert (local + tail)[..|local|] == local;
    assert (local + tail)[|local|..] == tail;
  }

  /**
   * A remote namespace of "" or "*" selects every namespace (`{}`); any other
   * selects the namespace of that name; the remote selector is the pods'
   * selector when set.
   */
  lemma SelectorPeerNamespace(policy: Allow, istioMode: Option<Mode>, gen: PeerGenerators)
    requires policy.remoteGenerated.None? && policy.remoteNamespace.Some?
    ensures var peers := GetPeers(policy, istioMode, gen);
      && |peers| == 1
      && (IsWildcardNamespace(policy.remoteNamespace.value) <==> peers[0].namespaceSelector == Some(LabelSelector(None)))
      && (!IsWildcardNamespace(policy.remoteNamespace.value) ==>
            peers[0].namespaceSelector == Some(LabelSelector(Some([(NamespaceNameLabel, policy.remoteNamespace.value)]))))
      && (peers[0].podSelector.Some? <==> policy.remoteSelector.Some?)
      && (policy.remoteSelector.Some? ==> peers[0].podSelector == Some(LabelSelector(policy.remoteSelector)))
      && peers[0].ipBlock.None?
  {
  }

  /**
   * A remote host with nothing that takes precedence (no remoteGenerated,
   * remote namespace, remote selector or CIDR) goes through the egress
   * waypoint in ambient mode and through the egress gateway otherwise.
   */
  lemma RemoteHostPeers(policy: Allow, istioMode: Option<Mode>, gen: PeerGenerators)
    requires policy.remoteGenerated.None? && policy.remoteNamespace.None? && policy.remoteSelector.None?
    requires policy.remoteCidr.None?
    ensures Truthy(policy.remoteHost) && istioMode == Some(Ambient) ==> GetPeers(policy, istioMode, gen) == [gen.egressWaypoint]
    ensures Truthy(policy.remoteHost) && istioMode != Some(Ambient) ==> GetPeers(policy, istioMode, gen) == [gen.egressGateway]
    ensures !Truthy(policy.remoteHost) ==> GetPeers(policy, istioMode, gen) == []
  {
  }

  /** remoteGenerated decides the peers whatever else the rule says. */
  lemma RemoteGeneratedWins(policy: Allow, other: Allow, istioMode: Option<Mode>, gen: PeerGenerators)
    requires policy.remoteGenerated.Some? && other.remoteGenerated == policy.remoteGenerated
    ensures GetPeers(policy, istioMode, gen) == GetPeers(other, istioMode, gen)
  {
  }

  /** The ports are the `ports` list, in order, followed by `port` when it is set and not 0. */
  lemma PolicyPortsOrder(policy: Allow)
    ensures var ports := policy.ports.UnwrapOr([]);
      var r := PolicyPorts(policy);
      && r[..|ports|] == ports
      && |r| == |ports| + (if policy.port.Some? && policy.port.value != 0 then 1 else 0)
      && (|r| > |ports| ==> r[|ports|] == policy.port.value)
  {
    var ports := policy.ports.UnwrapOr([]);
    var extra := if policy.port.Some? && policy.port.value != 0 then [policy.port.value] else [];
    assert (ports + extra)[..|ports|] == ports;
  }

  /**
   * The policy has exactly one rule, under `ingress` for an ingress policy and
   * `egress` for an egress one, holding the peers and the ports; its type is
   * the direction and its pods are the rule's selector.
   */
  lemma GenerateHasOneRule(namespace: string, policy: Allow, istioMode: Option<Mode>, gen: PeerGenerators)
    ensures var np := Generate(namespace, policy, istioMode, gen);
      var rule := PolicyRule(GetPeers(policy, istioMode, gen), PolicyPorts(policy));
      && np.spec.policyTypes == [policy.direction]
      && np.spec.podSelector == LabelSelector(policy.selector)
      && (policy.direction == Ingress <==> np.spec.ingress.Some?)
      && (policy.direction == Egress <==> np.spec.egress.Some?)
      && (np.spec.ingress.Some? ==> np.spec.ingress.value == [rule])
      && (np.spec.egress.Some? ==> np.spec.egress.value == [rule])
      && np.metadata.name == GenerateName(policy)
      && np.metadata.namespace == namespace
  {
  }

  /**
   * The labels are the rule's, with "uds/generated" set to the
   * remoteGenerated name exactly when one is given; the description
   * annotation is present exactly when the description is non-empty.
   */
  lemma GenerateLabels(namespace: string, policy: Allow, istioMode: Option<Mode>, gen: PeerGenerators, key: string)
    ensures var md := Generate(namespace, policy, istioMode, gen).metadata;
      && (key != GeneratedLabel ==> Get(md.labels, key) == Get(policy.labels.UnwrapOr([]), key))
      && (policy.remoteGenerated.Some? ==> Get(md.labels, GeneratedLabel) == Some(RemoteGeneratedName(policy.remoteGenerated.value)))
      && (policy.remoteGenerated.None? ==> Get(md.labels, GeneratedLabel) == Get(policy.labels.UnwrapOr([]), GeneratedLabel))
      && (md.annotations.Some? <==> Truthy(policy.description))
  {
    var labels := policy.labels.UnwrapOr([]);
    if policy.remoteGenerated.Some? {
      PutGet(labels, GeneratedLabel, RemoteGeneratedName(policy.remoteGenerated.value), key);
      PutGet(labels, GeneratedLabel, RemoteGeneratedName(policy.remoteGenerated.value), GeneratedLabel);
    }
  }

  /**
   * Without a description, the nested remote selector values are written with
   * "," and everything else with "-".
   */
  lemma GenerateNameExample()
    ensures GenerateName(Allow(None, Ingress, None, None, None, None, None, None, None, Some("ns"), None, None,
                               Some([("x", "b"), ("y", "c")]), None, Some([("app", "a")])))
      == "Ingress-a-ns-b,c"
  {
    var policy := Allow(None, Ingress, None, None, None, None, None, None, None, Some("ns"), None, None,
                        Some([("x", "b"), ("y", "c")]), None, Some([("app", "a")]));
    assert Values([("x", "b"), ("y", "c")]) == ["b", "c"];
    assert Values([("app", "a")]) == ["a"];
    assert Join(["b", "c"], ",") == "b,c";
    assert NameParts(policy) == ["a", "ns", "b,c"];
    assert Join(["a", "ns", "b,c"], "-") == "a-ns-b,c";
  }
}
