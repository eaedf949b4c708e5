/**
 * The DENY AuthorizationPolicies generated for a package: every allow or
 * expose rule that names ports becomes a rule "deny traffic from anyone but
 * this source to any port but these"; rules with a selector are grouped per
 * selector into one workload policy each, rules without one into a single
 * namespace policy. Rules of a group whose sources are identical share one
 * entry whose port set is the union of their ports.
 */
module AuthorizationPolicies {
  import opened Wrappers
  import opened Strings
  import opened AssocLists
  import opened UniqueLists
  import opened Crd

  /**
   * A rule's `source`: each is built with exactly one of the three fields,
   * holding one element, so comparing the JSON texts of two sources is
   * comparing these values.
   */
  datatype PolicySource =
    | Namespaces(namespaces: seq<string>)
    | NotNamespaces(notNamespaces: seq<string>)
    | Principals(principals: seq<string>)

  /** One entry of a group: a source and its port set (a Set, kept in insertion order). */
  datatype GroupRule = GroupRule(source: PolicySource, ports: seq<string>)

  /** What processRule extracts from one rule before grouping it. */
  datatype Processed = Processed(selector: Option<Selector>, source: PolicySource, ports: seq<string>)

  /** The workload groups (a Map keyed by the selector's JSON, in insertion order) and the namespace group. */
  datatype Groups = Groups(workload: seq<(Selector, seq<GroupRule>)>, ns: seq<GroupRule>)

  const AdminGatewayNamespace: string := "istio-admin-gateway"

  // ---------------------------------------------------------------------
  // processRule
  // ---------------------------------------------------------------------

  /** Each port as its decimal text. */
  function PortTexts(ports: seq<int>): (r: seq<string>)
    ensures |r| == |ports|
    ensures forall i :: 0 <= i < |ports| ==> r[i] == IntToString(ports[i])
  {
    seq(|ports|, i requires 0 <= i < |ports| => IntToString(ports[i]))
  }

  /**
   * The ports of a rule: `port` when defined (0 included), then every entry
   * of `ports`. No port at all means the rule is skipped.
   */
  function RulePorts(port: Option<int>, ports: Option<seq<int>>): (r: seq<string>)
    ensures r == [] <==> port.None? && (ports.None? || ports.value == [])
    ensures port.Some? ==> r[0] == IntToString(port.value)
    ensures forall p :: p in r <==>
      (port.Some? && p == IntToString(port.value)) || (ports.Some? && exists i :: 0 <= i < |ports.value| && p == IntToString(ports.value[i]))
  {
    (if port.Some? then [IntToString(port.value)] else []) + (if ports.Some? then PortTexts(ports.value) else [])
  }

  /** A remote namespace that names one namespace: set, non-empty and not "*". */
  predicate NamesNamespace(ns: Option<string>) { Truthy(ns) && ns.value != "*" }

  /** The principal of a service account in a namespace. */
  function Principal(ns: string, serviceAccount: string): string
  {
    "cluster.local/ns/" + ns + "/sa/" + serviceAccount
  }

  /** The source of an allow rule, before a service account is considered. */
  function AllowNamespaceSource(rule: Allow, pkgNamespace: string): (r: PolicySource)
    ensures rule.remoteGenerated == Some(IntraNamespace) ==> r == Namespaces([pkgNamespace])
    ensures rule.remoteGenerated != Some(IntraNamespace) && NamesNamespace(rule.remoteNamespace) ==>
      r == Namespaces([rule.remoteNamespace.value])
    ensures rule.remoteGenerated != Some(IntraNamespace) && !NamesNamespace(rule.remoteNamespace) ==>
      r == if rule.remoteNamespace == Some("*") || rule.remoteGenerated == Some(Anywhere)
           then NotNamespaces([pkgNamespace]) else Namespaces([pkgNamespace])
  {
    if rule.remoteGenerated == Some(IntraNamespace) then Namespaces([pkgNamespace])
    else if Truthy(rule.remoteNamespace) && rule.remoteNamespace.value != "*" then Namespaces([rule.remoteNamespace.value])
    else if rule.remoteNamespace == Some("*") || rule.remoteGenerated == Some(Anywhere) then NotNamespaces([pkgNamespace])
    else Namespaces([pkgNamespace])
  }

  /** A service account that is set and not blank after trimming. */
  predicate HasServiceAccount(rule: Allow)
  {
    Truthy(rule.remoteServiceAccount) && JsTrim(rule.remoteServiceAccount.value) != ""
  }

  /**
   * The source of an allow rule: a service account replaces everything with
   * its principal, in the remote namespace when one is set (even "*") and in
   * the package's namespace otherwise.
   */
  function AllowSource(rule: Allow, pkgNamespace: string): (r: PolicySource)
    ensures HasServiceAccount(rule) ==>
      r == Principals([Principal(if Truthy(rule.remoteNamespace) then rule.remoteNamespace.value else pkgNamespace,
                                 rule.remoteServiceAccount.value)])
    ensures !HasServiceAccount(rule) ==> r == AllowNamespaceSource(rule, pkgNamespace)
    ensures r.Principals? <==> HasServiceAccount(rule)
  {
    if HasServiceAccount(rule) then
      var nsForSA := if Truthy(rule.remoteNamespace) then rule.remoteNamespace.value else pkgNamespace;
      Principals([Principal(nsForSA, rule.remoteServiceAccount.value)])
    else AllowNamespaceSource(rule, pkgNamespace)
  }

  /** The source of an expose rule: the admin gateway's namespace, or the package's. */
  function ExposeSource(rule: Expose, pkgNamespace: string): (r: PolicySource)
    ensures r == Namespaces([if rule.gateway == Some(Admin) then AdminGatewayNamespace else pkgNamespace])
  {
    if rule.gateway == Some(Admin) then Namespaces([AdminGatewayNamespace]) else Namespaces([pkgNamespace])
  }

  /**
   * Whom a source lets through: a request from namespace `ns` under the
   * service-account principal `principal`. The DENY rule built on the source
   * refuses everybody else.
   */
  predicate SourceAdmits(s: PolicySource, ns: string, principal: string)
  {
    match s
    case Namespaces(l) => ns in l
    case NotNamespaces(l) => ns !in l
    case Principals(l) => principal in l
  }

  /**
   * The callers an allow rule admits: a service account admits exactly its
   * principal; otherwise the principal does not matter, and the rule admits
   * the package's own namespace for IntraNamespace, exactly the named remote
   * namespace, every namespace but the package's for "*" or Anywhere, and
   * the package's own namespace in every other case.
   */
  lemma AllowSourceAdmits(rule: Allow, pkgNamespace: string, ns: string, principal: string)
    ensures HasServiceAccount(rule) ==>
      (SourceAdmits(AllowSource(rule, pkgNamespace), ns, principal) <==>
       principal == Principal(if Truthy(rule.remoteNamespace) then rule.remoteNamespace.value else pkgNamespace,
                              rule.remoteServiceAccount.value))
    ensures !HasServiceAccount(rule) ==> forall other: string ::
      SourceAdmits(AllowSource(rule, pkgNamespace), ns, principal) <==>
      SourceAdmits(AllowSource(rule, pkgNamespace), ns, other)
    ensures !HasServiceAccount(rule) && rule.remoteGenerated == Some(IntraNamespace) ==>
      (SourceAdmits(AllowSource(rule, pkgNamespace), ns, principal) <==> ns == pkgNamespace)
    ensures !HasServiceAccount(rule) && rule.remoteGenerated != Some(IntraNamespace) && NamesNamespace(rule.remoteNamespace) ==>
      (SourceAdmits(AllowSource(rule, pkgNamespace), ns, principal) <==> ns == rule.remoteNamespace.value)
    ensures (!HasServiceAccount(rule) && rule.remoteGenerated != Some(IntraNamespace) && !NamesNamespace(rule.remoteNamespace)
      && (rule.remoteNamespace == Some("*") || rule.remoteGenerated == Some(Anywhere))) ==>
      (SourceAdmits(AllowSource(rule, pkgNamespace), ns, principal) <==> ns != pkgNamespace)
    ensures (!HasServiceAccount(rule) && rule.remoteGenerated != Some(IntraNamespace) && !NamesNamespace(rule.remoteNamespace)
      && rule.remoteNamespace != Some("*") && rule.remoteGenerated != Some(Anywhere)) ==>
      (SourceAdmits(AllowSource(rule, pkgNamespace), ns, principal) <==> ns == pkgNamespace)
  {
  }

  /** An expose rule admits callers from the admin gateway's namespace for the admin gateway, else from the package's. */
  lemma ExposeSourceAdmits(rule: Expose, pkgNamespace: string, ns: string, principal: string)
    ensures SourceAdmits(ExposeSource(rule, pkgNamespace), ns, principal) <==>
      ns == (if rule.gateway == Some(Admin) then AdminGatewayNamespace else pkgNamespace)
  {
  }

  function ProcessAllow(rule: Allow, pkgNamespace: string): Processed
  {
    Processed(rule.selector, AllowSource(rule, pkgNamespace), RulePorts(rule.port, rule.ports))
  }

  function ProcessExpose(rule: Expose, pkgNamespace: string): Processed
  {
    Processed(rule.selector, ExposeSource(rule, pkgNamespace), RulePorts(rule.port, None))
  }

  // ---------------------------------------------------------------------
  // addRuleToGroup
  // ---------------------------------------------------------------------

  /** The index of the first entry with this source, or -1. */
  function FindSource(rules: seq<GroupRule>, source: PolicySource): (r: int)
    ensures -1 <= r < |rules|
    ensures r >= 0 ==> rules[r].source == source && forall i :: 0 <= i < r ==> rules[i].source != source
    ensures r < 0 ==> forall i :: 0 <= i < |rules| ==> rules[i].source != source
  {
    if rules == [] then -1
    else if rules[0].source == source then 0
    else
      var r := FindSource(rules[1..], source);
      assert forall i :: 0 < i < |rules| ==> rules[1..][i - 1] == rules[i];
      if r < 0 then -1 else r + 1
  }

  /** The port set recorded for `source` ([] when no entry has it). */
  function PortsOf(rules: seq<GroupRule>, source: PolicySource): seq<string>
  {
    var i := FindSource(rules, source);
    if i >= 0 then rules[i].ports else []
  }

  /** No two entries of a group have the same source. */
  predicate DistinctSources(rules: seq<GroupRule>)
  {
    forall i, j :: 0 <= i < j < |rules| ==> rules[i].source != rules[j].source
  }

  /** addRuleToGroup: an entry with the same source gains the ports; otherwise a new entry goes last. */
  function AddRuleTo(rules: seq<GroupRule>, source: PolicySource, ports: seq<string>): seq<GroupRule>
  {
    var i := FindSource(rules, source);
    if i >= 0 then rules[i := GroupRule(source, Union(rules[i].ports, ports))]
    else rules + [GroupRule(source, Union([], ports))]
  }

  /** Some entry of the group has this source. */
  predicate HasSource(rules: seq<GroupRule>, source: PolicySource)
  {
    FindSource(rules, source) >= 0
  }

  /**
   * Rules with an identical source merge: the group keeps one entry per
   * source, the entry for `source` holds exactly its old ports and the new
   * ones, once each, and every other source keeps its entry and ports.
   */
  lemma AddRuleToMerges(rules: seq<GroupRule>, source: PolicySource, ports: seq<string>)
    requires DistinctSources(rules)
    ensures var r := AddRuleTo(rules, source, ports);
      && DistinctSources(r)
      && |r| == (if HasSource(rules, source) then |rules| else |rules| + 1)
      && (forall p :: p in PortsOf(r, source) <==> p in PortsOf(rules, source) || p in ports)
      && (Distinct(PortsOf(rules, source)) ==> Distinct(PortsOf(r, source)))
      && (forall s :: s != source ==> PortsOf(r, s) == PortsOf(rules, s))
      && (forall s :: HasSource(r, s) <==> s == source || HasSource(rules, s))
  {
    var r := AddRuleTo(rules, source, ports);
    var i := FindSource(rules, source);
    assert forall k :: 0 <= k < |rules| ==> r[k].source == rules[k].source;
    forall s | s != source ensures PortsOf(r, s) == PortsOf(rules, s) && (HasSource(r, s) <==> HasSource(rules, s)) {
      var j := FindSource(rules, s);
      var j' := FindSource(r, s);
      if j >= 0 {
        assert r[j] == rules[j];
      }
      if j' >= 0 && j' < |rules| {
        assert r[j'] == rules[j'];
      }
    }
    var at := if i >= 0 then i else |rules|;
    assert r[at].source == source;
    assert FindSource(r, source) == at;
  }

  // ---------------------------------------------------------------------
  // Grouping
  // ---------------------------------------------------------------------

  /** The rules recorded for a selector ([] when it has no group yet). */
  function GroupOf(g: Groups, sel: Selector): seq<GroupRule>
  {
    Get(g.workload, sel).UnwrapOr([])
  }

  /** processRule after the ports and the source are known. */
  function AddProcessed(g: Groups, pr: Processed): Groups
  {
    if pr.ports == [] then g
    else
      match pr.selector
      case Some(sel) => g.(workload := Put(g.workload, sel, AddRuleTo(GroupOf(g, sel), pr.source, pr.ports)))
      case None => g.(ns := AddRuleTo(g.ns, pr.source, pr.ports))
  }

  /** The groups after processing the rules `prs` in order. */
  function Collect(prs: seq<Processed>): Groups
    decreases |prs|
  {
    if prs == [] then Groups([], []) else AddProcessed(Collect(prs[..|prs| - 1]), prs[|prs| - 1])
  }

  /** The allow rules, then the expose rules, as processRule sees them. */
  function ProcessedRules(allows: seq<Allow>, exposes: seq<Expose>, pkgNamespace: string): (r: seq<Processed>)
    ensures |r| == |allows| + |exposes|
    ensures forall i :: 0 <= i < |allows| ==> r[i] == ProcessAllow(allows[i], pkgNamespace)
    ensures forall i :: 0 <= i < |exposes| ==> r[|allows| + i] == ProcessExpose(exposes[i], pkgNamespace)
  {
    seq(|allows|, i requires 0 <= i < |allows| => ProcessAllow(allows[i], pkgNamespace))
    + seq(|exposes|, i requires 0 <= i < |exposes| => ProcessExpose(exposes[i], pkgNamespace))
  }

  // ---------------------------------------------------------------------
  // derivePolicyName
  // ---------------------------------------------------------------------

  /** `replace(/-pod$/, "")`. */
  function StripPodSuffix(s: string): (r: string)
    ensures EndsWith(s, "-pod") ==> r + "-pod" == s
    ensures !EndsWith(s, "-pod") ==> r == s
  {
    if EndsWith(s, "-pod") then s[..|s| - 4] else s
  }

  /** `selector[key]`. */
  function Label(sel: Selector, key: string): Option<string>
  {
    Get(sel, key)
  }

  /**
   * derivePolicyName: the `app` label without a trailing "-pod"; else the
   * `app.kubernetes.io/name` label without it, plus "-workload"; else "workload".
   */
  function DerivePolicyName(sel: Selector): (r: string)
    ensures Truthy(Label(sel, "app")) ==> r == StripPodSuffix(Label(sel, "app").value)
    ensures !Truthy(Label(sel, "app")) && Truthy(Label(sel, "app.kubernetes.io/name")) ==>
      r == StripPodSuffix(Label(sel, "app.kubernetes.io/name").value) + "-workload"
    ensures !Truthy(Label(sel, "app")) && !Truthy(Label(sel, "app.kubernetes.io/name")) ==> r == "workload"
  {
    var app := Label(sel, "app");
    var name := Label(sel, "app.kubernetes.io/name");
    if Truthy(app) then StripPodSuffix(app.value)
    else if Truthy(name) then StripPodSuffix(name.value) + "-workload"
    else "workload"
  }

  /** The name depends on the `app` and `app.kubernetes.io/name` labels only. */
  lemma DerivePolicyNameFromAppLabels(a: Selector, b: Selector)
    requires Label(a, "app") == Label(b, "app")
    requires Label(a, "app.kubernetes.io/name") == Label(b, "app.kubernetes.io/name")
    ensures DerivePolicyName(a) == DerivePolicyName(b)
  {
  }

  /** With an `app` label the name is a prefix of it; without one the name ends in "workload". */
  lemma DerivePolicyNameShape(sel: Selector)
    ensures Truthy(Label(sel, "app")) ==> StartsWith(Label(sel, "app").value, DerivePolicyName(sel))
    ensures !Truthy(Label(sel, "app")) ==> EndsWith(DerivePolicyName(sel), "workload")
  {
    var app := Label(sel, "app");
    var name := Label(sel, "app.kubernetes.io/name");
    if Truthy(app) {
      var r := StripPodSuffix(app.value);
      assert app.value[..|r|] == r;
    } else if Truthy(name) {
      var n := StripPodSuffix(name.value) + "-workload";
      assert n[|n| - 8..] == "workload";
    }
  }

  // ---------------------------------------------------------------------
  // generateAuthorizationPolicies
  // ---------------------------------------------------------------------

  datatype Action = Deny

  /** One policy rule: deny from anyone but `source` to any port but `notPorts`. */
  datatype PolicyRule = PolicyRule(fromSource: PolicySource, notPorts: seq<string>)

  datatype AuthorizationPolicy = AuthorizationPolicy(
    apiVersion: string,
    kind: string,
    name: string,
    namespace: string,
    labels: seq<(string, string)>,
    action: Action,
    selector: Option<Selector>,
    rules: seq<PolicyRule>)

  /** `metadata.name ?? "unknown"`. */
  function PkgName(meta: Metadata): string { meta.name.UnwrapOr("unknown") }

  /** `metadata.namespace ?? overrideNamespace ?? "default"`. */
  function PkgNamespace(meta: Metadata, overrideNamespace: Option<string>): string
  {
    if meta.namespace.Some? then meta.namespace.value else overrideNamespace.UnwrapOr("default")
  }

  /** `metadata.generation?.toString() ?? "0"`. */
  function Generation(meta: Metadata): string
  {
    if meta.generation.Some? then IntToString(meta.generation.value) else "0"
  }

  function PolicyRules(rules: seq<GroupRule>): (r: seq<PolicyRule>)
    ensures |r| == |rules|
    ensures forall i :: 0 <= i < |rules| ==> r[i] == PolicyRule(rules[i].source, rules[i].ports)
  {
    seq(|rules|, i requires 0 <= i < |rules| => PolicyRule(rules[i].source, rules[i].ports))
  }

  function MakePolicy(name: string, namespace: string, pkgName: string, generation: string,
                      selector: Option<Selector>, rules: seq<GroupRule>): AuthorizationPolicy
  {
    AuthorizationPolicy("security.istio.io/v1beta1", "AuthorizationPolicy", name, namespace,
      [("uds/package", pkgName), ("uds/generation", generation)], Deny, selector, PolicyRules(rules))
  }

  /** The policy of one workload group. */
  function WorkloadPolicy(group: (Selector, seq<GroupRule>), pkgName: string, namespace: string, generation: string): AuthorizationPolicy
  {
    MakePolicy("protect-" + pkgName + "-" + DerivePolicyName(group.0), namespace, pkgName, generation,
      Some(group.0), group.1)
  }

  /** The workload policies, in the Map's insertion order. */
  function WorkloadPolicies(groups: seq<(Selector, seq<GroupRule>)>, pkgName: string, namespace: string, generation: string)
    : (r: seq<AuthorizationPolicy>)
    ensures |r| == |groups|
    ensures forall i :: 0 <= i < |groups| ==> r[i] == WorkloadPolicy(groups[i], pkgName, namespace, generation)
  {
    seq(|groups|, i requires 0 <= i < |groups| => WorkloadPolicy(groups[i], pkgName, namespace, generation))
  }

  /** The policy list: one per workload group, then the namespace policy when it has rules. */
  function Policies(meta: Metadata, overrideNamespace: Option<string>, allows: seq<Allow>, exposes: seq<Expose>)
    : seq<AuthorizationPolicy>
  {
    var pkgName := PkgName(meta);
    var namespace := PkgNamespace(meta, overrideNamespace);
    var g := Collect(ProcessedRules(allows, exposes, namespace));
    WorkloadPolicies(g.workload, pkgName, namespace, Generation(meta))
    + (if |g.ns| > 0 then [MakePolicy("protect-" + pkgName + "-ns", namespace, pkgName, Generation(meta), None, g.ns)] else [])
  }

  /** One more workload group, one more policy at the end. */
  lemma WorkloadPoliciesSnoc(groups: seq<(Selector, seq<GroupRule>)>, k: nat, pkgName: string, namespace: string, generation: string)
    requires k < |groups|
    ensures WorkloadPolicies(groups[..k + 1], pkgName, namespace, generation)
      == WorkloadPolicies(groups[..k], pkgName, namespace, generation) + [WorkloadPolicy(groups[k], pkgName, namespace, generation)]
  {
  }

  /** One more rule through processRule. */
  lemma CollectSnoc(prs: seq<Processed>, i: nat)
    requires i < |prs|
    ensures Collect(prs[..i + 1]) == AddProcessed(Collect(prs[..i]), prs[i])
  {
    assert prs[..i + 1][..i] == prs[..i];
  }

  /**
   * processRule's grouping step: a portless rule is skipped; a rule with a
   * selector joins that selector's workload group (created when missing);
   * any other rule joins the namespace group.
   */
  method ProcessRule(g: Groups, pr: Processed) returns (r: Groups)
    ensures r == AddProcessed(g, pr)
  {
    if pr.ports == [] {
      return g;
    }
    match pr.selector
    case Some(sel) =>
      var group := GroupOf(g, sel);
      group := AddRuleTo(group, pr.source, pr.ports);
      r := g.(workload := Put(g.workload, sel, group));
    case None =>
      r := g.(ns := AddRuleTo(g.ns, pr.source, pr.ports));
  }

  /** The rules from index `i` on, processed in order, starting from the groups `g`. */
  function CollectFrom(prs: seq<Processed>, i: nat, g: Groups): Groups
    requires i <= |prs|
    decreases |prs| - i
  {
    if i == |prs| then g else CollectFrom(prs, i + 1, AddProcessed(g, prs[i]))
  }

  /** Continuing from the groups of the first `i` rules gives the groups of all of them. */
  lemma {:induction false} CollectFromIsCollect(prs: seq<Processed>, i: nat)
    requires i <= |prs|
    ensures CollectFrom(prs, i, Collect(prs[..i])) == Collect(prs)
    decreases |prs| - i
  {
    if i == |prs| {
      assert prs[..i] == prs;
    } else {
      CollectSnoc(prs, i);
      CollectFromIsCollect(prs, i + 1);
    }
  }

  /** The two loops that run processRule over the allow rules, then the expose rules. */
  method GroupRules(allows: seq<Allow>, exposes: seq<Expose>, namespace: string) returns (g: Groups)
    ensures g == Collect(ProcessedRules(allows, exposes, namespace))
  {
    ghost var prs := ProcessedRules(allows, exposes, namespace);
    CollectFromIsCollect(prs, 0);
    assert prs[..0] == [];
    g := Groups([], []);
    var i := 0;
    while i < |allows|
      invariant 0 <= i <= |allows|
      invariant CollectFrom(prs, i, g) == Collect(prs)
    {
      g := ProcessRule(g, ProcessAllow(allows[i], namespace));
      i := i + 1;
    }
    var j := 0;
    while j < |exposes|
      invariant 0 <= j <= |exposes|
      invariant CollectFrom(prs, |allows| + j, g) == Collect(prs)
    {
      g := ProcessRule(g, ProcessExpose(exposes[j], namespace));
      j := j + 1;
    }
  }

  /**
   * generateAuthorizationPolicies: processRule over the allow rules, then
   * the expose rules; then one policy per workload group and, when there are
   * selector-less rules, the namespace policy. An absent rule list is [].
   */
  method GenerateAuthorizationPolicies(meta: Metadata, overrideNamespace: Option<string>,
                                       allows: seq<Allow>, exposes: seq<Expose>)
    returns (policies: seq<AuthorizationPolicy>)
    ensures policies == Policies(meta, overrideNamespace, allows, exposes)
  {
    var pkgName := PkgName(meta);
    var namespace := PkgNamespace(meta, overrideNamespace);
    var generation := Generation(meta);
    var g := GroupRules(allows, exposes, namespace);
    policies := [];
    var k := 0;
    while k < |g.workload|
      invariant 0 <= k <= |g.workload|
      invariant policies == WorkloadPolicies(g.workload[..k], pkgName, namespace, generation)
    {
      WorkloadPoliciesSnoc(g.workload, k, pkgName, namespace, generation);
      policies := policies + [WorkloadPolicy(g.workload[k], pkgName, namespace, generation)];
      k := k + 1;
    }
    assert g.workload[..k] == g.workload;
    if |g.ns| > 0 {
      policies := policies + [MakePolicy("protect-" + pkgName + "-ns", namespace, pkgName, generation, None, g.ns)];
    }
  }

  // ---------------------------------------------------------------------
  // Properties of the grouping
  // ---------------------------------------------------------------------

  /** A processed rule with no port changes nothing. */
  lemma PortlessRuleSkipped(g: Groups, pr: Processed)
    requires pr.ports == []
    ensures AddProcessed(g, pr) == g
  {
  }

  /** A rule that lands in the namespace group: it has ports and no selector. */
  predicate Selectorless(pr: Processed) { pr.ports != [] && pr.selector.None? }

  /** A rule that lands in the group of `sel`. */
  predicate SelectedBy(pr: Processed, sel: Selector) { pr.ports != [] && pr.selector == Some(sel) }

  /** The namespace group has rules exactly when some processed rule is selector-less. */
  lemma {:induction false} NsGroupIffSelectorless(prs: seq<Processed>)
    ensures |Collect(prs).ns| > 0 <==> exists i :: 0 <= i < |prs| && Selectorless(prs[i])
    decreases |prs|
  {
    if prs != [] {
      var n := |prs| - 1;
      var prefix := prs[..n];
      NsGroupIffSelectorless(prefix);
      ExistsSplitLast(prs, prefix, Selectorless);
      var g := Collect(prefix);
      if Selectorless(prs[n]) {
        var f := FindSource(g.ns, prs[n].source);
        assert |AddRuleTo(g.ns, prs[n].source, prs[n].ports)| >= |g.ns|;
        if f < 0 {
          assert |AddRuleTo(g.ns, prs[n].source, prs[n].ports)| == |g.ns| + 1;
        }
      }
    }
  }

  /** The workload groups have distinct selectors, exactly those of the rules with ports and a selector. */
  lemma {:induction false} WorkloadGroupsSpec(prs: seq<Processed>, sel: Selector)
    ensures DistinctKeys(Collect(prs).workload)
    ensures Get(Collect(prs).workload, sel).Some? <==> exists i :: 0 <= i < |prs| && SelectedBy(prs[i], sel)
    decreases |prs|
  {
    if prs != [] {
      var n := |prs| - 1;
      var prefix := prs[..n];
      WorkloadGroupsSpec(prefix, sel);
      ExistsSplitLast(prs, prefix, pr => SelectedBy(pr, sel));
      var g := Collect(prefix);
      var pr := prs[n];
      if pr.ports != [] && pr.selector.Some? {
        var s := pr.selector.value;
        var rules := AddRuleTo(GroupOf(g, s), pr.source, pr.ports);
        PutDistinct(g.workload, s, rules);
        PutGet(g.workload, s, rules, sel);
      }
    }
  }

  /** Every group, workload or namespace, keeps one entry per source. */
  lemma {:induction false} GroupsHaveDistinctSources(prs: seq<Processed>, sel: Selector)
    ensures DistinctSources(Collect(prs).ns)
    ensures DistinctSources(GroupOf(Collect(prs), sel))
    decreases |prs|
  {
    if prs != [] {
      var n := |prs| - 1;
      GroupsHaveDistinctSources(prs[..n], sel);
      var g := Collect(prs[..n]);
      var pr := prs[n];
      if pr.ports != [] {
        match pr.selector
        case None =>
          AddRuleToMerges(g.ns, pr.source, pr.ports);
        case Some(s) =>
          GroupsHaveDistinctSources(prs[..n], s);
          AddRuleToMerges(GroupOf(g, s), pr.source, pr.ports);
          PutGet(g.workload, s, AddRuleTo(GroupOf(g, s), pr.source, pr.ports), sel);
      }
    }
  }

  /** A selector-less rule with ports from `source` that lists `port`. */
  predicate NsRuleLists(pr: Processed, source: PolicySource, port: string)
  {
    Selectorless(pr) && pr.source == source && port in pr.ports
  }

  /** A rule with ports for `sel` from `source` that lists `port`. */
  predicate WorkloadRuleLists(pr: Processed, sel: Selector, source: PolicySource, port: string)
  {
    SelectedBy(pr, sel) && pr.source == source && port in pr.ports
  }

  /** addRuleToGroup gives `source` the union of its old ports and the new ones, in that order. */
  lemma AddRuleToUnion(rules: seq<GroupRule>, source: PolicySource, ports: seq<string>)
    ensures PortsOf(AddRuleTo(rules, source, ports), source) == Union(PortsOf(rules, source), ports)
  {
    var r := AddRuleTo(rules, source, ports);
    var i := FindSource(rules, source);
    var at := if i >= 0 then i else |rules|;
    assert forall k :: 0 <= k < |rules| ==> r[k].source == rules[k].source;
    assert r[at].source == source;
    assert FindSource(r, source) == at;
  }

  /** addRuleToGroup leaves the entry of every other source as it was. */
  lemma AddRuleToKeepsOthers(rules: seq<GroupRule>, source: PolicySource, ports: seq<string>, s: PolicySource)
    requires s != source
    ensures PortsOf(AddRuleTo(rules, source, ports), s) == PortsOf(rules, s)
    ensures HasSource(AddRuleTo(rules, source, ports), s) <==> HasSource(rules, s)
  {
    var r := AddRuleTo(rules, source, ports);
    assert forall k :: 0 <= k < |rules| ==> r[k].source == rules[k].source;
    var j := FindSource(rules, s);
    var j' := FindSource(r, s);
    if j >= 0 {
      assert r[j] == rules[j];
    }
    if j' >= 0 && j' < |rules| {
      assert r[j'] == rules[j'];
    }
  }

  /** After addRuleToGroup, the entry for `s` lists `p` exactly when it did or `p` is a new port of `s`. */
  lemma AddRuleToPorts(rules: seq<GroupRule>, source: PolicySource, ports: seq<string>, s: PolicySource, p: string)
    ensures p in PortsOf(AddRuleTo(rules, source, ports), s) <==> p in PortsOf(rules, s) || (s == source && p in ports)
  {
    if s == source {
      AddRuleToUnion(rules, source, ports);
    } else {
      AddRuleToKeepsOthers(rules, source, ports, s);
    }
  }

  /**
   * Rules with an identical source merge their ports: the namespace entry for
   * `source` lists a port exactly when some selector-less rule from that
   * source lists it.
   */
  lemma {:induction false} NsPortsAreMerged(prs: seq<Processed>, source: PolicySource, port: string)
    ensures port in PortsOf(Collect(prs).ns, source) <==>
      exists i :: 0 <= i < |prs| && NsRuleLists(prs[i], source, port)
    decreases |prs|
  {
    if prs != [] {
      var n := |prs| - 1;
      var prefix := prs[..n];
      NsPortsAreMerged(prefix, source, port);
      ExistsSplitLast(prs, prefix, pr => NsRuleLists(pr, source, port));
      var g := Collect(prefix);
      var pr := prs[n];
      assert Collect(prs) == AddProcessed(g, pr);
      if Selectorless(pr) {
        assert Collect(prs).ns == AddRuleTo(g.ns, pr.source, pr.ports);
        AddRuleToPorts(g.ns, pr.source, pr.ports, source, port);
      } else {
        assert Collect(prs).ns == g.ns;
      }
    }
  }

  /** The same merge inside the workload group of each selector. */
  lemma {:induction false} WorkloadPortsAreMerged(prs: seq<Processed>, sel: Selector, source: PolicySource, port: string)
    ensures port in PortsOf(GroupOf(Collect(prs), sel), source) <==>
      exists i :: 0 <= i < |prs| && WorkloadRuleLists(prs[i], sel, source, port)
    decreases |prs|
  {
    if prs != [] {
      var n := |prs| - 1;
      var prefix := prs[..n];
      WorkloadPortsAreMerged(prefix, sel, source, port);
      ExistsSplitLast(prs, prefix, pr => WorkloadRuleLists(pr, sel, source, port));
      var g := Collect(prefix);
      var pr := prs[n];
      if pr.ports != [] && pr.selector.Some? {
        var s := pr.selector.value;
        var rules := AddRuleTo(GroupOf(g, s), pr.source, pr.ports);
        PutGet(g.workload, s, rules, sel);
        if s == sel {
          AddRuleToPorts(GroupOf(g, s), pr.source, pr.ports, source, port);
        }
      }
    }
  }

  /**
   * The policies: one per workload group, each with that group's selector,
   * then the namespace policy exactly when some rule with ports has no
   * selector.
   */
  lemma PoliciesShape(meta: Metadata, overrideNamespace: Option<string>, allows: seq<Allow>, exposes: seq<Expose>)
    ensures var namespace := PkgNamespace(meta, overrideNamespace);
      var prs := ProcessedRules(allows, exposes, namespace);
      var g := Collect(prs);
      var r := Policies(meta, overrideNamespace, allows, exposes);
      && |r| == |g.workload| + (if exists i :: 0 <= i < |prs| && Selectorless(prs[i]) then 1 else 0)
      && (forall i :: 0 <= i < |g.workload| ==> r[i].selector == Some(g.workload[i].0))
      && (|r| > |g.workload| ==> r[|g.workload|].selector.None? && r[|g.workload|].name == "protect-" + PkgName(meta) + "-ns")
  {
    var namespace := PkgNamespace(meta, overrideNamespace);
    NsGroupIffSelectorless(ProcessedRules(allows, exposes, namespace));
  }

  /** Every policy is a DENY policy in the package's namespace, labelled with the package and its generation. */
  lemma PoliciesMetadata(meta: Metadata, overrideNamespace: Option<string>, allows: seq<Allow>, exposes: seq<Expose>)
    ensures var r := Policies(meta, overrideNamespace, allows, exposes);
      forall i :: 0 <= i < |r| ==>
        && r[i].namespace == PkgNamespace(meta, overrideNamespace)
        && r[i].action == Deny
        && r[i].labels == [("uds/package", PkgName(meta)), ("uds/generation", Generation(meta))]
  {
  }
}
