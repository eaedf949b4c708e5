/**
 * The Istio policies that put an SSO client's workload behind authservice:
 * a CUSTOM policy sending unauthenticated traffic to authservice, a DENY
 * policy for requests without a UDS token, and the RequestAuthentication
 * that validates those tokens. Metrics endpoints of the package's monitors
 * are exempted, grouped by port.
 */
module AuthservicePolicy {
  import opened Wrappers
  import opened Strings
  import opened AssocLists
  import opened Crd
  import ControllerUtils

  // ---------------------------------------------------------------------
  // Monitor exemptions grouped by port
  // ---------------------------------------------------------------------

  /** A port and path of a metrics endpoint that bypasses authservice. */
  datatype MonitorExemption = MonitorExemption(port: Option<string>, path: Option<string>)

  /** The metrics path assumed when a port has no recorded path. */
  const DefaultMetricsPath: string := "/metrics"

  /** One `to.operation` of an authorization rule. */
  datatype Operation = Operation(ports: Option<seq<string>>, notPorts: Option<seq<string>>, paths: Option<seq<string>>, notPaths: Option<seq<string>>)

  /** `portToPaths`: each port with its paths in insertion order, a Map of Sets. */
  type PortPaths = seq<(string, seq<string>)>

  /** One step of the grouping loop: an exemption without a port is skipped, a path is added once. */
  function AddExemption(g: PortPaths, ex: MonitorExemption): PortPaths
  {
    if !Truthy(ex.port) then g
    else
      var paths := Get(g, ex.port.value).UnwrapOr([]);
      Put(g, ex.port.value, if Truthy(ex.path) && ex.path.value !in paths then paths + [ex.path.value] else paths)
  }

  function GroupFold(exs: seq<MonitorExemption>, g: PortPaths): PortPaths
  {
    if |exs| == 0 then g else GroupFold(exs[1..], AddExemption(g, exs[0]))
  }

  /** The grouping both operation builders start from. */
  function GroupByPort(exs: seq<MonitorExemption>): PortPaths
  {
    GroupFold(exs, [])
  }

  /** Some exemption names this port. */
  predicate HasPort(exs: seq<MonitorExemption>, port: string)
  {
    exists i :: 0 <= i < |exs| && port != "" && exs[i].port == Some(port)
  }

  /** Some exemption names this port and this path. */
  predicate HasPortPath(exs: seq<MonitorExemption>, port: string, path: string)
  {
    exists i :: 0 <= i < |exs| && port != "" && path != "" && exs[i].port == Some(port) && exs[i].path == Some(path)
  }

  /** The paths recorded for a port, none when the port is absent. */
  function PathsOf(g: PortPaths, port: string): seq<string>
  {
    Get(g, port).UnwrapOr([])
  }

  lemma HasPortCons(exs: seq<MonitorExemption>, port: string)
    requires |exs| > 0
    ensures HasPort(exs, port) <==> (port != "" && exs[0].port == Some(port)) || HasPort(exs[1..], port)
    ensures forall path :: HasPortPath(exs, port, path) <==>
      (port != "" && path != "" && exs[0].port == Some(port) && exs[0].path == Some(path)) || HasPortPath(exs[1..], port, path)
  {
    if HasPort(exs, port) {
      var i :| 0 <= i < |exs| && port != "" && exs[i].port == Some(port);
      if i > 0 {
        assert exs[1..][i - 1] == exs[i];
      }
    }
    if HasPort(exs[1..], port) {
      var i :| 0 <= i < |exs[1..]| && port != "" && exs[1..][i].port == Some(port);
      assert exs[i + 1] == exs[1..][i];
    }
    forall path | HasPortPath(exs, port, path)
      ensures (port != "" && path != "" && exs[0].port == Some(port) && exs[0].path == Some(path)) || HasPortPath(exs[1..], port, path)
    {
      var i :| 0 <= i < |exs| && port != "" && path != "" && exs[i].port == Some(port) && exs[i].path == Some(path);
      if i > 0 {
        assert exs[1..][i - 1] == exs[i];
      }
    }
    forall path | HasPortPath(exs[1..], port, path)
      ensures HasPortPath(exs, port, path)
    {
      var i :| 0 <= i < |exs[1..]| && port != "" && path != "" && exs[1..][i].port == Some(port) && exs[1..][i].path == Some(path);
      assert exs[i + 1] == exs[1..][i];
    }
  }

  /** One step adds the exemption's port, and its path to that port, and nothing else. */
  lemma AddExemptionSpec(g: PortPaths, ex: MonitorExemption, port: string, path: string)
    ensures port in Keys(AddExemption(g, ex)) <==> port in Keys(g) || (port != "" && ex.port == Some(port))
    ensures path in PathsOf(AddExemption(g, ex), port) <==>
      path in PathsOf(g, port) || (port != "" && path != "" && ex.port == Some(port) && ex.path == Some(path))
  {
    if Truthy(ex.port) {
      var paths := PathsOf(g, ex.port.value);
      var paths' := if Truthy(ex.path) && ex.path.value !in paths then paths + [ex.path.value] else paths;
      PutKeys(g, ex.port.value, paths');
      PutGet(g, ex.port.value, paths', port);
    }
  }

  /** A port is grouped exactly when some exemption names it. */
  lemma {:induction false} GroupFoldPorts(exs: seq<MonitorExemption>, g: PortPaths, port: string)
    ensures port in Keys(GroupFold(exs, g)) <==> port in Keys(g) || HasPort(exs, port)
  {
    if |exs| > 0 {
      AddExemptionSpec(g, exs[0], port, "");
      GroupFoldPorts(exs[1..], AddExemption(g, exs[0]), port);
      HasPortCons(exs, port);
    }
  }

  /** A path is recorded for a port exactly when some exemption names both. */
  lemma {:induction false} GroupFoldPaths(exs: seq<MonitorExemption>, g: PortPaths, port: string, path: string)
    ensures path in PathsOf(GroupFold(exs, g), port) <==> path in PathsOf(g, port) || HasPortPath(exs, port, path)
  {
    if |exs| > 0 {
      AddExemptionSpec(g, exs[0], port, path);
      GroupFoldPaths(exs[1..], AddExemption(g, exs[0]), port, path);
      HasPortCons(exs, port);
    }
  }

  /** The grouped ports are exactly the ports the exemptions name, and each port's paths exactly theirs. */
  lemma GroupByPortSpec(exs: seq<MonitorExemption>, port: string, path: string)
    ensures port in Keys(GroupByPort(exs)) <==> HasPort(exs, port)
    ensures path in PathsOf(GroupByPort(exs), port) <==> HasPortPath(exs, port, path)
  {
    GroupFoldPorts(exs, [], port);
    GroupFoldPaths(exs, [], port, path);
  }

  /** Each port is grouped once. */
  lemma {:induction false} GroupFoldDistinct(exs: seq<MonitorExemption>, g: PortPaths)
    requires DistinctKeys(g)
    ensures DistinctKeys(GroupFold(exs, g))
  {
    if |exs| > 0 {
      if Truthy(exs[0].port) {
        var paths := PathsOf(g, exs[0].port.value);
        PutDistinct(g, exs[0].port.value, if Truthy(exs[0].path) && exs[0].path.value !in paths then paths + [exs[0].path.value] else paths);
      }
      GroupFoldDistinct(exs[1..], AddExemption(g, exs[0]));
    }
  }

  /** Grouping a concatenation continues from the grouping of the first part. */
  lemma {:induction false} GroupFoldAppend(a: seq<MonitorExemption>, b: seq<MonitorExemption>, g: PortPaths)
    ensures GroupFold(a + b, g) == GroupFold(b, GroupFold(a, g))
  {
    if |a| > 0 {
      assert (a + b)[1..] == a[1..] + b;
      GroupFoldAppend(a[1..], b, AddExemption(g, a[0]));
    } else {
      assert a + b == b;
    }
  }

  /** An exemption without a port changes nothing, wherever it stands. */
  lemma PortlessIgnored(a: seq<MonitorExemption>, ex: MonitorExemption, b: seq<MonitorExemption>)
    requires !Truthy(ex.port)
    ensures GroupByPort(a + [ex] + b) == GroupByPort(a + b)
  {
    GroupFoldAppend(a + [ex], b, []);
    GroupFoldAppend(a, [ex], []);
    GroupFoldAppend(a, b, []);
  }

  /** The operation for one port outside the metrics endpoints: every path but the recorded ones. */
  function NonMetricsOp(entry: (string, seq<string>)): Operation
  {
    Operation(Some([entry.0]), None, None, Some(if |entry.1| > 0 then entry.1 else [DefaultMetricsPath]))
  }

  /** The operation for one port's metrics endpoints: just the recorded paths. */
  function MetricsOp(entry: (string, seq<string>)): Operation
  {
    Operation(Some([entry.0]), None, Some(if |entry.1| > 0 then entry.1 else [DefaultMetricsPath]), None)
  }

  /** The non-metrics operations: one per port, then one for every other port. */
  function NonMetricsOperations(exs: seq<MonitorExemption>): seq<Operation>
  {
    var g := GroupByPort(exs);
    seq(|g|, i requires 0 <= i < |g| => NonMetricsOp(g[i]))
      + (if |g| > 0 then [Operation(None, Some(Keys(g)), None, None)] else [])
  }

  /** The metrics operations: one per port. */
  function MetricsOperations(exs: seq<MonitorExemption>): seq<Operation>
  {
    var g := GroupByPort(exs);
    seq(|g|, i requires 0 <= i < |g| => MetricsOp(g[i]))
  }

  /** The grouping loop shared by both builders. */
  method GroupExemptions(exs: seq<MonitorExemption>) returns (portToPaths: PortPaths)
    ensures portToPaths == GroupByPort(exs)
  {
    portToPaths := [];
    var i := 0;
    assert exs[0..] == exs;
    while i < |exs|
      invariant 0 <= i <= |exs|
      invariant GroupFold(exs[i..], portToPaths) == GroupByPort(exs)
    {
      var ex := exs[i];
      if Truthy(ex.port) {
        var paths := Get(portToPaths, ex.port.value).UnwrapOr([]);
        if Truthy(ex.path) && ex.path.value !in paths {
          paths := paths + [ex.path.value];
        }
        portToPaths := Put(portToPaths, ex.port.value, paths);
      }
      assert exs[i..][1..] == exs[i + 1..];
      i := i + 1;
    }
  }

  /** buildNonMetricsOperations. */
  method BuildNonMetricsOperations(exs: seq<MonitorExemption>) returns (entries: seq<Operation>)
    ensures entries == NonMetricsOperations(exs)
  {
    var portToPaths := GroupExemptions(exs);
    entries := [];
    var k := 0;
    while k < |portToPaths|
      invariant 0 <= k <= |portToPaths|
      invariant entries == seq(k, j requires 0 <= j < k => NonMetricsOp(portToPaths[j]))
    {
      var (port, paths) := portToPaths[k];
      if |paths| > 0 {
        entries := entries + [Operation(Some([port]), None, None, Some(paths))];
      } else {
        entries := entries + [Operation(Some([port]), None, None, Some([DefaultMetricsPath]))];
      }
      k := k + 1;
    }
    var monitorPorts := Keys(portToPaths);
    if |monitorPorts| > 0 {
      entries := entries + [Operation(None, Some(monitorPorts), None, None)];
    }
  }

  /** buildMetricsOperations. */
  method BuildMetricsOperations(exs: seq<MonitorExemption>) returns (entries: seq<Operation>)
    ensures entries == MetricsOperations(exs)
  {
    var portToPaths := GroupExemptions(exs);
    entries := [];
    var k := 0;
    while k < |portToPaths|
      invariant 0 <= k <= |portToPaths|
      invariant entries == seq(k, j requires 0 <= j < k => MetricsOp(portToPaths[j]))
    {
      var (port, paths) := portToPaths[k];
      if |paths| > 0 {
        entries := entries + [Operation(Some([port]), None, Some(paths), None)];
      } else {
        entries := entries + [Operation(Some([port]), None, Some([DefaultMetricsPath]), None)];
      }
      k := k + 1;
    }
  }

  /**
   * The non-metrics operations hold one operation per exempted port, which
   * excludes that port's paths (`/metrics` when none was given), then one
   * for all other ports.
   */
  lemma NonMetricsShape(exs: seq<MonitorExemption>)
    ensures var g := GroupByPort(exs); var ops := NonMetricsOperations(exs);
      && |ops| == (if |g| > 0 then |g| + 1 else 0)
      && (forall i :: 0 <= i < |g| ==>
            && ops[i].ports == Some([g[i].0]) && ops[i].paths.None? && ops[i].notPorts.None?
            && ops[i].notPaths == Some(if PathsOf(g, g[i].0) == [] then [DefaultMetricsPath] else PathsOf(g, g[i].0)))
      && (|g| > 0 ==> ops[|g|] == Operation(None, Some(Keys(g)), None, None))
  {
    var g := GroupByPort(exs);
    GroupFoldDistinct(exs, []);
    forall i | 0 <= i < |g|
      ensures PathsOf(g, g[i].0) == g[i].1
    {
      GetDistinct(g, i);
    }
  }

  /** The metrics operations hold one operation per exempted port with its paths, `/metrics` when none was given. */
  lemma MetricsShape(exs: seq<MonitorExemption>)
    ensures var g := GroupByPort(exs); var ops := MetricsOperations(exs);
      && |ops| == |g|
      && forall i :: 0 <= i < |g| ==>
            && ops[i].ports == Some([g[i].0]) && ops[i].notPaths.None? && ops[i].notPorts.None?
            && ops[i].paths == Some(if PathsOf(g, g[i].0) == [] then [DefaultMetricsPath] else PathsOf(g, g[i].0))
  {
    var g := GroupByPort(exs);
    GroupFoldDistinct(exs, []);
    forall i | 0 <= i < |g|
      ensures PathsOf(g, g[i].0) == g[i].1
    {
      GetDistinct(g, i);
    }
  }

  /** In a list with distinct keys, looking up an entry's key finds that entry. */
  lemma {:induction false} GetDistinct(g: PortPaths, i: nat)
    requires DistinctKeys(g) && i < |g|
    ensures Get(g, g[i].0) == Some(g[i].1)
  {
    if i > 0 {
      assert DistinctKeys(g[1..]) by {
        forall a, b | 0 <= a < b < |g[1..]| ensures g[1..][a].0 != g[1..][b].0 {
          assert g[1..][a] == g[a + 1] && g[1..][b] == g[b + 1];
        }
      }
      assert g[0].0 != g[i].0;
      GetDistinct(g[1..], i - 1);
      assert g[1..][i - 1] == g[i];
    }
  }

  /** Both builders come out empty exactly when no exemption names a port. */
  lemma NoExemptionsNoOperations(exs: seq<MonitorExemption>)
    ensures |NonMetricsOperations(exs)| == 0 <==> forall i :: 0 <= i < |exs| ==> !Truthy(exs[i].port)
    ensures |MetricsOperations(exs)| == 0 <==> forall i :: 0 <= i < |exs| ==> !Truthy(exs[i].port)
  {
    var g := GroupByPort(exs);
    if |g| > 0 {
      GroupByPortSpec(exs, g[0].0, "");
      assert g[0].0 in Keys(g);
    }
    forall i | 0 <= i < |exs| && Truthy(exs[i].port)
      ensures |g| > 0
    {
      GroupByPortSpec(exs, exs[i].port.value, "");
    }
  }

  // ---------------------------------------------------------------------
  // Policy targets
  // ---------------------------------------------------------------------

  /** A reference to the waypoint Gateway a policy applies to. */
  datatype TargetRef = TargetRef(group: string, kind: string, name: string)

  /**
   * Where a policy applies: the waypoint in ambient mode when one is named,
   * otherwise the pods matching the label selector (`selector.matchLabels`).
   */
  function PolicyTarget(isAmbient: bool, waypointName: Option<string>, labelSelector: Selector): (r: (Option<TargetRef>, Option<Selector>))
    ensures r.0.Some? != r.1.Some?
    ensures r.0.Some? <==> isAmbient && Truthy(waypointName)
    ensures r.0.Some? ==> r.0.value == TargetRef("gateway.networking.k8s.io", "Gateway", waypointName.value)
    ensures r.1.Some? ==> r.1.value == labelSelector
  {
    if isAmbient && Truthy(waypointName) then (Some(TargetRef("gateway.networking.k8s.io", "Gateway", waypointName.value)), None)
    else (None, Some(labelSelector))
  }

  /** The part of a policy spec setPolicyTarget touches, with the rest it leaves alone. */
  class PolicySpec<R> {
    var targetRef: Option<TargetRef>
    var selector: Option<Selector>
    var rules: seq<R>

    constructor (rules: seq<R>)
      ensures this.rules == rules && targetRef.None? && selector.None?
    {
      this.rules := rules;
      targetRef := None;
      selector := None;
    }

    /** setPolicyTarget: assigns one target field and deletes the other; the rules are kept. */
    method SetPolicyTarget(isAmbient: bool, waypointName: Option<string>, labelSelector: Selector)
      modifies this
      ensures (targetRef, selector) == PolicyTarget(isAmbient, waypointName, labelSelector)
      ensures rules == old(rules)
    {
      if isAmbient && Truthy(waypointName) {
        targetRef := Some(TargetRef("gateway.networking.k8s.io", "Gateway", waypointName.value));
        selector := None;
      } else {
        selector := Some(labelSelector);
        targetRef := None;
      }
    }
  }

  // ---------------------------------------------------------------------
  // The policies
  // ---------------------------------------------------------------------

  /** A request source a rule matches by what it does not present. */
  datatype Source = Source(notRequestPrincipals: seq<string>, notPrincipals: Option<seq<string>>)

  datatype Condition = Condition(key: string, notValues: seq<string>)

  datatype Rule = Rule(from: Option<seq<Source>>, to: Option<seq<Operation>>, when: Option<seq<Condition>>)

  datatype Action = Custom | Deny

  datatype AuthorizationPolicy = AuthorizationPolicy(
    name: string, namespace: string, action: Action, provider: Option<string>, rules: seq<Rule>,
    targetRef: Option<TargetRef>, selector: Option<Selector>)

  /** A request without an authorization header. */
  const UnauthenticatedWhen: seq<Condition> := [Condition("request.headers[authorization]", ["*"])]

  /**
   * authserviceAuthorizationPolicy: CUSTOM, provider authservice, one rule
   * for unauthenticated requests, limited to the non-metrics operations
   * when monitors are exempted.
   */
  function AuthservicePolicyOf(labelSelector: Selector, name: string, namespace: string, isAmbient: bool,
                               waypointName: Option<string>, exs: seq<MonitorExemption>): AuthorizationPolicy
  {
    var nonMetricsOps := NonMetricsOperations(exs);
    var rule := if |nonMetricsOps| == 0 then Rule(None, None, Some(UnauthenticatedWhen))
                else Rule(None, Some(nonMetricsOps), Some(UnauthenticatedWhen));
    var target := PolicyTarget(isAmbient, waypointName, labelSelector);
    AuthorizationPolicy(ControllerUtils.SanitizeResourceName(name + "-authservice"), namespace, Custom, Some("authservice"),
                        [rule], target.0, target.1)
  }

  /** Requests without a token from the UDS realm of `domain`. */
  function SsoJwtSource(domain: string): Source
  {
    Source(["https://sso." + domain + "/realms/uds/*"], None)
  }

  /**
   * jwtAuthZAuthorizationPolicy: DENY for requests without a UDS token;
   * with monitors exempted, the metrics endpoints are denied only to
   * callers that are neither Prometheus (`prometheusPrincipal`) nor hold a
   * token, and every other endpoint to callers without a token.
   */
  function JwtAuthzPolicyOf(labelSelector: Selector, name: string, namespace: string, isAmbient: bool,
                            waypointName: Option<string>, exs: seq<MonitorExemption>,
                            domain: string, prometheusPrincipal: string): AuthorizationPolicy
  {
    var metricsOps := MetricsOperations(exs);
    var nonMetricsOps := NonMetricsOperations(exs);
    var sso := SsoJwtSource(domain);
    var prometheusOrSso := sso.(notPrincipals := Some([prometheusPrincipal]));
    var rules := if |metricsOps| == 0 then [Rule(Some([sso]), None, None)]
                 else [Rule(Some([prometheusOrSso]), Some(metricsOps), None), Rule(Some([sso]), Some(nonMetricsOps), None)];
    var target := PolicyTarget(isAmbient, waypointName, labelSelector);
    AuthorizationPolicy(ControllerUtils.SanitizeResourceName(name + "-jwt-authz"), namespace, Deny, None,
                        rules, target.0, target.1)
  }

  /** One JWT rule of a RequestAuthentication. */
  datatype JwtRule = JwtRule(audiences: seq<string>, forwardOriginalToken: bool, issuer: string, jwksUri: string)

  datatype RequestAuthentication = RequestAuthentication(
    name: string, namespace: string, jwtRules: seq<JwtRule>, targetRef: Option<TargetRef>, selector: Option<Selector>)

  /** authNRequestAuthentication: tokens of the UDS realm with the client as audience. */
  function RequestAuthenticationOf(labelSelector: Selector, name: string, namespace: string, isAmbient: bool,
                                   waypointName: Option<string>, domain: string): RequestAuthentication
  {
    var issuer := "https://sso." + domain + "/realms/uds";
    var target := PolicyTarget(isAmbient, waypointName, labelSelector);
    RequestAuthentication(ControllerUtils.SanitizeResourceName(name + "-jwt-authn"), namespace,
                          [JwtRule([name], true, issuer, issuer + "/protocol/openid-connect/certs")], target.0, target.1)
  }

  /**
   * The authservice policy has one rule for unauthenticated requests; it
   * names operations exactly when some exemption has a port, and then
   * those are the non-metrics operations.
   */
  lemma AuthservicePolicyRule(labelSelector: Selector, name: string, namespace: string, isAmbient: bool,
                              waypointName: Option<string>, exs: seq<MonitorExemption>)
    ensures var p := AuthservicePolicyOf(labelSelector, name, namespace, isAmbient, waypointName, exs);
      && p.action == Custom && p.provider == Some("authservice") && |p.rules| == 1
      && p.rules[0].from.None? && p.rules[0].when == Some(UnauthenticatedWhen)
      && (p.rules[0].to.None? <==> forall i :: 0 <= i < |exs| ==> !Truthy(exs[i].port))
      && (p.rules[0].to.Some? ==> p.rules[0].to.value == NonMetricsOperations(exs))
  {
    NoExemptionsNoOperations(exs);
  }

  /**
   * The JWT deny policy has one rule, denying requests without a token,
   * when no exemption has a port, and otherwise two: the metrics
   * operations for callers that are neither Prometheus nor hold a token,
   * and the non-metrics operations for callers without a token.
   */
  lemma JwtAuthzRules(labelSelector: Selector, name: string, namespace: string, isAmbient: bool,
                      waypointName: Option<string>, exs: seq<MonitorExemption>, domain: string, prometheusPrincipal: string)
    ensures var p := JwtAuthzPolicyOf(labelSelector, name, namespace, isAmbient, waypointName, exs, domain, prometheusPrincipal);
      var sso := SsoJwtSource(domain);
      && p.action == Deny
      && ((forall i :: 0 <= i < |exs| ==> !Truthy(exs[i].port)) ==>
            p.rules == [Rule(Some([sso]), None, None)])
      && ((exists i :: 0 <= i < |exs| && Truthy(exs[i].port)) ==>
            && |p.rules| == 2
            && p.rules[0] == Rule(Some([sso.(notPrincipals := Some([prometheusPrincipal]))]), Some(MetricsOperations(exs)), None)
            && p.rules[1] == Rule(Some([sso]), Some(NonMetricsOperations(exs)), None))
  {
    NoExemptionsNoOperations(exs);
  }

  /** All three resources are aimed at the same target, exactly one of waypoint or pod selector. */
  lemma PoliciesShareTarget(labelSelector: Selector, name: string, namespace: string, isAmbient: bool,
                            waypointName: Option<string>, exs: seq<MonitorExemption>, domain: string, prometheusPrincipal: string)
    ensures var a := AuthservicePolicyOf(labelSelector, name, namespace, isAmbient, waypointName, exs);
      var j := JwtAuthzPolicyOf(labelSelector, name, namespace, isAmbient, waypointName, exs, domain, prometheusPrincipal);
      var n := RequestAuthenticationOf(labelSelector, name, namespace, isAmbient, waypointName, domain);
      && a.targetRef == j.targetRef == n.targetRef && a.selector == j.selector == n.selector
      && a.targetRef.Some? != a.selector.Some?
      && (a.targetRef.Some? <==> isAmbient && Truthy(waypointName))
  {
  }

  // ---------------------------------------------------------------------
  // Monitor exemptions of a package
  // ---------------------------------------------------------------------

  /** One `monitor` entry of a package, as far as the exemptions read it. */
  datatype Monitor = Monitor(podSelector: Option<Selector>, selector: Selector, targetPort: int, path: Option<string>)

  /** matchesLabels: every label the selector asks for has that value. */
  predicate MatchesLabels(labels: Selector, selector: Selector)
  {
    forall i :: 0 <= i < |selector| ==> Get(labels, selector[i].0) == Some(selector[i].1)
  }

  /** An empty selector protects the whole namespace and so selects every monitor. */
  predicate MonitorSelected(m: Monitor, labelSelector: Selector)
  {
    |labelSelector| == 0 || MatchesLabels(m.podSelector.UnwrapOr(m.selector), labelSelector)
  }

  /** The exemption of one monitor: its target port as text and its path, `/metrics` by default. */
  function ExemptionOf(m: Monitor): MonitorExemption
  {
    MonitorExemption(Some(IntToString(m.targetPort)), Some(if Truthy(m.path) then m.path.value else DefaultMetricsPath))
  }

  /** The exemptions of the selected monitors, in monitor order. */
  function MonitorExemptions(monitors: seq<Monitor>, labelSelector: Selector): seq<MonitorExemption>
  {
    if |monitors| == 0 then []
    else
      var m := monitors[|monitors| - 1];
      MonitorExemptions(monitors[..|monitors| - 1], labelSelector)
        + (if MonitorSelected(m, labelSelector) then [ExemptionOf(m)] else [])
  }

  /** computeMonitorExemptions. */
  method ComputeMonitorExemptions(monitors: seq<Monitor>, labelSelector: Selector) returns (out: seq<MonitorExemption>)
    ensures out == MonitorExemptions(monitors, labelSelector)
  {
    out := [];
    var i := 0;
    while i < |monitors|
      invariant 0 <= i <= |monitors|
      invariant out == MonitorExemptions(monitors[..i], labelSelector)
    {
      var m := monitors[i];
      var sel := if m.podSelector.Some? then m.podSelector.value else m.selector;
      var labelSelectorIsEmpty := |labelSelector| == 0;
      if labelSelectorIsEmpty || MatchesLabels(sel, labelSelector) {
        out := out + [MonitorExemption(Some(IntToString(m.targetPort)), Some(if Truthy(m.path) then m.path.value else DefaultMetricsPath))];
      }
      assert monitors[..i + 1][..i] == monitors[..i];
      i := i + 1;
    }
    assert monitors[..|monitors|] == monitors;
  }

  /** An empty label selector exempts every monitor, one exemption each, in order. */
  lemma {:induction false} EmptySelectorExemptsAll(monitors: seq<Monitor>)
    ensures MonitorExemptions(monitors, []) == seq(|monitors|, i requires 0 <= i < |monitors| => ExemptionOf(monitors[i]))
  {
    if |monitors| > 0 {
      var init := monitors[..|monitors| - 1];
      EmptySelectorExemptsAll(init);
    }
  }

  /** A monitor's exemption is there exactly when the monitor is selected. */
  lemma {:induction false} MonitorExemptionsMembers(monitors: seq<Monitor>, labelSelector: Selector)
    ensures forall m :: m in monitors && MonitorSelected(m, labelSelector) ==> ExemptionOf(m) in MonitorExemptions(monitors, labelSelector)
    ensures forall ex :: ex in MonitorExemptions(monitors, labelSelector) ==>
              exists m :: m in monitors && MonitorSelected(m, labelSelector) && ex == ExemptionOf(m)
  {
    if |monitors| > 0 {
      var init := monitors[..|monitors| - 1];
      MonitorExemptionsMembers(init, labelSelector);
      assert monitors == init + [monitors[|monitors| - 1]];
    }
  }

  /** The sidecar port of the Istio proxy's merged metrics. */
  const SidecarMetricsPort: string := "15020"
  const SidecarMetricsPath: string := "/stats/prometheus"

  /** The exemptions updatePolicy uses: the monitors', plus the sidecar's merged metrics outside ambient mode. */
  function PolicyExemptions(monitors: seq<Monitor>, labelSelector: Selector, isAmbient: bool): seq<MonitorExemption>
  {
    MonitorExemptions(monitors, labelSelector)
      + (if isAmbient then [] else [MonitorExemption(Some(SidecarMetricsPort), Some(SidecarMetricsPath))])
  }

  /** Outside ambient mode the sidecar's metrics port is always exempted with its path. */
  lemma SidecarMetricsExempted(monitors: seq<Monitor>, labelSelector: Selector)
    ensures var g := GroupByPort(PolicyExemptions(monitors, labelSelector, false));
      SidecarMetricsPort in Keys(g) && SidecarMetricsPath in PathsOf(g, SidecarMetricsPort)
  {
    var exs := PolicyExemptions(monitors, labelSelector, false);
    var last := |exs| - 1;
    assert exs[last] == MonitorExemption(Some(SidecarMetricsPort), Some(SidecarMetricsPath));
    GroupByPortSpec(exs, SidecarMetricsPort, SidecarMetricsPath);
  }
}
