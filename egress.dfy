/**
 * Egress to remote hosts: each allow rule with a `remoteHost` names a host,
 * its ports and a protocol; a package's rules are merged into one map from
 * host to its distinct (port, protocol) pairs, and the maps of all packages
 * into one map from host to the packages using it and the union of their
 * pairs. The maps are JavaScript objects, modelled as insertion-ordered
 * association lists.
 */
module Egress {
  import opened Wrappers
  import opened Strings
  import opened AssocLists
  import opened UniqueLists
  import opened Crd

  datatype HostPortsProtocol = HostPortsProtocol(host: string, ports: seq<int>, protocol: RemoteProtocol)

  datatype PortProtocol = PortProtocol(port: int, protocol: RemoteProtocol)

  /** host -> its `portProtocol` list. */
  type HostResourceMap = seq<(string, seq<PortProtocol>)>

  /** One shared egress resource: the packages that use a host and all their pairs. */
  datatype EgressResource = EgressResource(packages: seq<string>, portProtocols: seq<PortProtocol>)

  /** package id -> that package's host map. */
  type PackageHostMap = seq<(string, HostResourceMap)>

  /** host -> its shared egress resource. */
  type EgressResourceMap = seq<(string, EgressResource)>

  /** The port used when an allow names none. */
  const DefaultPort: int := 443

  /** A port given by `port` counts only when it is truthy, that is non-zero. */
  predicate HasSinglePort(allow: Allow) { allow.port.Some? && allow.port.value != 0 }

  // ---------------------------------------------------------------------
  // getHostPortsProtocol
  // ---------------------------------------------------------------------

  /**
   * getHostPortsProtocol: null without a (non-empty) remote host; the ports
   * are `ports` when given (even an empty list), else `[port]` when it is
   * non-zero, else [443]; the protocol defaults to TLS.
   */
  function GetHostPortsProtocol(allow: Allow): (r: Option<HostPortsProtocol>)
    ensures r.Some? <==> Truthy(allow.remoteHost)
    ensures r.Some? ==> r.value.host == allow.remoteHost.value
    ensures r.Some? ==> r.value.protocol == allow.remoteProtocol.UnwrapOr(TLS)
    ensures r.Some? ==> (r.value.ports == [] <==> allow.ports == Some([]))
    ensures r.Some? && allow.ports.Some? ==> r.value.ports == allow.ports.value
    ensures r.Some? && allow.ports.None? ==>
      r.value.ports == [if HasSinglePort(allow) then allow.port.value else DefaultPort]
  {
    var protocol := if allow.remoteProtocol.Some? then allow.remoteProtocol.value else TLS;
    var ports :=
      if allow.ports.Some? then allow.ports.value
      else if HasSinglePort(allow) then [allow.port.value]
      else [DefaultPort];
    if Truthy(allow.remoteHost) then Some(HostPortsProtocol(allow.remoteHost.value, ports, protocol))
    else None
  }

  // ---------------------------------------------------------------------
  // createHostResourceMap
  // ---------------------------------------------------------------------

  /** The pairs one HostPortsProtocol stands for, in port order. */
  function PairsOf(hpp: HostPortsProtocol): (r: seq<PortProtocol>)
    ensures |r| == |hpp.ports|
    ensures forall i :: 0 <= i < |r| ==> r[i] == PortProtocol(hpp.ports[i], hpp.protocol)
  {
    seq(|hpp.ports|, i requires 0 <= i < |hpp.ports| => PortProtocol(hpp.ports[i], hpp.protocol))
  }

  /** The pairs currently listed for `host` ([] when it has no entry). */
  function PairsAt(m: HostResourceMap, host: string): seq<PortProtocol>
  {
    Get(m, host).UnwrapOr([])
  }

  /** One turn of the loop over the allow rules. */
  function AddAllow(m: HostResourceMap, allow: Allow): HostResourceMap
  {
    match GetHostPortsProtocol(allow)
    case None => m
    case Some(hpp) => Put(m, hpp.host, Union(PairsAt(m, hpp.host), PairsOf(hpp)))
  }

  /** The host map after the loop over `allows`. */
  function CollectHosts(allows: seq<Allow>): HostResourceMap
    decreases |allows|
  {
    if allows == [] then [] else AddAllow(CollectHosts(allows[..|allows| - 1]), allows[|allows| - 1])
  }

  /** createHostResourceMap's result: the map, or null when it has no key. */
  function HostResourceMapOf(allows: seq<Allow>): Option<HostResourceMap>
  {
    var m := CollectHosts(allows);
    if |m| > 0 then Some(m) else None
  }

  /**
   * One turn of the loop over the allow rules: for a rule with a host, create
   * the host's entry when missing, then push each of its pairs not yet listed.
   */
  method AddAllowEntry(m0: HostResourceMap, allow: Allow) returns (m: HostResourceMap)
    ensures m == AddAllow(m0, allow)
  {
    m := m0;
    var hpp := GetHostPortsProtocol(allow);
    if hpp.Some? {
      var host := hpp.value.host;
      if Get(m, host).None? {
        m := Put(m, host, []);
        PutGet(m0, host, [], host);
      }
      assert Get(m, host).value == PairsAt(m0, host);
      var pairs := AppendMissing(Get(m, host).value, PairsOf(hpp.value));
      PutPut(m0, host, [], pairs);
      m := Put(m, host, pairs);
    }
  }

  /**
   * createHostResourceMap over `pkg.spec?.network?.allow ?? []` (an absent
   * list is passed as []).
   */
  method CreateHostResourceMap(allows: seq<Allow>) returns (r: Option<HostResourceMap>)
    ensures r == HostResourceMapOf(allows)
  {
    var m: HostResourceMap := [];
    var i := 0;
    while i < |allows|
      invariant 0 <= i <= |allows|
      invariant m == CollectHosts(allows[..i])
    {
      assert allows[..i + 1][..i] == allows[..i];
      m := AddAllowEntry(m, allows[i]);
      i := i + 1;
    }
    assert allows[..i] == allows;
    return if |m| > 0 then Some(m) else None;
  }

  /** An allow rule contributes `pp` to `host`. */
  ghost predicate Contributes(allow: Allow, host: string, pp: PortProtocol)
  {
    var hpp := GetHostPortsProtocol(allow);
    hpp.Some? && hpp.value.host == host && pp.protocol == hpp.value.protocol && pp.port in hpp.value.ports
  }

  /** An allow rule names `host`. */
  ghost predicate NamesHost(allow: Allow, host: string)
  {
    var hpp := GetHostPortsProtocol(allow);
    hpp.Some? && hpp.value.host == host
  }

  lemma PairsOfMembers(hpp: HostPortsProtocol, pp: PortProtocol)
    ensures pp in PairsOf(hpp) <==> pp.protocol == hpp.protocol && pp.port in hpp.ports
  {
    if pp.protocol == hpp.protocol && pp.port in hpp.ports {
      var i :| 0 <= i < |hpp.ports| && hpp.ports[i] == pp.port;
      assert PairsOf(hpp)[i] == pp;
    }
  }

  /** What one allow rule does to the entry of `host`. */
  lemma AddAllowAt(m: HostResourceMap, allow: Allow, host: string)
    ensures Get(AddAllow(m, allow), host).Some? <==> Get(m, host).Some? || NamesHost(allow, host)
    ensures PairsAt(AddAllow(m, allow), host) ==
      if NamesHost(allow, host) then Union(PairsAt(m, host), PairsOf(GetHostPortsProtocol(allow).value))
      else PairsAt(m, host)
  {
    var hpp := GetHostPortsProtocol(allow);
    if hpp.Some? {
      PutGet(m, hpp.value.host, Union(PairsAt(m, hpp.value.host), PairsOf(hpp.value)), host);
    }
  }

  /** The host map has an entry for exactly the hosts some rule names. */
  lemma {:induction false} CollectHostsKeys(allows: seq<Allow>, host: string)
    ensures Get(CollectHosts(allows), host).Some? <==> exists i :: 0 <= i < |allows| && NamesHost(allows[i], host)
    decreases |allows|
  {
    if allows != [] {
      var n := |allows| - 1;
      var prefix := allows[..n];
      CollectHostsKeys(prefix, host);
      ExistsSplitLast(allows, prefix, a => NamesHost(a, host));
      AddAllowAt(CollectHosts(prefix), allows[n], host);
    }
  }

  /** Each entry of the host map lists its pairs once each. */
  lemma {:induction false} CollectHostsDistinct(allows: seq<Allow>, host: string)
    ensures Distinct(PairsAt(CollectHosts(allows), host))
    decreases |allows|
  {
    if allows != [] {
      var n := |allows| - 1;
      CollectHostsDistinct(allows[..n], host);
      AddAllowAt(CollectHosts(allows[..n]), allows[n], host);
    }
  }

  /** The entry of `host` lists exactly the pairs that some rule contributes to it. */
  lemma {:induction false} CollectHostsPairs(allows: seq<Allow>, host: string, pp: PortProtocol)
    ensures pp in PairsAt(CollectHosts(allows), host) <==>
      exists i :: 0 <= i < |allows| && Contributes(allows[i], host, pp)
    decreases |allows|
  {
    if allows != [] {
      var n := |allows| - 1;
      var prefix := allows[..n];
      CollectHostsPairs(prefix, host, pp);
      ExistsSplitLast(allows, prefix, a => Contributes(a, host, pp));
      AddAllowAt(CollectHosts(prefix), allows[n], host);
      if NamesHost(allows[n], host) {
        PairsOfMembers(GetHostPortsProtocol(allows[n]).value, pp);
      }
    }
  }

  /** createHostResourceMap is null exactly when no rule has a remote host. */
  lemma CreateNullIffNoHost(allows: seq<Allow>)
    ensures HostResourceMapOf(allows).None? <==> forall i :: 0 <= i < |allows| ==> !Truthy(allows[i].remoteHost)
  {
    var m := CollectHosts(allows);
    if |m| > 0 {
      CollectHostsKeys(allows, m[0].0);
      assert Keys(m)[0] == m[0].0;
    } else {
      forall i | 0 <= i < |allows| ensures !Truthy(allows[i].remoteHost) {
        if Truthy(allows[i].remoteHost) {
          CollectHostsKeys(allows, allows[i].remoteHost.value);
        }
      }
    }
  }

  /**
   * createHostResourceMap keeps unique pairs per host: each host's list holds
   * every (port, protocol) pair some rule for that host names, once, and no other.
   */
  lemma CreateKeepsPairsUnique(allows: seq<Allow>, host: string, pp: PortProtocol)
    requires HostResourceMapOf(allows).Some?
    requires host in Keys(HostResourceMapOf(allows).value)
    ensures var pairs := Get(HostResourceMapOf(allows).value, host).value;
      && Distinct(pairs)
      && (pp in pairs <==> exists i :: 0 <= i < |allows| && Contributes(allows[i], host, pp))
  {
    CollectHostsDistinct(allows, host);
    CollectHostsPairs(allows, host, pp);
  }

  // ---------------------------------------------------------------------
  // remapEgressResources
  // ---------------------------------------------------------------------

  const EmptyResource := EgressResource([], [])

  function ResourceAt(er: EgressResourceMap, host: string): EgressResource
  {
    Get(er, host).UnwrapOr(EmptyResource)
  }

  /** One turn of the loop over one package's hosts. */
  function AddHost(er: EgressResourceMap, pkgId: string, host: string, pairs: seq<PortProtocol>): EgressResourceMap
  {
    var cur := ResourceAt(er, host);
    Put(er, host, EgressResource(AddUnique(cur.packages, pkgId), Union(cur.portProtocols, pairs)))
  }

  /** The loop over the hosts of one package. */
  function AddPackage(er: EgressResourceMap, pkgId: string, hosts: HostResourceMap): EgressResourceMap
    decreases |hosts|
  {
    if hosts == [] then er
    else
      var n := |hosts| - 1;
      AddHost(AddPackage(er, pkgId, hosts[..n]), pkgId, hosts[n].0, hosts[n].1)
  }

  /** The egress resources after the loop over all packages. */
  function Remap(packageEgress: PackageHostMap): EgressResourceMap
    decreases |packageEgress|
  {
    if packageEgress == [] then []
    else
      var n := |packageEgress| - 1;
      AddPackage(Remap(packageEgress[..n]), packageEgress[n].0, packageEgress[n].1)
  }

  /**
   * One turn of the loop over a package's hosts: create the host's resource
   * when missing, push the package id unless listed, then push each missing pair.
   */
  method AddHostEntry(er0: EgressResourceMap, pkgId: string, host: string, pairs: seq<PortProtocol>)
    returns (er: EgressResourceMap)
    ensures er == AddHost(er0, pkgId, host, pairs)
  {
    er := er0;
    if Get(er, host).None? {
      er := Put(er, host, EmptyResource);
      PutGet(er0, host, EmptyResource, host);
    }
    var entry := Get(er, host).value;
    assert entry == ResourceAt(er0, host);
    if pkgId !in entry.packages {
      entry := entry.(packages := entry.packages + [pkgId]);
    }
    var merged := AppendMissing(entry.portProtocols, pairs);
    entry := entry.(portProtocols := merged);
    PutPut(er0, host, EmptyResource, entry);
    er := Put(er, host, entry);
  }

  /** The loop over the hosts of one package. */
  method AddPackageHosts(er0: EgressResourceMap, pkgId: string, hosts: HostResourceMap) returns (er: EgressResourceMap)
    ensures er == AddPackage(er0, pkgId, hosts)
  {
    er := er0;
    var k := 0;
    while k < |hosts|
      invariant 0 <= k <= |hosts|
      invariant er == AddPackage(er0, pkgId, hosts[..k])
    {
      assert hosts[..k + 1][..k] == hosts[..k];
      er := AddHostEntry(er, pkgId, hosts[k].0, hosts[k].1);
      k := k + 1;
    }
    assert hosts[..k] == hosts;
  }

  /**
   * remapEgressResources. Each object is walked in key order, which is the
   * order of its entries here.
   */
  method RemapEgressResources(packageEgress: PackageHostMap) returns (er: EgressResourceMap)
    ensures er == Remap(packageEgress)
  {
    er := [];
    var i := 0;
    while i < |packageEgress|
      invariant 0 <= i <= |packageEgress|
      invariant er == Remap(packageEgress[..i])
    {
      assert packageEgress[..i + 1][..i] == packageEgress[..i];
      er := AddPackageHosts(er, packageEgress[i].0, packageEgress[i].1);
      i := i + 1;
    }
    assert packageEgress[..i] == packageEgress;
  }

  /** `hosts` has an entry for `host`. */
  ghost predicate HasHost(hosts: HostResourceMap, host: string)
  {
    exists k :: 0 <= k < |hosts| && hosts[k].0 == host
  }

  /** `hosts` has an entry for `host` listing `pp`. */
  ghost predicate ListsPair(hosts: HostResourceMap, host: string, pp: PortProtocol)
  {
    exists k :: 0 <= k < |hosts| && hosts[k].0 == host && pp in hosts[k].1
  }

  /** What one host entry of a package does to the resource of `host`. */
  lemma AddHostAt(er: EgressResourceMap, pkgId: string, h: string, pairs: seq<PortProtocol>, host: string)
    ensures Get(AddHost(er, pkgId, h, pairs), host).Some? <==> Get(er, host).Some? || h == host
    ensures ResourceAt(AddHost(er, pkgId, h, pairs), host) ==
      if h == host then
        EgressResource(AddUnique(ResourceAt(er, host).packages, pkgId), Union(ResourceAt(er, host).portProtocols, pairs))
      else ResourceAt(er, host)
  {
    var cur := ResourceAt(er, h);
    PutGet(er, h, EgressResource(AddUnique(cur.packages, pkgId), Union(cur.portProtocols, pairs)), host);
  }

  lemma {:induction false} AddPackageKeys(er: EgressResourceMap, pkgId: string, hosts: HostResourceMap, host: string)
    ensures Get(AddPackage(er, pkgId, hosts), host).Some? <==> Get(er, host).Some? || HasHost(hosts, host)
    decreases |hosts|
  {
    if hosts != [] {
      var n := |hosts| - 1;
      var prefix := hosts[..n];
      AddPackageKeys(er, pkgId, prefix, host);
      ExistsSplitLast(hosts, prefix, (e: (string, seq<PortProtocol>)) => e.0 == host);
      AddHostAt(AddPackage(er, pkgId, prefix), pkgId, hosts[n].0, hosts[n].1, host);
    }
  }

  lemma {:induction false} AddPackageDistinct(er: EgressResourceMap, pkgId: string, hosts: HostResourceMap, host: string)
    requires Distinct(ResourceAt(er, host).packages) && Distinct(ResourceAt(er, host).portProtocols)
    ensures Distinct(ResourceAt(AddPackage(er, pkgId, hosts), host).packages)
    ensures Distinct(ResourceAt(AddPackage(er, pkgId, hosts), host).portProtocols)
    decreases |hosts|
  {
    if hosts != [] {
      var n := |hosts| - 1;
      AddPackageDistinct(er, pkgId, hosts[..n], host);
      AddHostAt(AddPackage(er, pkgId, hosts[..n]), pkgId, hosts[n].0, hosts[n].1, host);
    }
  }

  lemma {:induction false} AddPackagePackages(er: EgressResourceMap, pkgId: string, hosts: HostResourceMap, host: string, p: string)
    ensures p in ResourceAt(AddPackage(er, pkgId, hosts), host).packages <==>
      p in ResourceAt(er, host).packages || (p == pkgId && HasHost(hosts, host))
    decreases |hosts|
  {
    if hosts != [] {
      var n := |hosts| - 1;
      var prefix := hosts[..n];
      AddPackagePackages(er, pkgId, prefix, host, p);
      ExistsSplitLast(hosts, prefix, (e: (string, seq<PortProtocol>)) => e.0 == host);
      AddHostAt(AddPackage(er, pkgId, prefix), pkgId, hosts[n].0, hosts[n].1, host);
    }
  }

  lemma {:induction false} AddPackagePairs(er: EgressResourceMap, pkgId: string, hosts: HostResourceMap, host: string, pp: PortProtocol)
    ensures pp in ResourceAt(AddPackage(er, pkgId, hosts), host).portProtocols <==>
      pp in ResourceAt(er, host).portProtocols || ListsPair(hosts, host, pp)
    decreases |hosts|
  {
    if hosts != [] {
      var n := |hosts| - 1;
      var prefix := hosts[..n];
      AddPackagePairs(er, pkgId, prefix, host, pp);
      ExistsSplitLast(hosts, prefix, (e: (string, seq<PortProtocol>)) => e.0 == host && pp in e.1);
      AddHostAt(AddPackage(er, pkgId, prefix), pkgId, hosts[n].0, hosts[n].1, host);
    }
  }

  /** A package names `host` in its host map. */
  ghost predicate UsesHost(packageEgress: PackageHostMap, pkgId: string, host: string)
  {
    exists i :: 0 <= i < |packageEgress| && packageEgress[i].0 == pkgId && HasHost(packageEgress[i].1, host)
  }

  /** Some package lists `pp` for `host`. */
  ghost predicate SomeListsPair(packageEgress: PackageHostMap, host: string, pp: PortProtocol)
  {
    exists i :: 0 <= i < |packageEgress| && ListsPair(packageEgress[i].1, host, pp)
  }

  /** A host has a shared resource exactly when some package names it. */
  lemma {:induction false} RemapKeys(packageEgress: PackageHostMap, host: string)
    ensures Get(Remap(packageEgress), host).Some? <==>
      exists i :: 0 <= i < |packageEgress| && HasHost(packageEgress[i].1, host)
    decreases |packageEgress|
  {
    if packageEgress != [] {
      var n := |packageEgress| - 1;
      var prefix := packageEgress[..n];
      RemapKeys(prefix, host);
      ExistsSplitLast(packageEgress, prefix, (e: (string, HostResourceMap)) => HasHost(e.1, host));
      AddPackageKeys(Remap(prefix), packageEgress[n].0, packageEgress[n].1, host);
    }
  }

  /** Each resource lists its packages and its pairs once each. */
  lemma {:induction false} RemapDistinct(packageEgress: PackageHostMap, host: string)
    ensures Distinct(ResourceAt(Remap(packageEgress), host).packages)
    ensures Distinct(ResourceAt(Remap(packageEgress), host).portProtocols)
    decreases |packageEgress|
  {
    if packageEgress != [] {
      var n := |packageEgress| - 1;
      RemapDistinct(packageEgress[..n], host);
      AddPackageDistinct(Remap(packageEgress[..n]), packageEgress[n].0, packageEgress[n].1, host);
    }
  }

  /** A resource's packages are exactly the packages whose host map names the host. */
  lemma {:induction false} RemapPackages(packageEgress: PackageHostMap, host: string, p: string)
    ensures p in ResourceAt(Remap(packageEgress), host).packages <==> UsesHost(packageEgress, p, host)
    decreases |packageEgress|
  {
    if packageEgress != [] {
      var n := |packageEgress| - 1;
      var prefix := packageEgress[..n];
      RemapPackages(prefix, host, p);
      ExistsSplitLast(packageEgress, prefix, (e: (string, HostResourceMap)) => e.0 == p && HasHost(e.1, host));
      AddPackagePackages(Remap(prefix), packageEgress[n].0, packageEgress[n].1, host, p);
    }
  }

  /** A resource's pairs are exactly the pairs some package lists for the host. */
  lemma {:induction false} RemapPairs(packageEgress: PackageHostMap, host: string, pp: PortProtocol)
    ensures pp in ResourceAt(Remap(packageEgress), host).portProtocols <==> SomeListsPair(packageEgress, host, pp)
    decreases |packageEgress|
  {
    if packageEgress != [] {
      var n := |packageEgress| - 1;
      var prefix := packageEgress[..n];
      RemapPairs(prefix, host, pp);
      ExistsSplitLast(packageEgress, prefix, (e: (string, HostResourceMap)) => ListsPair(e.1, host, pp));
      AddPackagePairs(Remap(prefix), packageEgress[n].0, packageEgress[n].1, host, pp);
    }
  }

  /**
   * remapEgressResources: each host's package list holds, once each, exactly
   * the packages naming it, and its port/protocol list, once each, exactly the
   * pairs some package lists for it.
   */
  lemma RemapIsDistinctUnion(packageEgress: PackageHostMap, host: string, p: string, pp: PortProtocol)
    ensures var r := ResourceAt(Remap(packageEgress), host);
      && Distinct(r.packages) && Distinct(r.portProtocols)
      && (p in r.packages <==> UsesHost(packageEgress, p, host))
      && (pp in r.portProtocols <==> SomeListsPair(packageEgress, host, pp))
  {
    RemapDistinct(packageEgress, host);
    RemapPackages(packageEgress, host, p);
    RemapPairs(packageEgress, host, pp);
  }
}
