/**
 * The shared blackbox exporter configuration: one SSO probe module per
 * probe client of a namespace, named `http_200x_sso_<namespace>_<clientId>`,
 * beside the modules of other namespaces and the base `http_2xx` module.
 */
module UptimeConfig {
  import opened Wrappers
  import opened Strings
  import opened AssocLists
  import Sorting

  const BlackboxConfigSecretName: string := "uds-prometheus-blackbox-config"
  const BlackboxConfigNamespace: string := "monitoring"

  /** The client-credentials login an SSO probe performs before probing. */
  datatype OAuth2 = OAuth2(clientId: string, clientSecret: string, tokenUrl: string, grantType: string)

  datatype HttpProbe = HttpProbe(validHttpVersions: seq<string>, followRedirects: bool, preferredIpProtocol: string, oauth2: Option<OAuth2>)

  datatype BlackboxModule = BlackboxModule(prober: string, timeout: string, http: HttpProbe)

  /** `modules`: module names with their module, in the object's key order. */
  type Modules = seq<(string, BlackboxModule)>

  /** The credentials of one probe client. */
  datatype ProbeClient = ProbeClient(clientId: string, secret: string)

  /** The module set the secret starts with. */
  const BaseModules: Modules :=
    [("http_2xx", BlackboxModule("http", "5s", HttpProbe(["HTTP/1.1", "HTTP/2.0"], true, "ip4", None)))]

  /** The prefix of every SSO module the namespace owns. */
  function SsoModulePrefix(namespace: string): string
  {
    "http_200x_sso_" + namespace + "_"
  }

  function SsoModuleName(namespace: string, clientId: string): string
  {
    SsoModulePrefix(namespace) + clientId
  }

  /** The token endpoint of the UDS realm. */
  function TokenUrl(domain: string): string
  {
    "https://sso." + domain + "/realms/uds/protocol/openid-connect/token"
  }

  /** The module generated for one probe client: no redirects, a client-credentials token first. */
  function SsoModule(client: ProbeClient, tokenUrl: string): BlackboxModule
  {
    BlackboxModule("http", "5s",
      HttpProbe(["HTTP/1.1", "HTTP/2.0"], false, "ip4", Some(OAuth2(client.clientId, client.secret, tokenUrl, "client_credentials"))))
  }

  /** The modules left after dropping those the namespace owns, in their order. */
  function WithoutNamespace(modules: Modules, namespace: string): (r: Modules)
    ensures forall e :: e in r <==> e in modules && !StartsWith(e.0, SsoModulePrefix(namespace))
    ensures DistinctKeys(modules) ==> DistinctKeys(r)
  {
    if |modules| == 0 then []
    else
      var rest := WithoutNamespace(modules[1..], namespace);
      assert forall e :: e in modules <==> e == modules[0] || e in modules[1..];
      if StartsWith(modules[0].0, SsoModulePrefix(namespace)) then rest
      else
        assert DistinctKeys(modules) ==> forall e :: e in rest ==> e.0 != modules[0].0 by {
          if DistinctKeys(modules) {
            forall e | e in rest ensures e.0 != modules[0].0 {
              var k :| 0 <= k < |modules[1..]| && modules[1..][k] == e;
              assert modules[k + 1] == e;
            }
          }
        }
        assert DistinctKeys(modules) ==> DistinctKeys(modules[1..]) by {
          if DistinctKeys(modules) {
            forall a, b | 0 <= a < b < |modules[1..]| ensures modules[1..][a].0 != modules[1..][b].0 {
              assert modules[1..][a] == modules[a + 1] && modules[1..][b] == modules[b + 1];
            }
          }
        }
        [modules[0]] + rest
  }

  /**
   * Filtering distributes over concatenation; with WithoutNamespaceSingle this
   * fixes the result outright: the kept modules, in their original order.
   */
  lemma {:induction false} WithoutNamespaceAppend(a: Modules, b: Modules, namespace: string)
    ensures WithoutNamespace(a + b, namespace) == WithoutNamespace(a, namespace) + WithoutNamespace(b, namespace)
  {
    if |a| == 0 {
      assert a + b == b;
    } else {
      assert (a + b)[0] == a[0];
      assert (a + b)[1..] == a[1..] + b;
      WithoutNamespaceAppend(a[1..], b, namespace);
    }
  }

  /** One module is kept exactly when the namespace does not own it. */
  lemma WithoutNamespaceSingle(e: (string, BlackboxModule), namespace: string)
    ensures WithoutNamespace([e], namespace) == if StartsWith(e.0, SsoModulePrefix(namespace)) then [] else [e]
  {
    assert [e][1..] == [];
  }

  /** The modules after assigning one SSO module per client, in client order. */
  function WithProbeModules(modules: Modules, namespace: string, clients: seq<ProbeClient>, tokenUrl: string): Modules
  {
    if |clients| == 0 then modules
    else
      var last := clients[|clients| - 1];
      Put(WithProbeModules(modules, namespace, clients[..|clients| - 1], tokenUrl), SsoModuleName(namespace, last.clientId),
          SsoModule(last, tokenUrl))
  }

  /** The last client whose module bears `name`; a later client overwrites an earlier one's module. */
  function LastClientNamed(clients: seq<ProbeClient>, namespace: string, name: string): (r: Option<ProbeClient>)
    ensures r.None? <==> forall i :: 0 <= i < |clients| ==> SsoModuleName(namespace, clients[i].clientId) != name
    ensures r.Some? ==> r.value in clients && SsoModuleName(namespace, r.value.clientId) == name
  {
    if |clients| == 0 then None
    else
      var last := clients[|clients| - 1];
      var init := clients[..|clients| - 1];
      assert forall i :: 0 <= i < |init| ==> init[i] == clients[i];
      if SsoModuleName(namespace, last.clientId) == name then Some(last)
      else
        var r := LastClientNamed(init, namespace, name);
        assert r.Some? ==> r.value in clients by {
          if r.Some? {
            var k :| 0 <= k < |init| && init[k] == r.value;
          }
        }
        r
  }

  function EntryName(e: (string, BlackboxModule)): string
  {
    e.0
  }

  /** The module set updateBlackboxConfig writes back: filtered, regenerated and sorted by name. */
  function UpdatedModules(current: Modules, namespace: string, clients: seq<ProbeClient>, domain: string): Modules
  {
    Sorting.SortBy(WithProbeModules(WithoutNamespace(current, namespace), namespace, clients, TokenUrl(domain)), EntryName)
  }

  /**
   * updateBlackboxConfig on the parsed configuration: the secret's read and
   * write, the mutex and the base64 and JSON encodings are outside the model.
   */
  method UpdateBlackboxConfig(current: Modules, namespace: string, probeClients: seq<ProbeClient>, domain: string)
    returns (sortedModules: Modules)
    ensures sortedModules == UpdatedModules(current, namespace, probeClients, domain)
  {
    var filtered := WithoutNamespace(current, namespace);
    var modules := filtered;
    var tokenUrl := "https://sso." + domain + "/realms/uds/protocol/openid-connect/token";
    var i := 0;
    while i < |probeClients|
      invariant 0 <= i <= |probeClients|
      invariant modules == WithProbeModules(filtered, namespace, probeClients[..i], tokenUrl)
    {
      var client := probeClients[i];
      modules := Put(modules, "http_200x_sso_" + namespace + "_" + client.clientId, SsoModule(client, tokenUrl));
      assert probeClients[..i + 1][..i] == probeClients[..i];
      i := i + 1;
    }
    assert probeClients[..|probeClients|] == probeClients;
    sortedModules := Sorting.SortBy(modules, EntryName);
  }

  // ---------------------------------------------------------------------
  // Lookups in the updated module set
  // ---------------------------------------------------------------------

  /** With distinct keys, a lookup finds exactly the entries of the list. */
  lemma DistinctGet(m: Modules, name: string, probe: BlackboxModule)
    requires DistinctKeys(m)
    ensures Get(m, name) == Some(probe) <==> (name, probe) in m
  {
    if (name, probe) in m {
      var i :| 0 <= i < |m| && m[i] == (name, probe);
      var r := Get(m, name);
      var j :| 0 <= j < |m| && m[j] == (name, r.value);
      assert i == j;
    }
  }

  /** Filtering drops the lookups of the namespace's own modules and keeps all others. */
  lemma WithoutNamespaceGet(modules: Modules, namespace: string, name: string)
    requires DistinctKeys(modules)
    ensures Get(WithoutNamespace(modules, namespace), name) ==
            if StartsWith(name, SsoModulePrefix(namespace)) then None else Get(modules, name)
  {
    var f := WithoutNamespace(modules, namespace);
    var g := Get(f, name);
    if g.Some? {
      DistinctGet(f, name, g.value);
      DistinctGet(modules, name, g.value);
    }
    var h := Get(modules, name);
    if h.Some? && !StartsWith(name, SsoModulePrefix(namespace)) {
      DistinctGet(f, name, h.value);
      DistinctGet(modules, name, h.value);
    }
  }

  /** Assigning the clients' modules: a name bears the last matching client's module, or what it bore before. */
  lemma {:induction false} WithProbeModulesGet(modules: Modules, namespace: string, clients: seq<ProbeClient>, tokenUrl: string, name: string)
    ensures Get(WithProbeModules(modules, namespace, clients, tokenUrl), name) ==
            if LastClientNamed(clients, namespace, name).Some? then Some(SsoModule(LastClientNamed(clients, namespace, name).value, tokenUrl))
            else Get(modules, name)
  {
    if |clients| > 0 {
      var last := clients[|clients| - 1];
      var init := clients[..|clients| - 1];
      WithProbeModulesGet(modules, namespace, init, tokenUrl, name);
      PutGet(WithProbeModules(modules, namespace, init, tokenUrl), SsoModuleName(namespace, last.clientId), SsoModule(last, tokenUrl), name);
    }
  }

  lemma {:induction false} WithProbeModulesDistinct(modules: Modules, namespace: string, clients: seq<ProbeClient>, tokenUrl: string)
    requires DistinctKeys(modules)
    ensures DistinctKeys(WithProbeModules(modules, namespace, clients, tokenUrl))
  {
    if |clients| > 0 {
      var last := clients[|clients| - 1];
      WithProbeModulesDistinct(modules, namespace, clients[..|clients| - 1], tokenUrl);
      PutDistinct(WithProbeModules(modules, namespace, clients[..|clients| - 1], tokenUrl), SsoModuleName(namespace, last.clientId),
                  SsoModule(last, tokenUrl));
    }
  }

  /** A list with distinct keys holds each entry once. */
  lemma {:induction false} DistinctOnce(m: Modules, e: (string, BlackboxModule))
    requires DistinctKeys(m)
    ensures multiset(m)[e] <= 1
  {
    if |m| > 0 {
      assert m == [m[0]] + m[1..];
      assert DistinctKeys(m[1..]) by {
        forall a, b | 0 <= a < b < |m[1..]| ensures m[1..][a].0 != m[1..][b].0 {
          assert m[1..][a] == m[a + 1] && m[1..][b] == m[b + 1];
        }
      }
      DistinctOnce(m[1..], e);
      if m[0] == e {
        assert e !in m[1..] by {
          forall k | 0 <= k < |m[1..]| ensures m[1..][k] != e {
            assert m[1..][k] == m[k + 1];
          }
        }
      }
    }
  }

  /** Reordering a list with distinct keys keeps them distinct. */
  lemma PermutationDistinct(s: Modules, r: Modules)
    requires multiset(r) == multiset(s) && DistinctKeys(s)
    ensures DistinctKeys(r)
  {
    forall i, j | 0 <= i < j < |r| ensures r[i].0 != r[j].0 {
      if r[i] == r[j] {
        assert r == r[..i] + [r[i]] + r[i + 1..j] + [r[j]] + r[j + 1..];
        assert multiset(r)[r[i]] >= 2;
        DistinctOnce(s, r[i]);
      } else {
        assert r[i] in multiset(s) && r[j] in multiset(s);
        var a :| 0 <= a < |s| && s[a] == r[i];
        var b :| 0 <= b < |s| && s[b] == r[j];
        assert a != b;
      }
    }
  }

  /** Reordering a list with distinct keys changes no lookup. */
  lemma PermutationGet(s: Modules, r: Modules, name: string)
    requires multiset(r) == multiset(s) && DistinctKeys(s)
    ensures DistinctKeys(r) && Get(r, name) == Get(s, name)
  {
    PermutationDistinct(s, r);
    var g := Get(s, name);
    if g.Some? {
      DistinctGet(s, name, g.value);
      assert (name, g.value) in multiset(r);
      DistinctGet(r, name, g.value);
    }
    var h := Get(r, name);
    if h.Some? {
      DistinctGet(r, name, h.value);
      assert (name, h.value) in multiset(s);
      DistinctGet(s, name, h.value);
    }
  }

  /**
   * The updated modules are sorted by name with each name once; a name
   * bearing a client's module name holds the last such client's module,
   * any other name of the namespace's prefix is gone, and every other
   * module is kept as it was.
   */
  lemma UpdatedModulesSpec(current: Modules, namespace: string, clients: seq<ProbeClient>, domain: string, name: string)
    requires DistinctKeys(current)
    ensures var r := UpdatedModules(current, namespace, clients, domain);
      && Sorting.SortedBy(r, EntryName) && DistinctKeys(r)
      && Get(r, name) == if LastClientNamed(clients, namespace, name).Some? then Some(SsoModule(LastClientNamed(clients, namespace, name).value, TokenUrl(domain)))
                         else if StartsWith(name, SsoModulePrefix(namespace)) then None
                         else Get(current, name)
  {
    var filtered := WithoutNamespace(current, namespace);
    var regenerated := WithProbeModules(filtered, namespace, clients, TokenUrl(domain));
    WithProbeModulesDistinct(filtered, namespace, clients, TokenUrl(domain));
    PermutationGet(regenerated, UpdatedModules(current, namespace, clients, domain), name);
    WithProbeModulesGet(filtered, namespace, clients, TokenUrl(domain), name);
    WithoutNamespaceGet(current, namespace, name);
  }

  /** With no probe clients, none of the namespace's SSO modules is left and nothing else changes. */
  lemma NoClientsClearNamespace(current: Modules, namespace: string, domain: string, name: string)
    requires DistinctKeys(current)
    ensures Get(UpdatedModules(current, namespace, [], domain), name) ==
            if StartsWith(name, SsoModulePrefix(namespace)) then None else Get(current, name)
  {
    UpdatedModulesSpec(current, namespace, [], domain, name);
  }

  /** Each probe client's module is present, unless a later client has the same id. */
  lemma EveryClientProbed(current: Modules, namespace: string, clients: seq<ProbeClient>, domain: string, i: nat)
    requires DistinctKeys(current) && i < |clients|
    requires forall j :: i < j < |clients| ==> clients[j].clientId != clients[i].clientId
    ensures Get(UpdatedModules(current, namespace, clients, domain), SsoModuleName(namespace, clients[i].clientId)) ==
            Some(SsoModule(clients[i], TokenUrl(domain)))
  {
    var name := SsoModuleName(namespace, clients[i].clientId);
    UpdatedModulesSpec(current, namespace, clients, domain, name);
    LastClientAt(clients, namespace, i);
  }

  lemma {:induction false} LastClientAt(clients: seq<ProbeClient>, namespace: string, i: nat)
    requires i < |clients|
    requires forall j :: i < j < |clients| ==> clients[j].clientId != clients[i].clientId
    ensures LastClientNamed(clients, namespace, SsoModuleName(namespace, clients[i].clientId)) == Some(clients[i])
  {
    var last := |clients| - 1;
    if i < last {
      var init := clients[..last];
      assert clients[last].clientId != clients[i].clientId;
      assert SsoModuleName(namespace, clients[last].clientId) != SsoModuleName(namespace, clients[i].clientId) by {
        assert SsoModuleName(namespace, clients[last].clientId)[|SsoModulePrefix(namespace)|..] == clients[last].clientId;
        assert SsoModuleName(namespace, clients[i].clientId)[|SsoModulePrefix(namespace)|..] == clients[i].clientId;
      }
      assert init[i] == clients[i];
      LastClientAt(init, namespace, i);
    }
  }

  /** A Kubernetes namespace name: not empty and without underscores. */
  predicate NamespaceName(namespace: string)
  {
    namespace != "" && '_' !in namespace
  }

  /** No module of one namespace carries another namespace's prefix. */
  lemma PrefixesDisjoint(namespace: string, other: string, clientId: string)
    requires NamespaceName(namespace) && NamespaceName(other) && namespace != other
    ensures !StartsWith(SsoModuleName(other, clientId), SsoModulePrefix(namespace))
  {
    var s := SsoModuleName(other, clientId);
    var p := SsoModulePrefix(namespace);
    if |p| <= |s| {
      var k: nat;
      if |namespace| < |other| {
        k := 14 + |namespace|;
        assert s[k] == other[|namespace|] && p[k] == '_';
      } else if |namespace| > |other| {
        k := 14 + |other|;
        assert s[k] == '_' && p[k] == namespace[|other|];
      } else {
        var d :| 0 <= d < |other| && namespace[d] != other[d];
        k := 14 + d;
        assert s[k] == other[d] && p[k] == namespace[d];
      }
      assert s[..|p|][k] != p[k];
    }
  }

  /** Updating one namespace keeps every module of another namespace as it was. */
  lemma OtherNamespacesPreserved(current: Modules, namespace: string, clients: seq<ProbeClient>, domain: string,
                                 other: string, clientId: string)
    requires DistinctKeys(current)
    requires NamespaceName(namespace) && NamespaceName(other) && namespace != other
    ensures Get(UpdatedModules(current, namespace, clients, domain), SsoModuleName(other, clientId)) ==
            Get(current, SsoModuleName(other, clientId))
  {
    var name := SsoModuleName(other, clientId);
    var p := SsoModulePrefix(namespace);
    UpdatedModulesSpec(current, namespace, clients, domain, name);
    PrefixesDisjoint(namespace, other, clientId);
    forall i | 0 <= i < |clients|
      ensures SsoModuleName(namespace, clients[i].clientId) != name
    {
      assert SsoModuleName(namespace, clients[i].clientId)[..|p|] == p;
    }
  }

  /** The base `http_2xx` module is never touched. */
  lemma BaseModulePreserved(current: Modules, namespace: string, clients: seq<ProbeClient>, domain: string)
    requires DistinctKeys(current)
    ensures Get(UpdatedModules(current, namespace, clients, domain), "http_2xx") == Get(current, "http_2xx")
  {
    UpdatedModulesSpec(current, namespace, clients, domain, "http_2xx");
  }
}
