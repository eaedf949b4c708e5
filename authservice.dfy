/**
 * The authservice configuration update: one chain per SSO client protected
 * by authservice, kept sorted by name, and the global OIDC settings (the
 * Redis session store and the trusted CA bundle).
 */
module Authservice {
  import opened Wrappers
  import opened Strings
  import Sorting

  /** The `oidc_override` of a chain's single filter. */
  datatype OidcOverride = OidcOverride(
    authorizationUri: string,
    tokenUri: string,
    callbackUri: string,
    clientId: string,
    clientSecret: string,
    logoutPath: string,
    logoutRedirectUri: string,
    cookieNamePrefix: string)

  /** One authservice chain: requests whose `:authority` starts with `matchPrefix` go through `filters`. */
  datatype Chain = Chain(name: string, matchHeader: string, matchPrefix: string, filters: seq<OidcOverride>)

  /** The top-level settings other than the chains and the default OIDC config. */
  datatype ServerSettings = ServerSettings(
    allowUnmatchedRequests: bool, listenAddress: string, listenPort: string, logLevel: string, threads: int)

  /** `default_oidc_config`, which UpdateGlobalConfig edits in place. */
  class OidcConfig {
    const clientId: string
    const clientSecret: string
    /** `redis_session_store_config.server_uri`, when the store is configured. */
    var redisSessionStore: Option<string>
    var trustedCertificateAuthority: Option<string>

    constructor (clientId: string, clientSecret: string)
      ensures this.clientId == clientId && this.clientSecret == clientSecret
      ensures redisSessionStore == None && trustedCertificateAuthority == None
    {
      this.clientId := clientId;
      this.clientSecret := clientSecret;
      redisSessionStore := None;
      trustedCertificateAuthority := None;
    }
  }

  datatype AuthserviceConfig = AuthserviceConfig(
    settings: ServerSettings, defaultOidcConfig: OidcConfig, chains: seq<Chain>)

  /** An SSO client, as far as a chain needs it. */
  datatype Client = Client(clientId: string, secret: string, redirectUris: seq<string>)

  datatype AuthServiceEvent =
    | AddClient(name: string, client: Client)
    | RemoveClient(name: string)
    | UpdateGlobalConfig(redisUri: Option<string>, trustedCA: Option<string>)

  /**
   * What buildChain needs from outside: the domain and realm, the hostname
   * of a redirect URI (None when `new URL` throws) and generateCallbackUri.
   */
  datatype ChainEnv = ChainEnv(
    domain: string,
    realm: string,
    hostnameOf: string -> Option<string>,
    callbackUri: (string, string) -> string)

  /** `https://sso.<domain>/realms/<realm>/protocol/openid-connect/<endpoint>`. */
  function OidcEndpoint(env: ChainEnv, endpoint: string): string
  {
    "https://sso." + env.domain + "/realms/" + env.realm + "/protocol/openid-connect/" + endpoint
  }

  /**
   * buildChain: the chain for the first redirect URI's host. None when the
   * client has no redirect URI or the first one does not parse.
   */
  function BuildChain(name: string, client: Client, env: ChainEnv): (r: Option<Chain>)
    ensures r.Some? <==> |client.redirectUris| > 0 && env.hostnameOf(client.redirectUris[0]).Some?
    ensures r.Some? ==>
      && r.value.name == name
      && r.value.matchHeader == ":authority"
      && r.value.matchPrefix == env.hostnameOf(client.redirectUris[0]).value
      && |r.value.filters| == 1
      && r.value.filters[0].clientId == client.clientId == r.value.filters[0].cookieNamePrefix
  {
    if |client.redirectUris| == 0 then None
    else
      match env.hostnameOf(client.redirectUris[0])
      case None => None
      case Some(hostname) =>
        Some(Chain(name, ":authority", hostname, [OidcOverride(
          OidcEndpoint(env, "auth"),
          OidcEndpoint(env, "token"),
          env.callbackUri(hostname, client.clientId),
          client.clientId,
          client.secret,
          "/logout",
          OidcEndpoint(env, "logout"),
          client.clientId)]))
  }

  function ChainName(c: Chain): string { c.name }

  /** `chains.filter(chain => chain.name !== name)`. */
  function WithoutChain(chains: seq<Chain>, name: string): (r: seq<Chain>)
    ensures forall c :: c in r <==> c in chains && c.name != name
    ensures multiset(r) <= multiset(chains)
    ensures |r| <= |chains|
  {
    if chains == [] then []
    else
      assert chains == [chains[0]] + chains[1..];
      (if chains[0].name != name then [chains[0]] else []) + WithoutChain(chains[1..], name)
  }

  /** The AddClient chain list: that name's chains dropped, the new chain appended, sorted by name. */
  function AddChain(chains: seq<Chain>, chain: Chain): seq<Chain>
  {
    Sorting.SortBy(WithoutChain(chains, chain.name) + [chain], ChainName)
  }

  /**
   * After AddClient the chains are sorted by name, hold every other-named
   * chain as often as before and the new chain exactly once, and no other
   * chain carries its name.
   */
  lemma AddChainIsSortedUpsert(chains: seq<Chain>, chain: Chain)
    ensures var r := AddChain(chains, chain);
      && Sorting.SortedBy(r, ChainName)
      && multiset(r)[chain] == 1
      && (forall c :: c in r && c.name == chain.name ==> c == chain)
      && (forall c: Chain :: c.name != chain.name ==> multiset(r)[c] == multiset(chains)[c])
  {
    var kept := WithoutChain(chains, chain.name);
    var r := AddChain(chains, chain);
    assert multiset(r) == multiset(kept + [chain]) == multiset(kept) + multiset{chain};
    assert multiset(kept)[chain] == 0;
    forall c | c in r && c.name == chain.name ensures c == chain {
      assert c in multiset(kept) + multiset{chain};
      assert c in kept ==> c.name != chain.name;
    }
    forall c: Chain | c.name != chain.name ensures multiset(r)[c] == multiset(chains)[c] {
      WithoutChainCount(chains, chain.name, c);
    }
  }

  /** Filtering by name keeps every chain of another name as often as it occurs. */
  lemma {:induction false} WithoutChainCount(chains: seq<Chain>, name: string, c: Chain)
    requires c.name != name
    ensures multiset(WithoutChain(chains, name))[c] == multiset(chains)[c]
  {
    if chains != [] {
      WithoutChainCount(chains[1..], name, c);
      assert chains == [chains[0]] + chains[1..];
    }
  }

  /** RemoveClient on a name no chain carries changes nothing. */
  lemma {:induction false} RemoveAbsentIsNoop(chains: seq<Chain>, name: string)
    requires forall i :: 0 <= i < |chains| ==> chains[i].name != name
    ensures WithoutChain(chains, name) == chains
  {
    if chains != [] {
      RemoveAbsentIsNoop(chains[1..], name);
      assert chains == [chains[0]] + chains[1..];
    }
  }

  /** Removing a name keeps the chain list sorted: filtering keeps the order. */
  lemma {:induction false} RemoveKeepsSorted(chains: seq<Chain>, name: string)
    requires Sorting.SortedBy(chains, ChainName)
    ensures Sorting.SortedBy(WithoutChain(chains, name), ChainName)
  {
    if chains != [] {
      var rest := WithoutChain(chains[1..], name);
      assert Sorting.SortedBy(chains[1..], ChainName) by {
        forall i, j | 0 <= i < j < |chains[1..]| ensures LessEq(chains[1..][i].name, chains[1..][j].name) {
          assert chains[1..][i] == chains[i + 1] && chains[1..][j] == chains[j + 1];
        }
      }
      RemoveKeepsSorted(chains[1..], name);
      if chains[0].name != name {
        var r := WithoutChain(chains, name);
        assert r == [chains[0]] + rest;
        forall j | 0 < j < |r| ensures LessEq(chains[0].name, r[j].name) {
          assert r[j] == rest[j - 1] && rest[j - 1] in rest;
          var k :| 0 <= k < |chains| && chains[k] == rest[j - 1] && k > 0;
        }
      }
    }
  }

  /** Adding and then removing a client leaves no chain of that name and keeps all others. */
  lemma AddThenRemove(chains: seq<Chain>, chain: Chain)
    ensures var r := WithoutChain(AddChain(chains, chain), chain.name);
      forall c :: c in r <==> c in chains && c.name != chain.name
  {
    var added := AddChain(chains, chain);
    AddChainIsSortedUpsert(chains, chain);
    forall c: Chain | c.name != chain.name ensures c in added <==> c in chains {
      assert multiset(added)[c] == multiset(chains)[c];
    }
  }

  /**
   * buildConfig. AddClient replaces the chain of that name (None when
   * buildChain throws); RemoveClient filters it out; UpdateGlobalConfig sets
   * or deletes the Redis store and the CA bundle on the shared
   * `default_oidc_config` and keeps the chains. The result is a shallow copy
   * of `config`: every other field, and the OIDC config object itself, are shared.
   */
  method BuildConfig(config: AuthserviceConfig, event: AuthServiceEvent, env: ChainEnv)
    returns (r: Option<AuthserviceConfig>)
    modifies config.defaultOidcConfig
    ensures r.Some? ==> r.value.settings == config.settings && r.value.defaultOidcConfig == config.defaultOidcConfig
    ensures event.AddClient? ==>
      && config.defaultOidcConfig.redisSessionStore == old(config.defaultOidcConfig.redisSessionStore)
      && config.defaultOidcConfig.trustedCertificateAuthority == old(config.defaultOidcConfig.trustedCertificateAuthority)
      && match BuildChain(event.name, event.client, env)
         case None => r.None?
         case Some(chain) => r == Some(config.(chains := AddChain(config.chains, chain)))
    ensures event.RemoveClient? ==>
      && config.defaultOidcConfig.redisSessionStore == old(config.defaultOidcConfig.redisSessionStore)
      && config.defaultOidcConfig.trustedCertificateAuthority == old(config.defaultOidcConfig.trustedCertificateAuthority)
      && r == Some(config.(chains := WithoutChain(config.chains, event.name)))
    ensures event.UpdateGlobalConfig? ==>
      && config.defaultOidcConfig.redisSessionStore == (if Truthy(event.redisUri) then event.redisUri else None)
      && config.defaultOidcConfig.trustedCertificateAuthority == (if Truthy(event.trustedCA) then event.trustedCA else None)
      && r == Some(config)
  {
    match event
    case AddClient(name, client) =>
      var chain := BuildChain(name, client, env);
      if chain.None? {
        return None;
      }
      var chains := WithoutChain(config.chains, name);
      chains := chains + [chain.value];
      chains := Sorting.SortBy(chains, ChainName);
      return Some(config.(chains := chains));
    case RemoveClient(name) =>
      return Some(config.(chains := WithoutChain(config.chains, name)));
    case UpdateGlobalConfig(redisUri, trustedCA) =>
      var oidc := config.defaultOidcConfig;
      if !Truthy(redisUri) {
        oidc.redisSessionStore := None;
      } else {
        oidc.redisSessionStore := redisUri;
      }
      if !Truthy(trustedCA) {
        oidc.trustedCertificateAuthority := None;
      } else {
        oidc.trustedCertificateAuthority := trustedCA;
      }
      return Some(config.(chains := config.chains));
  }
}
