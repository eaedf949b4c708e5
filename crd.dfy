/**
 * The UDS Package custom resource, as far as the operator code modelled here
 * reads or writes it. Optional fields are `Option`s; a list the resource
 * leaves out is the empty list, since no operation here tells the two apart.
 * Label maps (`{ [key: string]: string }`) are association lists in the
 * insertion order of their keys.
 */
module Crd {
  import opened Wrappers

  /** A label map, for example a pod selector's `matchLabels`. */
  type Selector = seq<(string, string)>

  datatype Direction = Ingress | Egress

  datatype RemoteGenerated = Anywhere | CloudMetadata | IntraNamespace | KubeAPI | KubeNodes

  datatype RemoteProtocol = TLS | HTTP

  datatype Gateway = Admin | Passthrough | Tenant

  datatype Phase = Failed | Pending | Ready | Removing | Retrying

  /** The text of a `RemoteGenerated` value, as the enum spells it. */
  function RemoteGeneratedName(g: RemoteGenerated): (r: string)
    ensures r != ""
  {
    match g
    case Anywhere => "Anywhere"
    case CloudMetadata => "CloudMetadata"
    case IntraNamespace => "IntraNamespace"
    case KubeAPI => "KubeAPI"
    case KubeNodes => "KubeNodes"
  }

  /** Distinct enum members have distinct texts, so the text identifies the member. */
  lemma RemoteGeneratedNameInjective(a: RemoteGenerated, b: RemoteGenerated)
    ensures RemoteGeneratedName(a) == RemoteGeneratedName(b) ==> a == b
  {
  }

  /** The text of a `Direction` value. */
  function DirectionName(d: Direction): string
  {
    match d
    case Ingress => "Ingress"
    case Egress => "Egress"
  }

  /** One `network.allow` entry. `podLabels` and `remotePodLabels` are the deprecated spellings. */
  datatype Allow = Allow(
    description: Option<string>,
    direction: Direction,
    labels: Option<Selector>,
    podLabels: Option<Selector>,
    port: Option<int>,
    ports: Option<seq<int>>,
    remoteCidr: Option<string>,
    remoteGenerated: Option<RemoteGenerated>,
    remoteHost: Option<string>,
    remoteNamespace: Option<string>,
    remotePodLabels: Option<Selector>,
    remoteProtocol: Option<RemoteProtocol>,
    remoteSelector: Option<Selector>,
    remoteServiceAccount: Option<string>,
    selector: Option<Selector>)

  /** A string match of an HTTP route (`exact`, `prefix` or `regex`). */
  datatype StringMatch = Exact(exact: string) | Prefix(prefix: string) | Regex(regex: string)

  /** One HTTP route match (`httpMethod` is its `method` field); the deprecated `expose.match` and `advancedHTTP.match` both hold these. */
  datatype HttpMatch = HttpMatch(name: string, ignoreUriCase: Option<bool>, httpMethod: Option<StringMatch>, uri: Option<StringMatch>)

  /** `expose.advancedHTTP` (`matches` is its `match` field); its other settings are never read here. */
  datatype AdvancedHttp = AdvancedHttp(matches: Option<seq<HttpMatch>>, timeout: Option<string>, weight: Option<int>)

  /** One `network.expose` entry. `matches` is its deprecated `match` field, now `advancedHTTP.match`. */
  datatype Expose = Expose(
    advancedHTTP: Option<AdvancedHttp>,
    description: Option<string>,
    gateway: Option<Gateway>,
    host: string,
    matches: Option<seq<HttpMatch>>,
    port: Option<int>,
    selector: Option<Selector>,
    service: Option<string>,
    targetPort: Option<int>)

  /** `sso.secretConfig`: where the client secret is written and how. */
  datatype SecretConfig = SecretConfig(
    name: Option<string>,
    labels: Option<Selector>,
    annotations: Option<Selector>,
    template: Option<Selector>)

  /** One `sso` client. The four `secret*` fields are the deprecated spellings of `secretConfig`. */
  datatype Sso = Sso(
    clientId: string,
    name: string,
    enableAuthserviceSelector: Option<Selector>,
    redirectUris: Option<seq<string>>,
    secretName: Option<string>,
    secretLabels: Option<Selector>,
    secretAnnotations: Option<Selector>,
    secretTemplate: Option<Selector>,
    secretConfig: Option<SecretConfig>)

  /** One client protected by authservice, with the selector of its pods. */
  datatype AuthserviceClient = AuthserviceClient(clientId: string, selector: Selector)

  /** `status.authserviceClients`: older operators wrote the client ids, newer ones write objects. */
  datatype AuthserviceClients =
    | ClientIds(ids: seq<string>)
    | ClientObjects(clients: seq<AuthserviceClient>)

  datatype Status = Status(
    authserviceClients: Option<AuthserviceClients>,
    endpoints: Option<seq<string>>,
    monitors: Option<seq<string>>,
    networkPolicyCount: Option<int>,
    observedGeneration: Option<int>,
    phase: Option<Phase>,
    retryAttempt: Option<int>,
    ssoClients: Option<seq<string>>)

  /** The status with every field unset, `{}`. */
  const EmptyStatus: Status := Status(None, None, None, None, None, None, None, None)

  datatype Metadata = Metadata(name: Option<string>, namespace: Option<string>, uid: Option<string>, generation: Option<int>)

  /** A Package resource; the operator edits its lists and its status in place. */
  class Package {
    var metadata: Metadata
    var allow: seq<Allow>
    var expose: seq<Expose>
    var sso: seq<Sso>
    var status: Option<Status>

    constructor (metadata: Metadata, allow: seq<Allow>, expose: seq<Expose>, sso: seq<Sso>, status: Option<Status>)
      ensures this.metadata == metadata && this.allow == allow && this.expose == expose
      ensures this.sso == sso && this.status == status
    {
      this.metadata := metadata;
      this.allow := allow;
      this.expose := expose;
      this.sso := sso;
      this.status := status;
    }
  }
}
