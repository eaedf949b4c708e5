/**
 * Migration of a Package to the current schema, applied in place on every
 * read: the deprecated `expose[].match`, `allow[].podLabels`,
 * `allow[].remotePodLabels` and `sso[].secret*` fields move to their new
 * places, and a legacy `status.authserviceClients` list of client ids becomes
 * a list of client objects.
 */
module Migrate {
  import opened Wrappers
  import opened Strings
  import opened Crd

  // ---------------------------------------------------------------------
  // One entry at a time
  // ---------------------------------------------------------------------

  const NoAdvancedHttp: AdvancedHttp := AdvancedHttp(None, None, None)
  const NoSecretConfig: SecretConfig := SecretConfig(None, None, None, None)

  /** `expose.match` (any array, even empty) moves to `advancedHTTP.match`, keeping the other settings. */
  function MigrateExpose(e: Expose): Expose
  {
    if e.matches.Some? then
      e.(advancedHTTP := Some(e.advancedHTTP.UnwrapOr(NoAdvancedHttp).(matches := e.matches)), matches := None)
    else e
  }

  /** `podLabels` replaces `selector`, `remotePodLabels` replaces `remoteSelector`, each when set. */
  function MigrateAllow(a: Allow): Allow
  {
    var a1 := if a.podLabels.Some? then a.(selector := a.podLabels, podLabels := None) else a;
    if a1.remotePodLabels.Some? then a1.(remoteSelector := a1.remotePodLabels, remotePodLabels := None) else a1
  }

  /** Whether an sso entry has any deprecated secret field (an empty name does not count). */
  predicate HasDeprecatedSecret(s: Sso)
  {
    Truthy(s.secretName) || s.secretLabels.Some? || s.secretAnnotations.Some? || s.secretTemplate.Some?
  }

  /**
   * The deprecated secret fields of an sso entry: each one set moves into
   * `secretConfig` unless that already has the field, and is deleted either
   * way. An empty `secretName` is falsy and stays where it is.
   */
  function MigrateSso(s: Sso): Sso
  {
    if !HasDeprecatedSecret(s) then s
    else
      var cfg := s.secretConfig.UnwrapOr(NoSecretConfig);
      var cfg1 := if Truthy(s.secretName) && !Truthy(cfg.name) then cfg.(name := s.secretName) else cfg;
      var cfg2 := if s.secretLabels.Some? && cfg1.labels.None? then cfg1.(labels := s.secretLabels) else cfg1;
      var cfg3 := if s.secretAnnotations.Some? && cfg2.annotations.None? then cfg2.(annotations := s.secretAnnotations) else cfg2;
      var cfg4 := if s.secretTemplate.Some? && cfg3.template.None? then cfg3.(template := s.secretTemplate) else cfg3;
      s.(secretConfig := Some(cfg4),
         secretName := if Truthy(s.secretName) then None else s.secretName,
         secretLabels := None,
         secretAnnotations := None,
         secretTemplate := None)
  }

  // ---------------------------------------------------------------------
  // buildMigratedAuthserviceStatus
  // ---------------------------------------------------------------------

  /** `ssoList.find(s => s.clientId === id)`. */
  function FindSso(ssoList: seq<Sso>, id: string): (r: Option<Sso>)
    ensures r.Some? ==> r.value in ssoList && r.value.clientId == id
    ensures r.None? <==> forall s :: s in ssoList ==> s.clientId != id
    ensures r.Some? ==> exists i :: (0 <= i < |ssoList| && ssoList[i] == r.value
                                     && forall j :: 0 <= j < i ==> ssoList[j].clientId != id)
  {
    if ssoList == [] then None
    else if ssoList[0].clientId == id then Some(ssoList[0])
    else FindSso(ssoList[1..], id)
  }

  /** The selector recorded for a legacy client id: that client's `enableAuthserviceSelector`, or `{}`. */
  function LegacySelector(ssoList: seq<Sso>, id: string): Selector
  {
    match FindSso(ssoList, id)
    case Some(s) => s.enableAuthserviceSelector.UnwrapOr([])
    case None => []
  }

  /** Each legacy client id as a client object. */
  function LegacyClients(ids: seq<string>, ssoList: seq<Sso>): (r: seq<AuthserviceClient>)
    ensures |r| == |ids|
    ensures forall i :: 0 <= i < |ids| ==> r[i] == AuthserviceClient(ids[i], LegacySelector(ssoList, ids[i]))
  {
    seq(|ids|, i requires 0 <= i < |ids| => AuthserviceClient(ids[i], LegacySelector(ssoList, ids[i])))
  }

  /**
   * buildMigratedAuthserviceStatus: absent or empty gives None; client
   * objects are returned as they are; client ids are mapped to objects.
   */
  function BuildMigratedAuthserviceStatus(status: Option<Status>, ssoList: seq<Sso>): Option<seq<AuthserviceClient>>
  {
    if status.None? || status.value.authserviceClients.None? then None
    else
      match status.value.authserviceClients.value
      case ClientObjects(clients) => if clients == [] then None else Some(clients)
      case ClientIds(ids) => if ids == [] then None else Some(LegacyClients(ids, ssoList))
  }

  /** migrateAuthserviceStatus: the status with the migrated list, or unchanged when there is none. */
  function MigrateStatus(status: Option<Status>, ssoList: seq<Sso>): Option<Status>
  {
    match BuildMigratedAuthserviceStatus(status, ssoList)
    case None => status
    case Some(clients) => Some(status.UnwrapOr(EmptyStatus).(authserviceClients := Some(ClientObjects(clients))))
  }

  // ---------------------------------------------------------------------
  // migrate
  // ---------------------------------------------------------------------

  /** Every entry of a list through its migration. */
  predicate MigratedEach<T(==)>(before: seq<T>, after: seq<T>, f: T -> T)
  {
    |after| == |before| && forall i :: 0 <= i < |before| ==> after[i] == f(before[i])
  }

  /**
   * migrate: the three loops edit the expose, allow and sso entries in place,
   * then the status is migrated. The package keeps its identity.
   */
  method MigratePackage(pkg: Package)
    modifies pkg
    ensures MigratedEach(old(pkg.expose), pkg.expose, MigrateExpose)
    ensures MigratedEach(old(pkg.allow), pkg.allow, MigrateAllow)
    ensures MigratedEach(old(pkg.sso), pkg.sso, MigrateSso)
    ensures pkg.status == MigrateStatus(old(pkg.status), pkg.sso)
    ensures pkg.metadata == old(pkg.metadata)
  {
    var i := 0;
    while i < |pkg.expose|
      invariant 0 <= i <= |pkg.expose| == |old(pkg.expose)|
      invariant forall k :: 0 <= k < i ==> pkg.expose[k] == MigrateExpose(old(pkg.expose)[k])
      invariant forall k :: i <= k < |pkg.expose| ==> pkg.expose[k] == old(pkg.expose)[k]
      invariant pkg.allow == old(pkg.allow) && pkg.sso == old(pkg.sso)
      invariant pkg.status == old(pkg.status) && pkg.metadata == old(pkg.metadata)
    {
      var expose := pkg.expose[i];
      if expose.matches.Some? {
        var advanced := expose.advancedHTTP.UnwrapOr(NoAdvancedHttp);
        advanced := advanced.(matches := expose.matches);
        expose := expose.(advancedHTTP := Some(advanced), matches := None);
      }
      pkg.expose := pkg.expose[i := expose];
      i := i + 1;
    }
    i := 0;
    while i < |pkg.allow|
      invariant 0 <= i <= |pkg.allow| == |old(pkg.allow)|
      invariant forall k :: 0 <= k < i ==> pkg.allow[k] == MigrateAllow(old(pkg.allow)[k])
      invariant forall k :: i <= k < |pkg.allow| ==> pkg.allow[k] == old(pkg.allow)[k]
      invariant MigratedEach(old(pkg.expose), pkg.expose, MigrateExpose) && pkg.sso == old(pkg.sso)
      invariant pkg.status == old(pkg.status) && pkg.metadata == old(pkg.metadata)
    {
      var allow := pkg.allow[i];
      if allow.podLabels.Some? {
        allow := allow.(selector := allow.podLabels, podLabels := None);
      }
      if allow.remotePodLabels.Some? {
        allow := allow.(remoteSelector := allow.remotePodLabels, remotePodLabels := None);
      }
      pkg.allow := pkg.allow[i := allow];
      i := i + 1;
    }
    i := 0;
    while i < |pkg.sso|
      invariant 0 <= i <= |pkg.sso| == |old(pkg.sso)|
      invariant forall k :: 0 <= k < i ==> pkg.sso[k] == MigrateSso(old(pkg.sso)[k])
      invariant forall k :: i <= k < |pkg.sso| ==> pkg.sso[k] == old(pkg.sso)[k]
      invariant MigratedEach(old(pkg.expose), pkg.expose, MigrateExpose)
      invariant MigratedEach(old(pkg.allow), pkg.allow, MigrateAllow)
      invariant pkg.status == old(pkg.status) && pkg.metadata == old(pkg.metadata)
    {
      var sso := MigrateSecretFields(pkg.sso[i]);
      pkg.sso := pkg.sso[i := sso];
      i := i + 1;
    }
    var migrated := BuildMigratedAuthserviceStatus(pkg.status, pkg.sso);
    if migrated.Some? {
      var current := pkg.status.UnwrapOr(EmptyStatus);
      pkg.status := Some(current.(authserviceClients := Some(ClientObjects(migrated.value))));
    }
  }

  /** The body of the sso loop: the four deprecated secret fields, one after another. */
  method MigrateSecretFields(s0: Sso) returns (s: Sso)
    ensures s == MigrateSso(s0)
  {
    s := s0;
    if !HasDeprecatedSecret(s) {
      return;
    }
    var cfg := s.secretConfig.UnwrapOr(NoSecretConfig);
    if Truthy(s.secretName) && !Truthy(cfg.name) {
      cfg := cfg.(name := s.secretName);
      s := s.(secretName := None);
    } else if Truthy(s.secretName) {
      s := s.(secretName := None);
    }
    if s.secretLabels.Some? && cfg.labels.None? {
      cfg := cfg.(labels := s.secretLabels);
      s := s.(secretLabels := None);
    } else if s.secretLabels.Some? {
      s := s.(secretLabels := None);
    }
    if s.secretAnnotations.Some? && cfg.annotations.None? {
      cfg := cfg.(annotations := s.secretAnnotations);
      s := s.(secretAnnotations := None);
    } else if s.secretAnnotations.Some? {
      s := s.(secretAnnotations := None);
    }
    if s.secretTemplate.Some? && cfg.template.None? {
      cfg := cfg.(template := s.secretTemplate);
      s := s.(secretTemplate := None);
    } else if s.secretTemplate.Some? {
      s := s.(secretTemplate := None);
    }
    s := s.(secretConfig := Some(cfg));
  }

  // ---------------------------------------------------------------------
  // Properties
  // ---------------------------------------------------------------------

  /**
   * A migrated expose rule has no `match`; a set `match` is now
   * `advancedHTTP.match` with the other advanced settings kept; nothing else
   * changes; migrating again changes nothing.
   */
  lemma MigrateExposeMoves(e: Expose)
    ensures var r := MigrateExpose(e);
      && r.matches.None?
      && (e.matches.Some? ==> r.advancedHTTP.Some? && r.advancedHTTP.value.matches == e.matches)
      && (e.matches.Some? && e.advancedHTTP.Some? ==>
            r.advancedHTTP.value.(matches := e.advancedHTTP.value.matches) == e.advancedHTTP.value)
      && (e.matches.None? ==> r == e)
      && r.(advancedHTTP := e.advancedHTTP, matches := e.matches) == e
      && MigrateExpose(r) == r
  {
  }

  /**
   * A migrated allow rule has no `podLabels` or `remotePodLabels`; each one
   * that was set is now the `selector` or `remoteSelector`; an unset one
   * leaves its target as it was; nothing else changes; migrating again
   * changes nothing.
   */
  lemma MigrateAllowMoves(a: Allow)
    ensures var r := MigrateAllow(a);
      && r.podLabels.None? && r.remotePodLabels.None?
      && r.selector == (if a.podLabels.Some? then a.podLabels else a.selector)
      && r.remoteSelector == (if a.remotePodLabels.Some? then a.remotePodLabels else a.remoteSelector)
      && r.(podLabels := a.podLabels, selector := a.selector,
            remotePodLabels := a.remotePodLabels, remoteSelector := a.remoteSelector) == a
      && MigrateAllow(r) == r
  {
  }

  /**
   * After the secret migration no deprecated secret field is left (an empty
   * `secretName` aside); a field `secretConfig` already had keeps its value,
   * a missing one takes the deprecated value; nothing else changes; migrating
   * again changes nothing.
   */
  lemma MigrateSsoMoves(s: Sso)
    requires HasDeprecatedSecret(s)
    ensures var r := MigrateSso(s);
      var cfg := s.secretConfig.UnwrapOr(NoSecretConfig);
      && !HasDeprecatedSecret(r)
      && r.secretLabels.None? && r.secretAnnotations.None? && r.secretTemplate.None?
      && r.secretName == (if Truthy(s.secretName) then None else s.secretName)
      && r.secretConfig.Some?
      && r.secretConfig.value.name == (if Truthy(cfg.name) || !Truthy(s.secretName) then cfg.name else s.secretName)
      && r.secretConfig.value.labels == (if cfg.labels.Some? then cfg.labels else s.secretLabels)
      && r.secretConfig.value.annotations == (if cfg.annotations.Some? then cfg.annotations else s.secretAnnotations)
      && r.secretConfig.value.template == (if cfg.template.Some? then cfg.template else s.secretTemplate)
      && r.(secretConfig := s.secretConfig, secretName := s.secretName, secretLabels := s.secretLabels,
            secretAnnotations := s.secretAnnotations, secretTemplate := s.secretTemplate) == s
      && MigrateSso(r) == r
  {
  }

  /** Without a deprecated secret field the sso entry is left as it is, `secretConfig` included. */
  lemma MigrateSsoNoop(s: Sso)
    requires !HasDeprecatedSecret(s)
    ensures MigrateSso(s) == s
  {
  }

  /**
   * The migrated status list: None exactly when the list is absent or empty;
   * client objects unchanged; each client id becomes an object with that id
   * and the `enableAuthserviceSelector` of the first sso client with that id,
   * or `{}` when there is none or it has no selector.
   */
  lemma BuildMigratedAuthserviceStatusSpec(status: Option<Status>, ssoList: seq<Sso>)
    ensures var r := BuildMigratedAuthserviceStatus(status, ssoList);
      && (r.None? <==>
            status.None? || status.value.authserviceClients.None?
            || status.value.authserviceClients.value == ClientIds([])
            || status.value.authserviceClients.value == ClientObjects([]))
      && (r.Some? && status.value.authserviceClients.value.ClientObjects? ==>
            r.value == status.value.authserviceClients.value.clients)
      && (r.Some? && status.value.authserviceClients.value.ClientIds? ==>
            var ids := status.value.authserviceClients.value.ids;
            |r.value| == |ids|
            && forall i :: 0 <= i < |ids| ==>
                 && r.value[i].clientId == ids[i]
                 && (FindSso(ssoList, ids[i]).None? ==> r.value[i].selector == [])
                 && (FindSso(ssoList, ids[i]).Some? ==>
                       r.value[i].selector == FindSso(ssoList, ids[i]).value.enableAuthserviceSelector.UnwrapOr([])))
  {
  }

  /** A status migrated once is not changed by a second migration, whatever the sso list. */
  lemma MigrateStatusIdempotent(status: Option<Status>, ssoList: seq<Sso>, ssoLater: seq<Sso>)
    ensures MigrateStatus(MigrateStatus(status, ssoList), ssoLater) == MigrateStatus(status, ssoList)
  {
  }

  /** A status migration changes only `authserviceClients`. */
  lemma MigrateStatusKeepsOthers(status: Option<Status>, ssoList: seq<Sso>)
    requires status.Some?
    ensures var r := MigrateStatus(status, ssoList);
      r.Some? && r.value.(authserviceClients := status.value.authserviceClients) == status.value
  {
  }
}
