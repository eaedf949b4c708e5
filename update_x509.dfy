/**
 * The UPDATE_X509 required action: on login with a CAC that is not yet bound
 * to the account, it asks the user to bind it; the user confirms (the X.509
 * username is stored in `usercertificate`) or cancels (the session is noted
 * so the question is not asked again).
 */
module UpdateX509 {
  import opened Wrappers
  import opened Keycloak
  import Common
  import X509Tools

  /** The provider id, which is also the name of the required action. */
  const ProviderId: string := "UPDATE_X509"

  /** The form field the confirmation page posts when the user declines. */
  const CancelField: string := "cancel"

  /** The session note IGNORE_X509 reads "true": the user declined during this session. */
  predicate IgnoreRequested(authNotes: map<string, string>)
  {
    Common.IgnoreX509 in authNotes && authNotes[Common.IgnoreX509] == "true"
  }

  /** Whether evaluateTriggers does anything: a CAC is present and the user has not declined. */
  predicate TriggersApply(env: RequestEnv, authNotes: map<string, string>)
  {
    X509Tools.GetX509Username(env).Some? && !IgnoreRequested(authNotes)
  }

  /** The user's attributes after `activecac` is set to `identity` (null removes it). */
  function WithActiveCac(attributes: map<string, seq<string>>, identity: Option<string>)
    : (r: map<string, seq<string>>)
    ensures identity.Some? ==> Common.UserActiveX509Attr in r && r[Common.UserActiveX509Attr] == [identity.value]
    ensures identity.None? ==> Common.UserActiveX509Attr !in r
    ensures forall k :: k != Common.UserActiveX509Attr ==> (k in r <==> k in attributes)
    ensures forall k :: k in r && k != Common.UserActiveX509Attr ==> r[k] == attributes[k]
  {
    if identity.Some? then attributes[Common.UserActiveX509Attr := [identity.value]]
    else attributes - {Common.UserActiveX509Attr}
  }

  /**
   * evaluateTriggers. Without an X.509 username, or once the user declined,
   * nothing changes. Otherwise `activecac` is set to the identity of the
   * chain the request carries, and UPDATE_X509 is required iff the CAC is not
   * yet registered to any user.
   */
  method EvaluateTriggers(ctx: RequiredActionContext)
    modifies ctx.user
    ensures ctx.user.password == old(ctx.user.password)
    ensures if !TriggersApply(ctx.env, ctx.authNotes) then
        ctx.user.attributes == old(ctx.user.attributes)
        && ctx.user.requiredActions == old(ctx.user.requiredActions)
      else
        && ctx.env.realm.Some?
        && ctx.user.attributes == WithActiveCac(old(ctx.user.attributes),
             X509Tools.IdentityFromCertChain(ctx.clientCertificateChain, ctx.env.realm.value, ctx.env.platform))
        && ctx.user.requiredActions ==
           old(ctx.user.requiredActions) + (if X509Tools.IsX509Registered(ctx.env) then {} else {ProviderId})
  {
    var ignore := if Common.IgnoreX509 in ctx.authNotes then Some(ctx.authNotes[Common.IgnoreX509]) else None;
    var x509Username := X509Tools.GetX509Username(ctx.env);
    if x509Username.None? || (ignore.Some? && ignore.value == "true") {
      return;
    }
    X509Tools.UsernameNeedsRealm(ctx.env);
    var realm := ctx.env.realm.value;
    var identity := X509Tools.GetX509IdentityFromCertChain(ctx.clientCertificateChain, realm, ctx.env.platform);
    ctx.user.SetSingleAttribute(Common.UserActiveX509Attr, identity);
    if !X509Tools.IsX509Registered(ctx.env) {
      ctx.user.AddRequiredAction(ProviderId);
    }
  }

  /**
   * processAction. A cancel notes IGNORE_X509 = "true" and binds nothing;
   * a confirmation binds the X.509 username to `usercertificate` when there
   * is one. Either way the action succeeds.
   */
  method ProcessAction(ctx: RequiredActionContext)
    modifies ctx, ctx.user
    ensures ctx.succeeded
    ensures ctx.user.requiredActions == old(ctx.user.requiredActions)
    ensures ctx.user.password == old(ctx.user.password)
    ensures if CancelField in ctx.formData then
        ctx.authNotes == old(ctx.authNotes)[Common.IgnoreX509 := "true"]
        && ctx.user.attributes == old(ctx.user.attributes)
      else
        var username := X509Tools.GetX509Username(ctx.env);
        && ctx.authNotes == old(ctx.authNotes)
        && ctx.user.attributes ==
           (if username.Some? then old(ctx.user.attributes)[Common.UserIdAttribute := [username.value]]
            else old(ctx.user.attributes))
  {
    if CancelField in ctx.formData {
      ctx.SetAuthNote(Common.IgnoreX509, "true");
      ctx.Success();
      return;
    }
    var username := X509Tools.GetX509Username(ctx.env);
    if username.Some? {
      ctx.user.SetSingleAttribute(Common.UserIdAttribute, username);
    }
    ctx.Success();
  }

  /** After a cancel the triggers stay off for the rest of the session, whatever the CAC. */
  lemma CancelSuppressesTriggers(authNotes: map<string, string>, env: RequestEnv)
    ensures !TriggersApply(env, authNotes[Common.IgnoreX509 := "true"])
  {
  }

  /** Without a CAC the triggers never apply, whatever the session notes. */
  lemma NoCacNoTriggers(authNotes: map<string, string>, env: RequestEnv)
    requires X509Tools.GetX509Username(env).None?
    ensures !TriggersApply(env, authNotes)
  {
  }

  /** isOneTimeAction. */
  function IsOneTimeAction(): (r: bool)
    ensures r
  {
    true
  }
}
