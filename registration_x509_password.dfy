/**
 * The password step of the registration form (RegistrationX509Password):
 * without a CAC it is Keycloak's own password step; with a CAC the password
 * becomes optional, and a password that is given must be confirmed and pass
 * the realm's password policy.
 */
module RegistrationX509Password {
  import opened Wrappers
  import opened Keycloak
  import X509Tools

  /** The `register_method` detail the CAC path records before anything else. */
  const RegisterMethodForm: string := "form"

  /**
   * `getFirst(password).isEmpty() && getFirst(password-confirm).isEmpty()`
   * dereferences a null: the password is missing, or it is empty and the
   * confirmation is missing.
   */
  predicate EmptinessCheckThrows(form: FormData)
  {
    var password := GetFirst(form, FieldPassword);
    password.None? || (password.value == "" && GetFirst(form, FieldPasswordConfirm).None?)
  }

  /** Both password fields are present and empty: the CAC user chose no password. */
  predicate NoPasswordChosen(form: FormData)
  {
    GetFirst(form, FieldPassword) == Some("") && GetFirst(form, FieldPasswordConfirm) == Some("")
  }

  /** The name the password policy is checked against: the e-mail when it doubles as the username. */
  function PolicyUsername(form: FormData, realm: Realm): (r: Option<string>)
    ensures realm.registrationEmailAsUsername ==> r == GetFirst(form, FieldEmail)
    ensures !realm.registrationEmailAsUsername ==> r == GetFirst(form, FieldUsername)
  {
    GetFirst(form, if realm.registrationEmailAsUsername then FieldEmail else FieldUsername)
  }

  /** The confirmation message, when the confirmation is not the password (a missing one never is). */
  function ConfirmErrors(form: FormData): seq<FormMessage>
  {
    if GetFirst(form, FieldPasswordConfirm) != GetFirst(form, FieldPassword)
    then [Message(FieldPasswordConfirm, InvalidPasswordConfirmMessage)] else []
  }

  /** The policy message, bound to the password field and carrying the policy's parameters. */
  function PolicyErrors(form: FormData, realm: Realm, platform: Platform): seq<FormMessage>
  {
    match platform.passwordPolicy(PolicyUsername(form, realm), GetFirst(form, FieldPassword))
    case None => []
    case Some(err) => [FormMessage(Some(FieldPassword), PolicyMessage(err.message), err.parameters)]
  }

  /** The errors of a chosen password: confirmation first, then the policy. */
  function PasswordErrors(form: FormData, realm: Realm, platform: Platform): seq<FormMessage>
  {
    ConfirmErrors(form) + PolicyErrors(form, realm, platform)
  }

  /** The form handed back with the errors: both password fields are cleared. */
  function WithoutPasswords(form: FormData): (r: FormData)
    ensures FieldPassword !in r && FieldPasswordConfirm !in r
    ensures forall k :: k in form && k != FieldPassword && k != FieldPasswordConfirm ==> k in r && r[k] == form[k]
    ensures r.Keys <= form.Keys
  {
    form - {FieldPassword} - {FieldPasswordConfirm}
  }

  /** A chosen password is accepted iff it is confirmed and the policy finds nothing. */
  lemma PasswordAcceptedIff(form: FormData, realm: Realm, platform: Platform)
    ensures PasswordErrors(form, realm, platform) == [] <==>
      (GetFirst(form, FieldPasswordConfirm) == GetFirst(form, FieldPassword)
       && platform.passwordPolicy(PolicyUsername(form, realm), GetFirst(form, FieldPassword)).None?)
  {
  }

  /** A confirmation that differs from the password is reported first, on the confirmation field. */
  lemma MismatchReportedFirst(form: FormData, realm: Realm, platform: Platform)
    requires GetFirst(form, FieldPasswordConfirm) != GetFirst(form, FieldPassword)
    ensures PasswordErrors(form, realm, platform)[0] == Message(FieldPasswordConfirm, InvalidPasswordConfirmMessage)
  {
  }

  /** The checks of a chosen password at the middle of validate, which touch nothing but the error list. */
  method CollectPasswordErrors(formData: FormData, realm: Realm, platform: Platform)
    returns (errors: seq<FormMessage>)
    ensures errors == PasswordErrors(formData, realm, platform)
  {
    var password := GetFirst(formData, FieldPassword);
    errors := [];
    if GetFirst(formData, FieldPasswordConfirm) != password {
      errors := errors + [Message(FieldPasswordConfirm, InvalidPasswordConfirmMessage)];
    }
    var err := platform.passwordPolicy(PolicyUsername(formData, realm), password);
    if err.Some? {
      errors := errors + [FormMessage(Some(FieldPassword), PolicyMessage(err.value.message), err.value.parameters)];
    }
  }

  /**
   * validate. Without an X.509 username the standard password validation
   * runs. Otherwise the `register_method` detail is recorded; two empty
   * fields succeed; a missing field throws; and a chosen password either
   * succeeds or fails with INVALID_REGISTRATION, both fields cleared.
   */
  method Validate(ctx: ValidationContext) returns (c: Completion)
    modifies ctx
    ensures var form := old(ctx.formData);
      if X509Tools.GetX509Username(ctx.env).None? then
        && c == Completed && ctx.standardValidationRan
        && ctx.formData == form && ctx.eventDetails == old(ctx.eventDetails)
        && ctx.errorEvents == old(ctx.errorEvents) && ctx.errors == old(ctx.errors)
        && ctx.validationFailed == old(ctx.validationFailed) && ctx.succeeded == old(ctx.succeeded)
      else
        && ctx.env.realm.Some?
        && ctx.eventDetails == old(ctx.eventDetails) + [(DetailRegisterMethod, Some(RegisterMethodForm))]
        && ctx.standardValidationRan == old(ctx.standardValidationRan)
        && c == (if EmptinessCheckThrows(form) then NullPointerThrown else Completed)
        && var errs := PasswordErrors(form, ctx.env.realm.value, ctx.env.platform);
           var failed := !EmptinessCheckThrows(form) && !NoPasswordChosen(form) && errs != [];
           var accepted := !EmptinessCheckThrows(form) && (NoPasswordChosen(form) || errs == []);
           && ctx.errorEvents == old(ctx.errorEvents) + (if failed then [ErrorInvalidRegistration] else [])
           && ctx.formData == (if failed then WithoutPasswords(form) else form)
           && ctx.errors == (if failed then errs else old(ctx.errors))
           && ctx.validationFailed == (old(ctx.validationFailed) || failed)
           && ctx.succeeded == (old(ctx.succeeded) || accepted)
  {
    if X509Tools.GetX509Username(ctx.env).None? {
      ctx.RunStandardValidation();
      return Completed;
    }
    X509Tools.UsernameNeedsRealm(ctx.env);
    var formData := ctx.formData;
    var realm := ctx.env.realm.value;
    ctx.Detail(DetailRegisterMethod, Some(RegisterMethodForm));

    var password := GetFirst(formData, FieldPassword);
    var confirm := GetFirst(formData, FieldPasswordConfirm);
    if password.None? {
      return NullPointerThrown;
    }
    if password.value == "" {
      if confirm.None? {
        return NullPointerThrown;
      }
      if confirm.value == "" {
        ctx.Success();
        return Completed;
      }
    }

    var errors := CollectPasswordErrors(formData, realm, ctx.env.platform);

    if errors != [] {
      ctx.Error(ErrorInvalidRegistration);
      formData := formData - {FieldPassword};
      formData := formData - {FieldPasswordConfirm};
      ctx.ValidationError(formData, errors);
    } else {
      ctx.Success();
    }
    return Completed;
  }

  /**
   * Whether success runs the standard password step (storing the password)
   * and requires an authenticator app: always without a CAC, and with a CAC
   * only when a password was chosen.
   */
  predicate StoresPassword(x509Username: Option<string>, password: Option<string>)
  {
    x509Username.None? || (password.Some? && password.value != "")
  }

  /**
   * success. With a CAC and no password field, `isEmpty` dereferences a null
   * and nothing is stored.
   */
  method Success(ctx: FormContext) returns (c: Completion)
    modifies ctx.user
    ensures var x509 := X509Tools.GetX509Username(ctx.env);
      var password := GetFirst(ctx.formData, FieldPassword);
      && c == (if x509.Some? && password.None? then NullPointerThrown else Completed)
      && ctx.user.attributes == old(ctx.user.attributes)
      && (if StoresPassword(x509, password) then
            ctx.user.password == password && ctx.user.requiredActions == old(ctx.user.requiredActions) + {ConfigureTotp}
          else
            ctx.user.password == old(ctx.user.password) && ctx.user.requiredActions == old(ctx.user.requiredActions))
  {
    var user := ctx.user;
    var x509Username := X509Tools.GetX509Username(ctx.env);
    var password := GetFirst(ctx.formData, FieldPassword);
    if x509Username.Some? && password.None? {
      return NullPointerThrown;
    }
    if x509Username.None? || password.value != "" {
      user.SetPassword(password);
      user.AddRequiredAction(ConfigureTotp);
    }
    return Completed;
  }

  /** With a CAC, an empty password field stores nothing and leaves the authenticator app optional. */
  lemma CacWithoutPasswordSkipsTotp(x509Username: Option<string>)
    requires x509Username.Some?
    ensures !StoresPassword(x509Username, Some(""))
    ensures forall p :: StoresPassword(x509Username, Some(p)) <==> p != ""
  {
  }
}
